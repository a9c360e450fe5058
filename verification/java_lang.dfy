/** The parts of java.lang the front-end leans on: nullable String references,
    String.trim-based blankness, String.join, String.replace, String.repeat and
    the decimal rendering of an int in string concatenation. */
module JavaLang {

  /** A Java String reference: null, or a sequence of chars. */
  datatype JString = Null | Str(value: string)

  /** A value that may be absent (a Java reference that may be null, used where the
      referent is not a String). */
  datatype Option<T> = None | Some(value: T)

  /** The outcome of a Java expression that may throw: a value, or the exception's class name. */
  datatype Result<T> = Ok(value: T) | Thrown(exception: string)

  /** How `+` and String.valueOf render a String reference: null prints as "null". */
  function Show(s: JString): string
  {
    match s
    case Null => "null"
    case Str(v) => v
  }

  /** The chars String.trim removes from either end: every char at or below U+0020. */
  predicate IsTrimmable(c: char)
  {
    c <= ' '
  }

  predicate AllTrimmable(s: string)
  {
    forall i :: 0 <= i < |s| ==> IsTrimmable(s[i])
  }

  /** Drops trimmable chars from the front. */
  function TrimStart(s: string): (r: string)
    ensures |r| <= |s|
    ensures r == s[|s| - |r|..]
    ensures AllTrimmable(s[..|s| - |r|])
    ensures r == [] || !IsTrimmable(r[0])
    decreases |s|
  {
    if |s| > 0 && IsTrimmable(s[0]) then
      var r := TrimStart(s[1..]);
      assert s[..|s| - |r|] == [s[0]] + s[1..][..|s| - 1 - |r|];
      r
    else
      s
  }

  /** Drops trimmable chars from the back. */
  function TrimEnd(s: string): (r: string)
    ensures |r| <= |s|
    ensures r == s[..|r|]
    ensures AllTrimmable(s[|r|..])
    ensures r == [] || !IsTrimmable(r[|r| - 1])
    decreases |s|
  {
    if |s| > 0 && IsTrimmable(s[|s| - 1]) then
      var r := TrimEnd(s[..|s| - 1]);
      assert s[|r|..] == s[..|s| - 1][|r|..] + [s[|s| - 1]];
      r
    else
      s
  }

  /** String.trim: the substring between the first and the last char above U+0020. */
  function Trim(s: string): (r: string)
    ensures r == [] <==> AllTrimmable(s)
    ensures r != [] ==> !IsTrimmable(r[0]) && !IsTrimmable(r[|r| - 1])
  {
    TrimBothEnds(s);
    TrimEnd(TrimStart(s))
  }

  /** Trimming both ends leaves nothing exactly when every char is trimmable, and otherwise
      leaves a visible char at each end. */
  lemma TrimBothEnds(s: string)
    ensures var r := TrimEnd(TrimStart(s));
      && (r == [] <==> AllTrimmable(s))
      && (r != [] ==> !IsTrimmable(r[0]) && !IsTrimmable(r[|r| - 1]))
  {
    var front := TrimStart(s);
    var r := TrimEnd(front);
    var k := |s| - |front|;
    if front == [] {
      assert s[..k] == s;
    } else {
      assert s[k] == front[0];
      assert front[|r|..] == [] || IsTrimmable(front[|r|..][0]);
      assert |r| == 0 || r[0] == front[0];
    }
  }

  /** StringUtils.isBlank: null, or nothing left after trimming. */
  function IsBlank(s: JString): (b: bool)
    ensures b <==> (s.Null? || AllTrimmable(s.value))
  {
    s == Null || Trim(s.value) == []
  }

  /** StringUtils.notBlank, written independently of isBlank as in the source. */
  function NotBlank(s: JString): (b: bool)
    ensures b == !IsBlank(s)
    ensures b ==> exists i :: 0 <= i < |s.value| && !IsTrimmable(s.value[i])
  {
    s != Null && Trim(s.value) != []
  }

  /** Some char of the string survives trimming: the blank test as a plain recursion over the
      chars, for reasoning about many values at once. */
  predicate HasVisible(s: string)
    decreases |s|
  {
    |s| > 0 && (!IsTrimmable(s[0]) || HasVisible(s[1..]))
  }

  lemma {:induction false} HasVisibleNotAllTrimmable(s: string)
    ensures HasVisible(s) <==> !AllTrimmable(s)
    decreases |s|
  {
    if |s| > 0 {
      HasVisibleNotAllTrimmable(s[1..]);
      assert forall i :: 1 <= i < |s| ==> s[i] == s[1..][i - 1];
    }
  }

  /** notBlank holds exactly for a non-null string with a visible char. */
  lemma NotBlankIsVisible(s: JString)
    ensures NotBlank(s) <==> s.Str? && HasVisible(s.value)
  {
    if s.Str? {
      HasVisibleNotAllTrimmable(s.value);
    }
  }

  /** String.join: the parts with `sep` between consecutive ones. */
  function Join(sep: string, parts: seq<string>): string
  {
    if |parts| == 0 then ""
    else if |parts| == 1 then parts[0]
    else parts[0] + sep + Join(sep, parts[1..])
  }

  /** Appending one more part adds exactly the separator and that part. */
  lemma {:induction false} JoinSnoc(sep: string, parts: seq<string>, last: string)
    requires |parts| > 0
    ensures Join(sep, parts + [last]) == Join(sep, parts) + sep + last
    decreases |parts|
  {
    if |parts| > 1 {
      assert (parts + [last])[1..] == parts[1..] + [last];
      JoinSnoc(sep, parts[1..], last);
    }
  }

  /** Each reference rendered as String.join renders it. */
  function ShowAll(xs: seq<JString>): (r: seq<string>)
    ensures |r| == |xs|
    ensures forall i :: 0 <= i < |xs| ==> r[i] == Show(xs[i])
  {
    seq(|xs|, i requires 0 <= i < |xs| => Show(xs[i]))
  }

  /** True when `t` occurs in `s` starting at index `i`. */
  predicate OccursAt(s: string, t: string, i: int)
  {
    0 <= i && i + |t| <= |s| && s[i..i + |t|] == t
  }

  /** String.replace(CharSequence, CharSequence): every occurrence of `t`, scanning
      left to right without overlap, is replaced by `r`. */
  function Replace(s: string, t: string, r: string): string
    requires |t| > 0
    decreases |s|
  {
    if |s| < |t| then s
    else if s[..|t|] == t then r + Replace(s[|t|..], t, r)
    else [s[0]] + Replace(s[1..], t, r)
  }

  /** A string in which `t` never occurs is returned unchanged. */
  lemma {:induction false} ReplaceAbsent(s: string, t: string, r: string)
    requires |t| > 0
    requires forall i :: 0 <= i < |s| ==> !OccursAt(s, t, i)
    ensures Replace(s, t, r) == s
    decreases |s|
  {
    if |s| >= |t| {
      assert !OccursAt(s, t, 0);
      forall i | 0 <= i < |s[1..]|
        ensures !OccursAt(s[1..], t, i)
      {
        assert !OccursAt(s, t, i + 1);
        if i + |t| <= |s[1..]| {
          assert s[1..][i..i + |t|] == s[i + 1..i + 1 + |t|];
        }
      }
      ReplaceAbsent(s[1..], t, r);
    }
  }

  /** When the only occurrence of `t` in `p + t` is the final one, replacing rewrites
      just that suffix: "app.apk" becomes "app" + r. */
  lemma {:induction false} ReplaceFinal(p: string, t: string, r: string)
    requires |t| > 0
    requires forall i :: 0 <= i < |p| ==> !OccursAt(p + t, t, i)
    ensures Replace(p + t, t, r) == p + r
    decreases |p|
  {
    var s := p + t;
    if |p| == 0 {
      assert s[..|t|] == t && s[|t|..] == [];
    } else {
      var rest := p[1..] + t;
      assert s == [p[0]] + rest;
      forall i | 0 <= i < |p[1..]|
        ensures !OccursAt(rest, t, i)
      {
        assert !OccursAt(s, t, i + 1);
        assert rest[i..i + |t|] == s[i + 1..i + 1 + |t|];
      }
      ReplaceFinal(p[1..], t, r);
      assert !OccursAt(s, t, 0);
      ReplaceSkip(p[0], rest, t, r);
      assert p + r == [p[0]] + (p[1..] + r);
    }
  }

  /** An occurrence at the front is replaced and the scan resumes right after it. */
  lemma ReplaceLeading(t: string, s: string, r: string)
    requires |t| > 0
    ensures Replace(t + s, t, r) == r + Replace(s, t, r)
  {
    assert (t + s)[..|t|] == t && (t + s)[|t|..] == s;
  }

  /** A char that does not start an occurrence is kept and the scan moves on by one. */
  lemma ReplaceSkip(c: char, s: string, t: string, r: string)
    requires |t| > 0 && !OccursAt([c] + s, t, 0)
    ensures Replace([c] + s, t, r) == [c] + Replace(s, t, r)
  {
    assert ([c] + s)[1..] == s;
  }

  lemma ApkNamesSpelled()
    ensures "a.apk.apk" == "a" + ".apk" + ".apk"
    ensures "a_signed.apk_signed.apk" == "a" + "_signed.apk" + "_signed.apk"
  {}

  /** Every occurrence is replaced, not only the first. */
  lemma ReplaceEveryOccurrence()
    ensures Replace("a.apk.apk", ".apk", "_signed.apk") == "a_signed.apk_signed.apk"
  {
    var t, r := ".apk", "_signed.apk";
    ReplaceLeading(t, "", r);
    ReplaceLeading(t, t, r);
    assert !OccursAt(['a'] + (t + t), t, 0) by {
      assert (['a'] + (t + t))[0] == 'a';
    }
    ReplaceSkip('a', t + t, t, r);
    ApkNamesSpelled();
    assert "a" + t + t == ['a'] + (t + t);
    assert "a" + r + r == ['a'] + (r + r);
  }

  /** String.repeat for a one-char string. */
  function Repeat(c: char, n: nat): (r: string)
    ensures |r| == n
    ensures forall i :: 0 <= i < n ==> r[i] == c
  {
    seq(n, _ => c)
  }

  function DigitChar(d: nat): (c: char)
    requires d < 10
    ensures '0' <= c <= '9'
  {
    ('0' as int + d) as char
  }

  /** Integer.toString for a non-negative value: its decimal digits, most significant first. */
  function NatToString(n: nat): (r: string)
    ensures |r| > 0
    ensures forall i :: 0 <= i < |r| ==> '0' <= r[i] <= '9'
    decreases n
  {
    if n < 10 then [DigitChar(n)] else NatToString(n / 10) + [DigitChar(n % 10)]
  }

  /** Integer.toString for any int, as `"..." + code` renders an exit code. */
  function IntToString(n: int): string
  {
    if n < 0 then "-" + NatToString(-n) else NatToString(n)
  }

  /** The value of a string of decimal digits. */
  function DigitsValue(s: string): int
    decreases |s|
  {
    if |s| == 0 then 0 else 10 * DigitsValue(s[..|s| - 1]) + (s[|s| - 1] as int - '0' as int)
  }

  /** Integer.parseInt on what Integer.toString produces. */
  function ParseInt(s: string): int
  {
    if |s| > 0 && s[0] == '-' then -DigitsValue(s[1..]) else DigitsValue(s)
  }

  lemma {:induction false} NatToStringRoundTrip(n: nat)
    ensures DigitsValue(NatToString(n)) == n
    decreases n
  {
    if n >= 10 {
      var s := NatToString(n);
      assert s[..|s| - 1] == NatToString(n / 10);
      NatToStringRoundTrip(n / 10);
    }
  }

  /** The decimal text of an exit code determines the code: the rendering loses nothing. */
  lemma IntToStringRoundTrip(n: int)
    ensures ParseInt(IntToString(n)) == n
  {
    if n < 0 {
      NatToStringRoundTrip(-n);
      assert IntToString(n)[1..] == NatToString(-n);
    } else {
      NatToStringRoundTrip(n);
    }
  }
}
