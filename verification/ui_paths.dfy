/** UiUtils.getDefaultOutputPath: the input's directory, then its file name with the suffix
    inserted before the last '.'. Paths are read the way java.io.File reads them on a
    Unix-like system: '/' is the separator, repeated separators collapse and a trailing one
    is dropped; getName is what follows the last separator and getParent what precedes it. */
module UiPaths {
  import opened JavaLang

  const SeparatorChar: char := '/'

  /** String.lastIndexOf(char): the last position holding `c`, or -1. */
  function LastIndexOf(s: string, c: char): (r: int)
    ensures -1 <= r < |s|
    ensures r >= 0 ==> s[r] == c
    ensures forall k :: r < k < |s| ==> s[k] != c
    decreases |s|
  {
    if |s| == 0 then -1
    else if s[|s| - 1] == c then |s| - 1
    else LastIndexOf(s[..|s| - 1], c)
  }

  /** A position holding `c` with no `c` after it is the last index of `c`. */
  lemma LastIndexOfIs(s: string, c: char, i: nat)
    requires i < |s| && s[i] == c && c !in s[i + 1..]
    ensures LastIndexOf(s, c) == i
  {
    assert forall k :: i < k < |s| ==> s[k] == s[i + 1..][k - i - 1];
  }

  predicate NoDoubleSeparator(s: string)
  {
    forall i :: 0 <= i < |s| - 1 ==> !(s[i] == SeparatorChar && s[i + 1] == SeparatorChar)
  }

  /** Collapses every run of separators into one. */
  function Collapse(p: string): (r: string)
    ensures NoDoubleSeparator(r)
    ensures |r| <= |p|
    ensures |p| > 0 ==> |r| > 0 && r[0] == p[0]
    decreases |p|
  {
    if |p| <= 1 then p
    else if p[0] == SeparatorChar && p[1] == SeparatorChar then Collapse(p[1..])
    else [p[0]] + Collapse(p[1..])
  }

  /** The path a File holds: separators collapsed, a trailing one dropped unless it is the root. */
  function Normalize(p: string): (r: string)
    ensures NoDoubleSeparator(r)
    ensures |r| > 1 ==> r[|r| - 1] != SeparatorChar
    ensures |p| > 0 ==> |r| > 0 && (r[0] == SeparatorChar <==> p[0] == SeparatorChar)
  {
    var c := Collapse(p);
    if |c| > 1 && c[|c| - 1] == SeparatorChar then c[..|c| - 1] else c
  }

  /** A path without repeated separators is its own collapse. */
  lemma {:induction false} CollapseFixed(p: string)
    requires NoDoubleSeparator(p)
    ensures Collapse(p) == p
    decreases |p|
  {
    if |p| > 1 {
      assert NoDoubleSeparator(p[1..]) by {
        forall i | 0 <= i < |p[1..]| - 1
          ensures !(p[1..][i] == SeparatorChar && p[1..][i + 1] == SeparatorChar)
        {
          assert p[1..][i] == p[i + 1] && p[1..][i + 1] == p[i + 2];
        }
      }
      CollapseFixed(p[1..]);
      assert !(p[0] == SeparatorChar && p[1] == SeparatorChar);
      assert p == [p[0]] + p[1..];
    }
  }

  /** Normalizing twice is normalizing once: a File built from a File's path holds the same path. */
  lemma NormalizeIdempotent(p: string)
    ensures Normalize(Normalize(p)) == Normalize(p)
  {
    CollapseFixed(Normalize(p));
  }

  /** 1 for an absolute path (the root "/" is its prefix), 0 otherwise. */
  function PrefixLength(path: string): nat
  {
    if |path| > 0 && path[0] == SeparatorChar then 1 else 0
  }

  /** File.getName. */
  function Name(p: string): string
  {
    var path := Normalize(p);
    var index := LastIndexOf(path, SeparatorChar);
    if index < PrefixLength(path) then path[PrefixLength(path)..] else path[index + 1..]
  }

  /** File.getParent: null when the path names no directory. */
  function Parent(p: string): JString
  {
    var path := Normalize(p);
    var index := LastIndexOf(path, SeparatorChar);
    if index < PrefixLength(path) then
      if PrefixLength(path) > 0 && |path| > PrefixLength(path) then Str(path[..PrefixLength(path)]) else Null
    else
      Str(path[..index])
  }

  /** new File(parent, name).getPath(): one separator between, none added after the root. */
  function Child(parent: string, name: string): string
  {
    if parent == [SeparatorChar] then parent + name else parent + [SeparatorChar] + name
  }

  /** The name holds no separator, and putting the parent back in front of it gives the
      path the File holds; without a parent the path is the name itself, or the root. */
  lemma NameParentSplit(p: string)
    ensures SeparatorChar !in Name(p)
    ensures Parent(p).Str? ==> Child(Parent(p).value, Name(p)) == Normalize(p)
    ensures Parent(p).Null? ==> Normalize(p) == Name(p) || (Normalize(p) == [SeparatorChar] && Name(p) == "")
  {
    var path := Normalize(p);
    var index := LastIndexOf(path, SeparatorChar);
    if index >= PrefixLength(path) {
      assert path == path[..index] + [SeparatorChar] + path[index + 1..];
    } else if PrefixLength(path) > 0 && |path| > 1 {
      assert path == [SeparatorChar] + path[1..];
    }
  }

  /** Where the last '.' of a file name falls: the base before it and the extension from it on. */
  function SplitAtLastDot(name: string): (r: Option<(string, string)>)
    ensures r.None? <==> '.' !in name
    ensures r.Some? ==>
      r.value.0 + r.value.1 == name && |r.value.1| > 0 && r.value.1[0] == '.' && '.' !in r.value.1[1..]
  {
    var dot := LastIndexOf(name, '.');
    if dot < 0 then None
    else
      assert forall k :: 0 <= k < |name[dot..][1..]| ==> name[dot..][1..][k] == name[dot + 1 + k];
      assert name[..dot] + name[dot..] == name;
      Some((name[..dot], name[dot..]))
  }

  /** getDefaultOutputPath(inputPath, suffix): the parent (printed "null" when there is none),
      the separator, the base name, the suffix, the extension. A null input throws from the
      File constructor; a name without '.' throws from substring(0, -1). */
  function DefaultOutputPath(inputPath: JString, suffix: JString): (r: Result<string>)
    ensures r.Ok? <==> inputPath.Str? && '.' in Name(inputPath.value)
    ensures r.Ok? ==> var split := SplitAtLastDot(Name(inputPath.value)).value;
      r.value == Show(Parent(inputPath.value)) + [SeparatorChar] + split.0 + Show(suffix) + split.1
  {
    if inputPath.Null? then Thrown("NullPointerException")
    else
      var name := Name(inputPath.value);
      match SplitAtLastDot(name)
      case None => Thrown("StringIndexOutOfBoundsException")
      case Some(split) => Ok(Show(Parent(inputPath.value)) + [SeparatorChar] + split.0 + Show(suffix) + split.1)
  }

  /** The result ends with the input's extension, dot included, and the suffix comes right before it. */
  lemma DefaultOutputPathKeepsExtension(inputPath: JString, suffix: JString)
    requires DefaultOutputPath(inputPath, suffix).Ok?
    ensures var r := DefaultOutputPath(inputPath, suffix).value;
      var ext := SplitAtLastDot(Name(inputPath.value)).value.1;
      |r| >= |ext| + |Show(suffix)| && r[|r| - |ext|..] == ext && r[|r| - |ext| - |Show(suffix)|..|r| - |ext|] == Show(suffix)
  {
  }

  /** With an empty suffix the output is the input's parent and unchanged name. */
  lemma EmptySuffixKeepsName(inputPath: string)
    requires '.' in Name(inputPath)
    ensures DefaultOutputPath(Str(inputPath), Str(""))
         == Ok(Show(Parent(inputPath)) + [SeparatorChar] + Name(inputPath))
  {
    var name := Name(inputPath);
    var split := SplitAtLastDot(name).value;
    var head := Show(Parent(inputPath)) + [SeparatorChar];
    var r := DefaultOutputPath(Str(inputPath), Str(""));
    assert r.value == head + split.0 + Show(Str("")) + split.1;
    assert Show(Str("")) == [];
    assert split.0 + split.1 == name;
    EmptyInMiddle(head, split.0, split.1);
  }

  lemma EmptyInMiddle(h: string, a: string, b: string)
    ensures h + a + [] + b == h + (a + b)
  {
  }

  /** With a directory, an empty suffix gives back the path the input File holds, except that a
      file directly under the root gets a doubled separator. */
  lemma EmptySuffixRoundTrip(inputPath: string)
    requires '.' in Name(inputPath) && Parent(inputPath).Str? && Parent(inputPath).value != [SeparatorChar]
    ensures DefaultOutputPath(Str(inputPath), Str("")) == Ok(Normalize(inputPath))
  {
    EmptySuffixKeepsName(inputPath);
    NameParentSplit(inputPath);
  }

  /** A path without a separator is its own name and has no parent. */
  lemma BareName(p: string)
    requires SeparatorChar !in p
    ensures Normalize(p) == p && Name(p) == p && Parent(p).Null?
  {
    CollapseFixed(p);
  }

  lemma BareNameOutput(inputPath: string, suffix: JString)
    requires '.' in inputPath && SeparatorChar !in inputPath
    ensures DefaultOutputPath(Str(inputPath), suffix).Ok?
    ensures DefaultOutputPath(Str(inputPath), suffix).value
         == Show(Null) + [SeparatorChar] + SplitAtLastDot(inputPath).value.0 + Show(suffix) + SplitAtLastDot(inputPath).value.1
  {
    BareName(inputPath);
  }

  lemma StartsWith(r: string, head: string, a: string, b: string, c: string)
    requires r == head + a + b + c
    ensures |r| >= |head| && r[..|head|] == head
  {
    assert r == head + (a + b + c);
  }

  /** A path with no directory part comes out under a directory literally named "null". */
  lemma NoDirectoryGivesNullPrefix(inputPath: string, suffix: JString)
    requires '.' in inputPath && SeparatorChar !in inputPath
    ensures DefaultOutputPath(Str(inputPath), suffix).Ok?
    ensures |DefaultOutputPath(Str(inputPath), suffix).value| >= 5
    ensures DefaultOutputPath(Str(inputPath), suffix).value[..5] == Show(Null) + [SeparatorChar]
  {
    BareNameOutput(inputPath, suffix);
    var split := SplitAtLastDot(inputPath).value;
    StartsWith(DefaultOutputPath(Str(inputPath), suffix).value, Show(Null) + [SeparatorChar], split.0,
          Show(suffix), split.1);
  }

  lemma NameSplitPoint()
    ensures SplitAtLastDot("a.b.apk") == Some(("a.b", ".apk"))
  {
    var name := "a.b.apk";
    var dot := LastIndexOf(name, '.');
    assert name[3] == '.' && name[4] != '.' && name[5] != '.' && name[6] != '.';
    assert dot == 3;
    assert name[..3] == "a.b" && name[3..] == ".apk";
  }

  /** A path as a File holds it: no repeated separator, no trailing one except the root. */
  predicate IsNormal(q: string)
  {
    NoDoubleSeparator(q) && (|q| > 1 ==> q[|q| - 1] != SeparatorChar)
  }

  /** A name put under a directory (other than the root) is read back as that name with that
      directory as its parent. */
  lemma ChildIsNormal(dir: string, name: string)
    requires IsNormal(dir) && |dir| > 0 && dir != [SeparatorChar]
    requires |name| > 0 && SeparatorChar !in name
    ensures IsNormal(dir + [SeparatorChar] + name)
  {
    var p := dir + [SeparatorChar] + name;
    var cut := |dir|;
    assert dir[cut - 1] != SeparatorChar;
    assert forall k :: 0 <= k < cut ==> p[k] == dir[k];
    assert forall k :: cut < k < |p| ==> p[k] == name[k - cut - 1];
  }

  lemma LastSeparatorOfChild(dir: string, name: string)
    requires SeparatorChar !in name
    ensures LastIndexOf(dir + [SeparatorChar] + name, SeparatorChar) == |dir|
  {
    var p := dir + [SeparatorChar] + name;
    assert p[|dir|] == SeparatorChar && p[|dir| + 1..] == name;
    LastIndexOfIs(p, SeparatorChar, |dir|);
  }

  lemma ChildParts(dir: string, name: string)
    requires IsNormal(dir) && |dir| > 0 && dir != [SeparatorChar]
    requires |name| > 0 && SeparatorChar !in name
    ensures Normalize(Child(dir, name)) == Child(dir, name)
    ensures Name(Child(dir, name)) == name && Parent(Child(dir, name)) == Str(dir)
  {
    ChildNormalizes(dir, name);
    ChildNameAndParent(dir, name);
  }

  lemma ChildNormalizes(dir: string, name: string)
    requires IsNormal(dir) && |dir| > 0 && dir != [SeparatorChar]
    requires |name| > 0 && SeparatorChar !in name
    ensures Normalize(Child(dir, name)) == Child(dir, name)
  {
    ChildIsNormal(dir, name);
    CollapseFixed(Child(dir, name));
  }

  lemma ChildNameAndParent(dir: string, name: string)
    requires IsNormal(dir) && |dir| > 0 && dir != [SeparatorChar]
    requires |name| > 0 && SeparatorChar !in name
    ensures Name(Child(dir, name)) == name && Parent(Child(dir, name)) == Str(dir)
  {
    var p := Child(dir, name);
    assert p == dir + [SeparatorChar] + name;
    ChildNormalizes(dir, name);
    LastSeparatorOfChild(dir, name);
    assert p[|dir| + 1..] == name;
    assert p[..|dir|] == dir;
  }

  /** The last '.' of base + ext is the one ext starts with. */
  lemma SplitFindsExtension(base: string, ext: string)
    requires |ext| > 0 && ext[0] == '.' && '.' !in ext[1..]
    ensures SplitAtLastDot(base + ext) == Some((base, ext))
  {
    var name := base + ext;
    assert name[|base|] == '.';
    assert forall k :: |base| < k < |name| ==> name[k] == ext[1..][k - |base| - 1];
    assert forall j :: 0 <= j < |ext[1..]| ==> ext[1..][j] != '.';
    assert LastIndexOf(name, '.') == |base|;
    assert name[..|base|] == base && name[|base|..] == ext;
  }

  /** The suffix goes in front of the last '.' of the file name, whatever dots come before it. */
  lemma SuffixBeforeLastDot(dir: string, base: string, ext: string, suffix: string)
    requires IsNormal(dir) && |dir| > 0 && dir != [SeparatorChar] && SeparatorChar !in base + ext
    requires |ext| > 0 && ext[0] == '.' && '.' !in ext[1..]
    ensures DefaultOutputPath(Str(dir + [SeparatorChar] + (base + ext)), Str(suffix))
         == Ok(dir + [SeparatorChar] + base + suffix + ext)
  {
    ChildParts(dir, base + ext);
    SplitFindsExtension(base, ext);
  }
}
