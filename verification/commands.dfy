/** What a form handler hands to the command executor, and the one flag rule every
    argument builder shares: an optional string flag is emitted as a flag/value pair
    only when its value is not blank, and a boolean flag only when it is true.

    A builder is written here as a grammar (the flags in the order the source appends
    them) filled with the form's values; `Decode` reads an argv back against the same
    grammar, and `DecodeRender` proves the reading recovers exactly what the form said. */
module Commands {
  import opened JavaLang

  /** One invocation: the argument vector, the status message shown while it runs, and
      whether the caller passed a per-command output consumer (the sink). */
  datatype Command = Command(argv: seq<JString>, status: string, hasSink: bool)

  /** What a handler does with a form: show an error and submit nothing, or append
      some lines to the log and submit exactly one command. */
  datatype Request =
    | Rejected(message: string)
    | Submitted(notes: seq<string>, cmd: Command)

  /** Fixed words as non-null argv entries. */
  function Lit(words: seq<string>): (r: seq<JString>)
    ensures |r| == |words|
    ensures forall i :: 0 <= i < |words| ==> r[i] == Str(words[i])
  {
    seq(|words|, i requires 0 <= i < |words| => Str(words[i]))
  }

  lemma LitConcat(a: seq<string>, b: seq<string>)
    ensures Lit(a + b) == Lit(a) + Lit(b)
  {}

  /** addOptional: the pair [flag, value] when the value is not blank, nothing for
      null or whitespace-only values. */
  function AddOptional(flag: string, value: JString): (r: seq<JString>)
    ensures r == [] <==> (value.Null? || AllTrimmable(value.value))
    ensures r != [] ==> r == [Str(flag), value]
  {
    if NotBlank(value) then [Str(flag), value] else []
  }

  /** One entry of a builder's grammar. */
  datatype Slot =
    | OptionalSlot(flag: string)                  // addOptional(cmd, flag, value)
    | SwitchSlot(flag: string, more: seq<string>) // if (on) add flag and the words after it

  /** The form value that fills a slot. */
  datatype Field = Text(text: JString) | Toggle(on: bool)

  /** What a reader of an argv learns about one slot. */
  datatype Reading = Given(value: JString) | Missing | On | Off

  /** The argv words one filled slot contributes; a field of the wrong kind contributes nothing. */
  function Emit(slot: Slot, field: Field): seq<JString>
  {
    match slot
    case OptionalSlot(flag) =>
      if field.Text? then AddOptional(flag, field.text) else []
    case SwitchSlot(flag, more) =>
      if field.Toggle? && field.on then Lit([flag] + more) else []
  }

  /** The tail of an argv that a builder appends after its fixed prefix. */
  function Render(grammar: seq<Slot>, fields: seq<Field>): seq<JString>
    requires |fields| == |grammar|
    decreases |grammar|
  {
    if |grammar| == 0 then [] else Emit(grammar[0], fields[0]) + Render(grammar[1..], fields[1..])
  }

  /** What an optional string flag should read back as. */
  function OptionalReading(value: JString): Reading
  {
    if value.Str? && HasVisible(value.value) then Given(value) else Missing
  }

  /** What a boolean flag should read back as. */
  function SwitchReading(on: bool): Reading
  {
    if on then On else Off
  }

  /** The reading a filled slot is meant to produce. */
  function Expect(slot: Slot, field: Field): Reading
  {
    match slot
    case OptionalSlot(_) => if field.Text? then OptionalReading(field.text) else Missing
    case SwitchSlot(_, _) => SwitchReading(field.Toggle? && field.on)
  }

  function Readings(grammar: seq<Slot>, fields: seq<Field>): (r: seq<Reading>)
    requires |fields| == |grammar|
    ensures |r| == |grammar|
  {
    seq(|grammar|, i requires 0 <= i < |grammar| => Expect(grammar[i], fields[i]))
  }

  /** Readings of a grammar split in two are the readings of each part. */
  lemma ReadingsConcat(a: seq<Slot>, fa: seq<Field>, b: seq<Slot>, fb: seq<Field>)
    requires |fa| == |a| && |fb| == |b|
    ensures Readings(a + b, fa + fb) == Readings(a, fa) + Readings(b, fb)
  {
    assert forall i :: |a| <= i < |a| + |b| ==> (a + b)[i] == b[i - |a|] && (fa + fb)[i] == fb[i - |a|];
  }

  /** No flag of a grammar is reused by a later slot, so a reader can tell which slots are present. */
  predicate Unambiguous(grammar: seq<Slot>)
  {
    forall i, j :: 0 <= i < j < |grammar| ==> grammar[i].flag != grammar[j].flag
  }

  /** Reads one slot at the front of an argv: its reading and how many words it used. */
  function ReadSlot(slot: Slot, argv: seq<JString>): (r: (Reading, nat))
    ensures r.1 <= |argv|
  {
    match slot
    case OptionalSlot(flag) =>
      if |argv| >= 2 && argv[0] == Str(flag) then (Given(argv[1]), 2) else (Missing, 0)
    case SwitchSlot(flag, more) =>
      var words := Lit([flag] + more);
      if |argv| >= |words| && argv[..|words|] == words then (On, |words|) else (Off, 0)
  }

  /** Reads an argv tail against a grammar; None when words are left over. */
  function Decode(grammar: seq<Slot>, argv: seq<JString>): Option<seq<Reading>>
    decreases |grammar|
  {
    if |grammar| == 0 then
      if argv == [] then Some([]) else None
    else
      var (reading, used) := ReadSlot(grammar[0], argv);
      var rest := Decode(grammar[1..], argv[used..]);
      if rest.Some? then Some([reading] + rest.value) else None
  }

  /** A non-empty rendering starts with the flag of one of the grammar's slots. */
  lemma {:induction false} RenderStartsWithFlag(grammar: seq<Slot>, fields: seq<Field>)
    requires |fields| == |grammar|
    ensures Render(grammar, fields) != [] ==>
      exists k :: 0 <= k < |grammar| && Render(grammar, fields)[0] == Str(grammar[k].flag)
    decreases |grammar|
  {
    if |grammar| > 0 {
      var head := Emit(grammar[0], fields[0]);
      if head == [] {
        RenderStartsWithFlag(grammar[1..], fields[1..]);
        if Render(grammar, fields) != [] {
          var k :| 0 <= k < |grammar[1..]| && Render(grammar[1..], fields[1..])[0] == Str(grammar[1..][k].flag);
          assert grammar[1..][k] == grammar[k + 1];
        }
      } else {
        assert Render(grammar, fields)[0] == head[0];
      }
    }
  }

  lemma ReadOptionalEmit(flag: string, value: JString, tail: seq<JString>)
    requires tail == [] || tail[0] != Str(flag)
    ensures ReadSlot(OptionalSlot(flag), AddOptional(flag, value) + tail)
         == (OptionalReading(value), |AddOptional(flag, value)|)
  {
    var words := AddOptional(flag, value);
    NotBlankIsVisible(value);
    if NotBlank(value) {
      assert words == [Str(flag), value];
      ReadPair(flag, value, tail);
    } else {
      assert words + tail == tail;
    }
  }

  lemma ReadPair(flag: string, value: JString, tail: seq<JString>)
    ensures ReadSlot(OptionalSlot(flag), [Str(flag), value] + tail) == (Given(value), 2)
  {
    var argv := [Str(flag), value] + tail;
    assert argv[0] == Str(flag) && argv[1] == value;
  }

  lemma ReadSwitchEmit(flag: string, more: seq<string>, on: bool, tail: seq<JString>)
    requires tail == [] || tail[0] != Str(flag)
    ensures var head := if on then Lit([flag] + more) else [];
      ReadSlot(SwitchSlot(flag, more), head + tail) == (SwitchReading(on), |head|)
  {
    var words := Lit([flag] + more);
    if on {
      assert (words + tail)[..|words|] == words;
    } else if |tail| >= |words| {
      assert tail[..|words|][0] != words[0];
    }
  }

  /** Reading one filled slot off the front of an argv gives its intended reading and
      consumes exactly its words, provided what follows does not start with its flag. */
  lemma ReadSlotEmit(slot: Slot, field: Field, tail: seq<JString>)
    requires tail == [] || tail[0] != Str(slot.flag)
    ensures ReadSlot(slot, Emit(slot, field) + tail) == (Expect(slot, field), |Emit(slot, field)|)
  {
    match slot
    case OptionalSlot(flag) =>
      if field.Text? {
        ReadOptionalEmit(flag, field.text, tail);
      } else {
        assert Emit(slot, field) + tail == tail;
      }
    case SwitchSlot(flag, more) =>
      ReadSwitchEmit(flag, more, field.Toggle? && field.on, tail);
  }

  /** Dropping the first slot keeps a grammar unambiguous. */
  lemma UnambiguousTail(grammar: seq<Slot>)
    requires |grammar| > 0 && Unambiguous(grammar)
    ensures Unambiguous(grammar[1..])
  {
    forall i, j | 0 <= i < j < |grammar[1..]|
      ensures grammar[1..][i].flag != grammar[1..][j].flag
    {
      assert grammar[1..][i] == grammar[i + 1] && grammar[1..][j] == grammar[j + 1];
    }
  }

  /** No flag of `a` is a flag of `b`. */
  predicate FlagsDisjoint(a: seq<Slot>, b: seq<Slot>)
  {
    forall i, j :: 0 <= i < |a| && 0 <= j < |b| ==> a[i].flag != b[j].flag
  }

  /** Two unambiguous grammars with disjoint flags make an unambiguous grammar. */
  lemma UnambiguousConcat(a: seq<Slot>, b: seq<Slot>)
    requires Unambiguous(a) && Unambiguous(b) && FlagsDisjoint(a, b)
    ensures Unambiguous(a + b)
  {
    forall i, j | 0 <= i < j < |a + b|
      ensures (a + b)[i].flag != (a + b)[j].flag
    {
      if j >= |a| {
        assert (a + b)[j] == b[j - |a|];
        if i >= |a| {
          assert (a + b)[i] == b[i - |a|];
        }
      }
    }
  }

  lemma DisjointConcat(a: seq<Slot>, b: seq<Slot>, c: seq<Slot>)
    requires FlagsDisjoint(a, c) && FlagsDisjoint(b, c)
    ensures FlagsDisjoint(a + b, c)
  {
    forall i, j | 0 <= i < |a + b| && 0 <= j < |c|
      ensures (a + b)[i].flag != c[j].flag
    {
      if i >= |a| {
        assert (a + b)[i] == b[i - |a|];
      }
    }
  }

  lemma DisjointConcatRight(a: seq<Slot>, b: seq<Slot>, c: seq<Slot>)
    requires FlagsDisjoint(a, b) && FlagsDisjoint(a, c)
    ensures FlagsDisjoint(a, b + c)
  {
    forall i, j | 0 <= i < |a| && 0 <= j < |b + c|
      ensures a[i].flag != (b + c)[j].flag
    {
      if j >= |b| {
        assert (b + c)[j] == c[j - |b|];
      }
    }
  }

  /** Two grammars split in halves are apart when each half of one is apart from each half of the other. */
  lemma DisjointHalves(a1: seq<Slot>, a2: seq<Slot>, b1: seq<Slot>, b2: seq<Slot>)
    requires FlagsDisjoint(a1, b1) && FlagsDisjoint(a1, b2) && FlagsDisjoint(a2, b1) && FlagsDisjoint(a2, b2)
    ensures FlagsDisjoint(a1 + a2, b1 + b2)
  {
    DisjointConcatRight(a1, b1, b2);
    DisjointConcatRight(a2, b1, b2);
    DisjointConcat(a1, a2, b1 + b2);
  }

  /** Round trip: reading back a rendered argv recovers every slot — a pair exactly when
      its value is not blank, a boolean flag exactly when it is true — and nothing else. */
  lemma {:induction false} DecodeRender(grammar: seq<Slot>, fields: seq<Field>)
    requires |fields| == |grammar|
    requires Unambiguous(grammar)
    ensures Decode(grammar, Render(grammar, fields)) == Some(Readings(grammar, fields))
    decreases |grammar|
  {
    if |grammar| > 0 {
      var slot, field := grammar[0], fields[0];
      var head := Emit(slot, field);
      var tail := Render(grammar[1..], fields[1..]);
      UnambiguousTail(grammar);
      DecodeRender(grammar[1..], fields[1..]);
      RenderStartsWithFlag(grammar[1..], fields[1..]);
      if tail != [] {
        var k :| 0 <= k < |grammar[1..]| && tail[0] == Str(grammar[1..][k].flag);
        assert grammar[1..][k] == grammar[k + 1];
      }
      ReadSlotEmit(slot, field, tail);
      assert (head + tail)[|head|..] == tail;
      assert Readings(grammar, fields) == [Expect(slot, field)] + Readings(grammar[1..], fields[1..]);
    }
  }
}
