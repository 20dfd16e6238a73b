/** What the desktop's argument coercion means, kind by kind, and what of a raw input reaches the client. */
module ArgumentRecords {
  import opened Options
  import opened Sequences
  import opened Text
  import opened FlagNames
  import opened Argv

  // ----- texts split at commas and line ends -----

  predicate Separates(c: char) {
    c == ',' || c == '\n'
  }

  predicate Unseparated(part: string) {
    forall c :: c in part ==> !Separates(c)
  }

  function Interleaved(parts: seq<string>, separators: string): string
    requires |parts| == |separators| + 1
  {
    if separators == "" then parts[0] else parts[0] + [separators[0]] + Interleaved(parts[1..], separators[1..])
  }

  /** The text is these parts with one comma or line end between each two. */
  ghost predicate SplitsInto(text: string, parts: seq<string>) {
    && (forall part :: part in parts ==> Unseparated(part))
    && exists separators: string ::
         && |parts| == |separators| + 1
         && (forall c :: c in separators ==> Separates(c))
         && text == Interleaved(parts, separators)
  }

  lemma {:induction false} SplitTake(part: string, rest: string, current: string)
    requires Unseparated(part)
    ensures SplitList(part + rest, current) == SplitList(rest, current + part)
    decreases |part|
  {
    if part == "" {
      assert part + rest == rest && current + part == current;
    } else {
      var head, tail := part[0], part[1..];
      assert head in part && forall c :: c in tail ==> c in part;
      assert (part + rest)[1..] == tail + rest;
      SplitTake(tail, rest, current + [head]);
      assert (current + [head]) + tail == current + part;
    }
  }

  lemma {:induction false} SplitOfInterleaved(parts: seq<string>, separators: string)
    requires |parts| == |separators| + 1
    requires forall part :: part in parts ==> Unseparated(part)
    requires forall c :: c in separators ==> Separates(c)
    ensures SplitList(Interleaved(parts, separators), "") == parts
    decreases |separators|
  {
    var head := parts[0];
    assert head in parts && "" + head == head;
    if separators == "" {
      SplitTake(head, "", "");
      assert head + "" == head;
    } else {
      var c, tail := separators[0], Interleaved(parts[1..], separators[1..]);
      assert c in separators;
      assert forall part :: part in parts[1..] ==> part in parts;
      assert forall d :: d in separators[1..] ==> d in separators;
      SplitOfInterleaved(parts[1..], separators[1..]);
      SplitTake(head, [c] + tail, "");
      assert head + [c] + tail == head + ([c] + tail);
      assert ([c] + tail)[1..] == tail;
    }
  }

  lemma {:induction false} SplitSeparates(text: string, current: string) returns (separators: string)
    requires Unseparated(current)
    ensures var parts := SplitList(text, current);
            && |parts| == |separators| + 1
            && (forall part :: part in parts ==> Unseparated(part))
            && (forall c :: c in separators ==> Separates(c))
            && current + text == Interleaved(parts, separators)
    decreases |text|
  {
    if text == "" {
      separators := "";
    } else if Separates(text[0]) {
      var rest := SplitSeparates(text[1..], "");
      separators := [text[0]] + rest;
      var parts := SplitList(text[1..], "");
      assert SplitList(text, current) == [current] + parts;
      assert ([current] + parts)[1..] == parts && separators[1..] == rest;
      assert "" + text[1..] == text[1..];
      assert text == [text[0]] + text[1..];
    } else {
      separators := SplitSeparates(text[1..], current + [text[0]]);
      assert current + [text[0]] + text[1..] == current + text;
    }
  }

  lemma SplitListIff(text: string, parts: seq<string>)
    ensures SplitList(text, "") == parts <==> SplitsInto(text, parts)
  {
    if SplitList(text, "") == parts {
      var separators := SplitSeparates(text, "");
      assert "" + text == text;
    }
    if SplitsInto(text, parts) {
      var separators: string :| && |parts| == |separators| + 1
                                && (forall c :: c in separators ==> Separates(c))
                                && text == Interleaved(parts, separators);
      SplitOfInterleaved(parts, separators);
    }
  }

  // ----- integers at the head of a text -----

  /** White space, perhaps a sign, digits, and then no digit. */
  ghost predicate ReadsAs(text: string, n: int) {
    exists before: string, sign: string, digits: string, rest: string ::
      IntegerParts(text, n, before, sign, digits, rest)
  }

  ghost predicate IntegerParts(text: string, n: int, before: string, sign: string, digits: string, rest: string) {
    && text == before + (sign + (digits + rest))
    && AllSpace(before)
    && (sign == "" || sign == "+" || sign == "-")
    && digits != "" && (forall c :: c in digits ==> IsDigit(c))
    && (rest == "" || !IsDigit(rest[0]))
    && n == (if sign == "-" then -(ReadDecimal(digits) as int) else ReadDecimal(digits))
  }

  lemma {:induction false} DigitPrefixSplits(s: string) returns (rest: string)
    ensures s == DigitPrefix(s) + rest && (rest == "" || !IsDigit(rest[0]))
  {
    if s == "" || !IsDigit(s[0]) {
      rest := s;
    } else {
      rest := DigitPrefixSplits(s[1..]);
    }
  }

  lemma {:induction false} DigitPrefixTakes(digits: string, rest: string)
    requires forall c :: c in digits ==> IsDigit(c)
    requires rest == "" || !IsDigit(rest[0])
    ensures DigitPrefix(digits + rest) == digits
    decreases |digits|
  {
    if digits == "" {
      assert digits + rest == rest;
    } else {
      assert digits[0] in digits;
      assert (digits + rest)[1..] == digits[1..] + rest;
      DigitPrefixTakes(digits[1..], rest);
    }
  }

  lemma {:induction false} TrimStartDrops(before: string, s: string)
    requires AllSpace(before) && (s == "" || !IsSpace(s[0]))
    ensures TrimStart(before + s) == s
    decreases |before|
  {
    if before == "" {
      assert before + s == s;
    } else {
      assert before[0] in before;
      assert (before + s)[1..] == before[1..] + s;
      TrimStartDrops(before[1..], s);
    }
  }

  lemma PartsRead(n: int, before: string, sign: string, digits: string, rest: string)
    requires AllSpace(before) && (sign == "" || sign == "+" || sign == "-")
    requires digits != "" && forall c :: c in digits ==> IsDigit(c)
    requires rest == "" || !IsDigit(rest[0])
    requires n == if sign == "-" then -(ReadDecimal(digits) as int) else ReadDecimal(digits)
    ensures ReadsAs(before + (sign + (digits + rest)), n)
  {
    assert IntegerParts(before + (sign + (digits + rest)), n, before, sign, digits, rest);
  }

  lemma ParseIntReads(text: string, n: int)
    requires ParseInt(text) == Some(n)
    ensures ReadsAs(text, n)
  {
    var before := TrimStartSplits(text);
    var s := TrimStart(text);
    var signed := s != "" && (s[0] == '-' || s[0] == '+');
    var sign := if signed then [s[0]] else "";
    var tail := if signed then s[1..] else s;
    var rest := DigitPrefixSplits(tail);
    hide TrimStart, DigitPrefix, ReadDecimal, ReadsAs, AllSpace;
    assert s == sign + tail;
    PartsRead(n, before, sign, DigitPrefix(tail), rest);
  }

  lemma ReadsParse(text: string, n: int)
    requires ReadsAs(text, n)
    ensures ParseInt(text) == Some(n)
  {
    var before: string, sign: string, digits: string, rest: string :| IntegerParts(text, n, before, sign, digits, rest);
    var tail := digits + rest;
    var s := sign + tail;
    assert tail[0] == digits[0] && digits[0] in digits;
    assert s[0] == if sign == "" then digits[0] else sign[0];
    TrimStartDrops(before, s);
    DigitPrefixTakes(digits, rest);
    hide TrimStart, DigitPrefix, ReadDecimal;
    assert sign != "" ==> s[1..] == tail;
    assert sign == "" ==> s == tail;
  }

  lemma ParseIntIff(text: string, n: int)
    ensures ParseInt(text) == Some(n) <==> ReadsAs(text, n)
  {
    hide *;
    if ParseInt(text) == Some(n) {
      ParseIntReads(text, n);
    }
    if ReadsAs(text, n) {
      ReadsParse(text, n);
    }
  }

  // ----- what coercion means -----

  function TextOf(v: Input): string {
    if v.InText? then v.text else InputText(v)
  }

  /** The value a raw input stands for under a declared kind. */
  ghost predicate StandsFor(kind: Kind, v: Input, value: ArgValue) {
    && v != InText("")
    && match kind
       case StringKind => value == Words(TextOf(v))
       case BooleanKind =>
         value.Switch? && (value.on <==> v == InFlag(true) || v == InText("true") || v == InText("1") || v == InText("on"))
       case IntegerKind =>
         value.Number? && if v.InNumber? then value.number == v.number else ReadsAs(TextOf(v), value.number)
       case ArrayKind => value.List? && ListsItems(v, value.items)
  }

  /** Of a list its non-empty items; of a text the trimmed parts that are not blank. */
  ghost predicate ListsItems(v: Input, items: seq<string>) {
    if v.InItems? then items == Filter(v.items, NonBlank())
    else exists parts :: SplitsInto(TextOf(v), parts) && items == Filter(Map(parts, Trim), NonBlank())
  }

  lemma CoercionIff(kind: Kind, v: Input, value: ArgValue)
    ensures Normalized(kind, v) == Some(value) <==> StandsFor(kind, v, value)
  {
    var text := InputText(v);
    var parts := SplitList(text, "");
    forall other ensures parts == other <==> SplitsInto(text, other) {
      SplitListIff(text, other);
    }
    forall n ensures ParseInt(text) == Some(n) <==> ReadsAs(text, n) {
      ParseIntIff(text, n);
    }
    assert text == TextOf(v);
    if v.InNumber? {
      IntegerReadBack(v.number);
    }
    hide IntText, SplitList, SplitsInto, ParseInt, ReadsAs, Filter, Trim;
  }

  /** The normalised record, argument by argument, in terms of the raw input. */
  lemma RecordMeaning(properties: seq<Property>, input: map<string, Input>, a: Arg)
    ensures a in NormalizedArgs(properties, input) <==>
              exists p :: p in properties && p.key == a.key && p.key in input && StandsFor(p.kind, input[p.key], a.value)
  {
    RecordIff(properties, input, a);
    hide NormalizedArgs, Normalized, StandsFor;
    forall p | p in properties && p.key in input
      ensures Normalized(p.kind, input[p.key]) == Some(a.value) <==> StandsFor(p.kind, input[p.key], a.value)
    {
      CoercionIff(p.kind, input[p.key], a.value);
    }
  }

  /** A required argument is missing exactly when its input stands for nothing or for an empty text. */
  lemma ProvidedIff(properties: seq<Property>, input: map<string, Input>, key: string)
    ensures Provides(NormalizedArgs(properties, input), key) <==>
              exists p, value :: p in properties && p.key == key && key in input
                                 && StandsFor(p.kind, input[key], value) && value != Words("")
  {
    hide NormalizedArgs, StandsFor;
    forall a: Arg ensures a in NormalizedArgs(properties, input) <==>
              exists p :: p in properties && p.key == a.key && p.key in input && StandsFor(p.kind, input[p.key], a.value)
    {
      RecordMeaning(properties, input, a);
    }
    if p, value :| p in properties && p.key == key && key in input && StandsFor(p.kind, input[key], value)
                   && value != Words("") {
      assert Arg(key, value) in NormalizedArgs(properties, input);
    }
  }

  // ----- items joined by commas -----

  lemma {:induction false} JoinIsInterleaved(items: seq<string>)
    requires items != []
    ensures Join(items, ",") == Interleaved(items, seq(|items| - 1, _ => ','))
  {
    if |items| > 1 {
      JoinIsInterleaved(items[1..]);
      assert seq(|items| - 1, _ => ',')[1..] == seq(|items| - 2, _ => ',');
    }
  }

  lemma {:induction false} TrimAll(items: seq<string>)
    requires forall item :: item in items ==> Trimmed(item)
    ensures Map(items, Trim) == items
  {
    forall i | 0 <= i < |items| ensures Trim(items[i]) == items[i] {
      assert items[i] in items;
      TrimOfTrimmed(items[i]);
    }
  }

  /** Trimmed, non-empty items without a separator, typed in as one comma-separated text, come back as those. */
  lemma ListTypedIn(items: seq<string>)
    requires items != []
    requires forall item :: item in items ==> item != "" && Trimmed(item) && Unseparated(item)
    ensures Normalized(ArrayKind, InText(Join(items, ","))) == Some(List(items))
  {
    var text := Join(items, ",");
    JoinIsInterleaved(items);
    var separators := seq(|items| - 1, _ => ',');
    assert items[0] in items && text != "";
    assert SplitsInto(text, items);
    TrimAll(items);
    FilterAll(items, NonBlank());
    hide Join, SplitsInto, Filter, Trim, Trimmed, Unseparated;
    CoercionIff(ArrayKind, InText(text), List(items));
  }

  // ----- from the raw input to the client -----

  ghost predicate DistinctKeys(properties: seq<Property>) {
    forall i, j :: 0 <= i < j < |properties| ==> properties[i].key != properties[j].key
  }

  function NameOf(command: Command, key: string): Option<string> {
    var slot := SlotOf(command, key);
    if slot.Positional? || |slot.flag| < 2 then None else Some(slot.flag[2..])
  }

  /** What the client should find under a flag: a set switch, a text, a decimal, of a list the last item. */
  ghost predicate Holds(flags: map<string, FlagValue>, name: string, value: ArgValue) {
    match value
    case Words(text) => if text == "" then name !in flags else name in flags && flags[name] == Str(text)
    case Switch(on) => if on then name in flags && flags[name] == Set else name !in flags
    case Number(n) => name in flags && flags[name].Str? && ReadsAs(flags[name].text, n)
    case List(items) =>
      var kept := Filter(items, NonBlank());
      if kept == [] then name !in flags else name in flags && flags[name] == Str(kept[|kept| - 1])
  }

  lemma {:induction false} RecordKeysDistinct(properties: seq<Property>, input: map<string, Input>)
    requires DistinctKeys(properties)
    ensures var args := NormalizedArgs(properties, input);
            forall i, j :: 0 <= i < j < |args| ==> args[i].key != args[j].key
  {
    if properties != [] {
      var front, p := properties[..|properties| - 1], properties[|properties| - 1];
      assert properties == front + [p];
      RecordKeysDistinct(front, input);
      NormalizedKeys(front, input);
      hide Normalized, NormalizedArgs;
      NormalizedNext(front, p, input);
      var before := NormalizedArgs(front, input);
      forall i | 0 <= i < |before| ensures before[i].key != p.key {
        assert before[i] in before;
      }
    }
  }

  /** What the last token of an argument stores under its flag. */
  function Stored(value: ArgValue): Option<FlagValue> {
    match value
    case Words(text) => if text == "" then None else Some(Str(text))
    case Switch(on) => if on then Some(Set) else None
    case Number(n) => Some(Str(IntText(n)))
    case List(items) =>
      var kept := Filter(items, NonBlank());
      if kept == [] then None else Some(Str(kept[|kept| - 1]))
  }

  lemma StoredHolds(flags: map<string, FlagValue>, name: string, value: ArgValue)
    requires name in flags <==> Stored(value).Some?
    requires name in flags ==> flags[name] == Stored(value).value
    ensures Holds(flags, name, value)
  {
    hide Filter, ReadsAs, IntText;
    if value.Number? {
      NumberReads(value.number);
    }
  }

  lemma LandedHolds(command: Command, args: seq<Arg>, i: nat)
    requires i < |args| && FlagName(command, args[i]).Some? && OwnFlag(command, args, i)
    ensures Holds(ExpectedFlags(command, args), FlagName(command, args[i]).value, args[i].value)
  {
    hide *;
    ExpectedValue(command, args, i);
    LandedText(command, args[i]);
    StoredHolds(ExpectedFlags(command, args), FlagName(command, args[i]).value, args[i].value);
  }

  lemma NumberReads(n: int)
    ensures ReadsAs(IntText(n), n)
  {
    hide *;
    IntegerReadBack(n);
    ParseIntIff(IntText(n), n);
  }

  lemma LandedText(command: Command, a: Arg)
    requires FlagName(command, a).Some?
    ensures Landed(command, a) == Stored(a.value)
  {
    hide Filter, IntText;
    if a.value.List? {
      LandedOfList(command, a);
    }
  }

  /** The flag of a property is not the flag of another one. */
  ghost predicate OwnName(command: Command, properties: seq<Property>, key: string) {
    forall q :: q in properties && q.key != key ==> NameOf(command, q.key) != NameOf(command, key)
  }

  lemma NameIsFlagName(command: Command, a: Arg)
    ensures FlagName(command, a) == NameOf(command, a.key)
  {
  }

  lemma RecordOwnFlag(command: Command, properties: seq<Property>, input: map<string, Input>, i: nat)
    requires DistinctKeys(properties) && i < |NormalizedArgs(properties, input)|
    requires OwnName(command, properties, NormalizedArgs(properties, input)[i].key)
    ensures OwnFlag(command, NormalizedArgs(properties, input), i)
  {
    var args := NormalizedArgs(properties, input);
    RecordKeysDistinct(properties, input);
    NormalizedKeys(properties, input);
    hide NormalizedArgs, DistinctKeys, FlagName, NameOf;
    forall j | 0 <= j < |args| && j != i ensures FlagName(command, args[j]) != FlagName(command, args[i]) {
      assert args[j] in args;
      NameIsFlagName(command, args[j]);
      NameIsFlagName(command, args[i]);
    }
  }

  /** From the raw input to the parsed line: what an input stands for is what the client finds under the
      flag of its property, and where it stands for nothing, or is not given, the flag is absent. */
  lemma RawArgumentArrives(command: Command, properties: seq<Property>, input: map<string, Input>, p: Property)
    requires DistinctKeys(properties) && p in properties
    requires NameOf(command, p.key).Some? && OwnName(command, properties, p.key)
    requires forall token :: token in PlainTokens(command, NormalizedArgs(properties, input)) ==> !IsFlag(token)
    requires forall a :: a in NormalizedArgs(properties, input) ==> WellFlagged(command, a)
    requires !SomeValueDashed(command, NormalizedArgs(properties, input))
    ensures var parsed, name := ParseFrom(CliArgv(command, NormalizedArgs(properties, input)), NOTHING),
                NameOf(command, p.key).value;
            && parsed.Ok?
            && (forall value :: p.key in input && StandsFor(p.kind, input[p.key], value) ==>
                  Holds(parsed.value.flags, name, value))
            && ((p.key in input ==> forall value :: !StandsFor(p.kind, input[p.key], value)) ==>
                  name !in parsed.value.flags)
  {
    var args, name := NormalizedArgs(properties, input), NameOf(command, p.key).value;
    ArgvRoundTrip(command, args);
    hide *;
    forall value | p.key in input && StandsFor(p.kind, input[p.key], value)
      ensures Holds(ExpectedFlags(command, args), name, value)
    {
      ValueArrives(command, properties, input, p, value);
    }
    if name in ExpectedFlags(command, args) {
      var value := ValueCameFrom(command, properties, input, p);
    }
  }

  lemma ValueArrives(command: Command, properties: seq<Property>, input: map<string, Input>, p: Property, value: ArgValue)
    requires DistinctKeys(properties) && p in properties
    requires NameOf(command, p.key).Some? && OwnName(command, properties, p.key)
    requires p.key in input && StandsFor(p.kind, input[p.key], value)
    ensures Holds(ExpectedFlags(command, NormalizedArgs(properties, input)), NameOf(command, p.key).value, value)
  {
    var args, a := NormalizedArgs(properties, input), Arg(p.key, value);
    hide *;
    RecordMeaning(properties, input, a);
    var i: nat :| i < |args| && args[i] == a;
    RecordOwnFlag(command, properties, input, i);
    NameIsFlagName(command, a);
    LandedHolds(command, args, i);
  }

  lemma ValueCameFrom(command: Command, properties: seq<Property>, input: map<string, Input>, p: Property)
    returns (value: ArgValue)
    requires DistinctKeys(properties) && p in properties
    requires NameOf(command, p.key).Some? && OwnName(command, properties, p.key)
    requires NameOf(command, p.key).value in ExpectedFlags(command, NormalizedArgs(properties, input))
    ensures p.key in input && StandsFor(p.kind, input[p.key], value)
  {
    var args := NormalizedArgs(properties, input);
    hide NormalizedArgs, StandsFor, NameOf, FlagName, Landed, ExpectedFlags;
    var j := ExpectedFrom(command, args, NameOf(command, p.key).value);
    var a := args[j];
    assert a in args;
    value := a.value;
    NameIsFlagName(command, a);
    RecordMeaning(properties, input, a);
    var q :| q in properties && q.key == a.key && q.key in input && StandsFor(q.kind, input[q.key], a.value);
    assert q.key == p.key;
    var k :| 0 <= k < |properties| && properties[k] == q;
    var m :| 0 <= m < |properties| && properties[m] == p;
    assert k == m;
  }

  /** A text that stands at a position arrives among the positional values. */
  lemma PositionalArrives(command: Command, properties: seq<Property>, input: map<string, Input>, key: string, text: string)
    requires Property(key, StringKind) in properties && SlotOf(command, key) == Positional
    requires forall token :: token in PlainTokens(command, NormalizedArgs(properties, input)) ==> !IsFlag(token)
    requires forall a :: a in NormalizedArgs(properties, input) ==> WellFlagged(command, a)
    requires !SomeValueDashed(command, NormalizedArgs(properties, input))
    requires key in input && input[key] == InText(text) && text != ""
    ensures var parsed := ParseFrom(CliArgv(command, NormalizedArgs(properties, input)), NOTHING);
            parsed.Ok? && text in parsed.value.positionals
  {
    var args, a := NormalizedArgs(properties, input), Arg(key, Words(text));
    ArgvRoundTrip(command, args);
    hide WellFlagged, SomeValueDashed, CliArgv, ParseFrom, FlatMap, NormalizedArgs;
    assert StandsFor(StringKind, input[key], Words(text));
    RecordMeaning(properties, input, a);
    assert PositionalsOf(command)(a) == [text];
    FlatMapIncludes(args, PositionalsOf(command), a, text);
  }

  /** A switch turned on is printed and parsed as a set flag, and one turned off leaves no trace. */
  lemma SwitchArrives(command: Command, properties: seq<Property>, input: map<string, Input>, key: string, on: bool)
    requires DistinctKeys(properties) && Property(key, BooleanKind) in properties
    requires NameOf(command, key).Some? && OwnName(command, properties, key)
    requires forall token :: token in PlainTokens(command, NormalizedArgs(properties, input)) ==> !IsFlag(token)
    requires forall a :: a in NormalizedArgs(properties, input) ==> WellFlagged(command, a)
    requires !SomeValueDashed(command, NormalizedArgs(properties, input))
    requires key in input && input[key] == InFlag(on)
    ensures var parsed, name := ParseFrom(CliArgv(command, NormalizedArgs(properties, input)), NOTHING),
                NameOf(command, key).value;
            && parsed.Ok?
            && (name in parsed.value.flags <==> on)
            && (on ==> parsed.value.flags[name] == Set)
  {
    RawArgumentArrives(command, properties, input, Property(key, BooleanKind));
    hide CliArgv, ParseFrom, PlainTokens, WellFlagged, SomeValueDashed, NameOf, NormalizedArgs, OwnName;
    assert StandsFor(BooleanKind, input[key], Switch(on));
  }
}
