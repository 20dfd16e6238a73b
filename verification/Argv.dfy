/** The desktop prints a command line, the command-line client parses it: printer, parser and the
    round trip between them. */
module Argv {
  import opened Options
  import opened Sequences
  import opened Text
  import opened FlagNames

  datatype Result<+T> = Ok(value: T) | Err(message: string)

  // ----- normalised arguments -----

  datatype Kind = StringKind | IntegerKind | BooleanKind | ArrayKind

  datatype Property = Property(key: string, kind: Kind)

  datatype Input = InText(text: string) | InFlag(on: bool) | InItems(items: seq<string>) | InNumber(number: int)

  datatype ArgValue = Words(text: string) | Switch(on: bool) | List(items: seq<string>) | Number(number: int)

  datatype Arg = Arg(key: string, value: ArgValue)

  function IntText(n: int): string {
    if n < 0 then "-" + Decimal(-n) else Decimal(n)
  }

  /** `String(value)` */
  function InputText(v: Input): string {
    match v
    case InText(text) => text
    case InFlag(on) => if on then "true" else "false"
    case InItems(items) => Join(items, ",")
    case InNumber(n) => IntText(n)
  }

  function NonBlank(): string -> bool {
    (s: string) => s != ""
  }

  /** `split(/[,\n]/u)` */
  function SplitList(s: string, current: string): seq<string>
    decreases |s|
  {
    if s == "" then [current]
    else if s[0] == ',' || s[0] == '\n' then [current] + SplitList(s[1..], "")
    else SplitList(s[1..], current + [s[0]])
  }

  function DigitPrefix(s: string): (r: string)
    ensures forall c :: c in r ==> IsDigit(c)
  {
    if s == "" || !IsDigit(s[0]) then "" else [s[0]] + DigitPrefix(s[1..])
  }

  /** `Number.parseInt(text, 10)` */
  function ParseInt(text: string): Option<int> {
    var s := TrimStart(text);
    var signed := s != "" && (s[0] == '-' || s[0] == '+');
    var digits := DigitPrefix(if signed then s[1..] else s);
    var magnitude: int := ReadDecimal(digits);
    if digits == "" then None
    else if signed && s[0] == '-' then Some(-magnitude)
    else Some(magnitude)
  }

  function Normalized(kind: Kind, v: Input): Option<ArgValue> {
    if v == InText("") then None
    else
      match kind
      case ArrayKind =>
        Some(List(if v.InItems? then Filter(v.items, NonBlank())
                  else Filter(Map(SplitList(InputText(v), ""), Trim), NonBlank())))
      case IntegerKind =>
        var parsed := ParseInt(InputText(v));
        if parsed.Some? then Some(Number(parsed.value)) else None
      case BooleanKind => Some(Switch(v in {InFlag(true), InText("true"), InText("1"), InText("on")}))
      case StringKind => Some(Words(InputText(v)))
  }

  function NormalizedArgs(properties: seq<Property>, input: map<string, Input>): seq<Arg> {
    if properties == [] then []
    else
      var front, p := NormalizedArgs(properties[..|properties| - 1], input), properties[|properties| - 1];
      var value := if p.key in input then Normalized(p.kind, input[p.key]) else None;
      if value.Some? then front + [Arg(p.key, value.value)] else front
  }

  /** An empty text counts as missing. */
  predicate Provides(args: seq<Arg>, key: string) {
    exists a :: a in args && a.key == key && a.value != Words("")
  }

  method NormalizeArgs(properties: seq<Property>, required: seq<string>, input: map<string, Input>)
    returns (r: Result<seq<Arg>>)
    ensures r.Ok? ==> r.value == NormalizedArgs(properties, input)
    ensures r.Ok? <==> forall key :: key in required ==> Provides(NormalizedArgs(properties, input), key)
    ensures r.Err? ==> r.message in required && !Provides(NormalizedArgs(properties, input), r.message)
  {
    var output := [];
    for i := 0 to |properties|
      invariant output == NormalizedArgs(properties[..i], input)
    {
      var p := properties[i];
      assert properties[..i + 1][..i] == properties[..i];
      if p.key in input {
        var value := Normalized(p.kind, input[p.key]);
        if value.Some? {
          output := output + [Arg(p.key, value.value)];
        }
      }
    }
    assert properties[..|properties|] == properties;
    for i := 0 to |required|
      invariant forall j :: 0 <= j < i ==> Provides(output, required[j])
    {
      if !Provides(output, required[i]) {
        return Err(required[i]);
      }
    }
    return Ok(output);
  }

  // ----- normalising twice -----

  /** A normalised value handed in again. */
  function AsInput(v: ArgValue): Input {
    match v
    case Words(text) => InText(text)
    case Switch(on) => InFlag(on)
    case List(items) => InItems(items)
    case Number(n) => InNumber(n)
  }

  function AsInputs(args: seq<Arg>): map<string, Input> {
    if args == [] then map[]
    else
      var last := args[|args| - 1];
      AsInputs(args[..|args| - 1])[last.key := AsInput(last.value)]
  }

  lemma {:induction false} DigitPrefixOfDigits(s: string)
    requires forall c :: c in s ==> IsDigit(c)
    ensures DigitPrefix(s) == s
  {
    if s != "" {
      assert s[0] in s;
      DigitPrefixOfDigits(s[1..]);
    }
  }

  /** An integer printed and parsed again is itself. */
  lemma IntegerReadBack(n: int)
    ensures ParseInt(IntText(n)) == Some(n)
  {
    var magnitude: nat := if n < 0 then -n else n;
    DecimalRoundTrip(magnitude);
    var digits := Decimal(magnitude);
    assert IsDigit(digits[0]) by { assert digits[0] in digits; }
    DigitPrefixOfDigits(digits);
    hide Decimal, ParseInt;
    if n < 0 {
      ParseNegative(digits);
    } else {
      ParseUnsigned(digits);
    }
  }

  lemma NoLeadingSpace(s: string)
    requires s != "" && !IsSpace(s[0])
    ensures TrimStart(s) == s
  {
  }

  lemma ParseUnsigned(digits: string)
    requires digits != "" && IsDigit(digits[0]) && DigitPrefix(digits) == digits
    ensures ParseInt(digits) == Some(ReadDecimal(DigitPrefix(digits)))
  {
    NoLeadingSpace(digits);
    hide TrimStart, DigitPrefix, ReadDecimal;
  }

  lemma ParseNegative(digits: string)
    requires digits != "" && DigitPrefix(digits) == digits
    ensures ParseInt("-" + digits) == Some(-(ReadDecimal(DigitPrefix(digits)) as int))
  {
    NoLeadingSpace("-" + digits);
    hide TrimStart, DigitPrefix, ReadDecimal;
    assert ("-" + digits)[1..] == digits;
  }

  lemma NormalizedAgain(kind: Kind, v: Input)
    requires Normalized(kind, v).Some?
    ensures var value := Normalized(kind, v).value;
            Normalized(kind, AsInput(value)) == if value == Words("") then None else Some(value)
  {
    hide ParseInt, SplitList, IntText, Filter;
    var value := Normalized(kind, v).value;
    if kind == ArrayKind {
      FilterAll(value.items, NonBlank());
    } else if kind == IntegerKind {
      IntegerReadBack(value.number);
    }
  }

  lemma {:induction false} NormalizedKeys(properties: seq<Property>, input: map<string, Input>)
    ensures forall a :: a in NormalizedArgs(properties, input) ==> exists p :: p in properties && p.key == a.key
  {
    if properties != [] {
      var front, p := properties[..|properties| - 1], properties[|properties| - 1];
      assert properties == front + [p];
      NormalizedKeys(front, input);
    }
  }

  lemma {:induction false} InputKeys(args: seq<Arg>, key: string)
    ensures key in AsInputs(args) <==> exists a :: a in args && a.key == key
  {
    if args != [] {
      assert args == args[..|args| - 1] + [args[|args| - 1]];
      InputKeys(args[..|args| - 1], key);
    }
  }

  lemma {:induction false} NormalizedFrame(properties: seq<Property>, a: map<string, Input>, b: map<string, Input>)
    requires forall p :: p in properties ==> (p.key in a <==> p.key in b) && (p.key in a ==> a[p.key] == b[p.key])
    ensures NormalizedArgs(properties, a) == NormalizedArgs(properties, b)
  {
    if properties != [] {
      hide Normalized;
      var front, p := properties[..|properties| - 1], properties[|properties| - 1];
      assert properties == front + [p];
      NormalizedFrame(front, a, b);
    }
  }

  lemma NormalizedNext(properties: seq<Property>, p: Property, input: map<string, Input>)
    ensures NormalizedArgs(properties + [p], input)
            == NormalizedArgs(properties, input)
               + if p.key in input && Normalized(p.kind, input[p.key]).Some?
                 then [Arg(p.key, Normalized(p.kind, input[p.key]).value)] else []
  {
    assert (properties + [p])[..|properties|] == properties;
  }

  lemma AsInputsNext(args: seq<Arg>, a: Arg)
    ensures AsInputs(args + [a]) == AsInputs(args)[a.key := AsInput(a.value)]
  {
    assert (args + [a])[..|args|] == args;
  }

  function Given(): Arg -> bool {
    (a: Arg) => a.value != Words("")
  }

  /** A normalised record handed in again loses exactly its empty texts. */
  lemma {:induction false} NormalizedTwice(properties: seq<Property>, input: map<string, Input>)
    requires forall i, j :: 0 <= i < j < |properties| ==> properties[i].key != properties[j].key
    ensures var args := NormalizedArgs(properties, input);
            NormalizedArgs(properties, AsInputs(args)) == Filter(args, Given())
  {
    if properties != [] {
      var front, p := properties[..|properties| - 1], properties[|properties| - 1];
      assert properties == front + [p];
      NormalizedTwice(front, input);
      var before := NormalizedArgs(front, input);
      var args := NormalizedArgs(properties, input);
      NormalizedNext(front, p, input);
      NormalizedKeys(front, input);
      InputKeys(before, p.key);
      hide Normalized, NormalizedArgs, AsInputs, AsInput, Filter;
      assert p.key !in AsInputs(before);
      if p.key in input && Normalized(p.kind, input[p.key]).Some? {
        var value := Normalized(p.kind, input[p.key]).value;
        NormalizedAgain(p.kind, input[p.key]);
        AsInputsNext(before, Arg(p.key, value));
        FilterLast(before, Arg(p.key, value), Given());
      }
      NormalizedFrame(front, AsInputs(before), AsInputs(args));
      NormalizedNext(front, p, AsInputs(args));
    }
  }

  /** Normalising is idempotent exactly when no string argument was given as an empty list. */
  lemma NormalizingIsStableIff(properties: seq<Property>, input: map<string, Input>)
    requires forall i, j :: 0 <= i < j < |properties| ==> properties[i].key != properties[j].key
    ensures var args := NormalizedArgs(properties, input);
            NormalizedArgs(properties, AsInputs(args)) == args
            <==> forall p :: p in properties && p.kind == StringKind && p.key in input ==>
                   input[p.key] != InItems([]) && input[p.key] != InItems([""])
  {
    var args := NormalizedArgs(properties, input);
    NormalizedTwice(properties, input);
    forall a | a in args && a.value == Words("")
      ensures exists p :: p in properties && p.kind == StringKind && p.key in input
                          && (input[p.key] == InItems([]) || input[p.key] == InItems([""]))
    {
      RecordIff(properties, input, a);
      var p :| p in properties && p.key == a.key && p.key in input && Normalized(p.kind, input[p.key]) == Some(a.value);
      EmptyTextIff(p.kind, input[p.key]);
    }
    forall p | p in properties && p.kind == StringKind && p.key in input
               && (input[p.key] == InItems([]) || input[p.key] == InItems([""]))
      ensures Arg(p.key, Words("")) in args
    {
      EmptyTextIff(p.kind, input[p.key]);
      RecordIff(properties, input, Arg(p.key, Words("")));
    }
    hide Filter, NormalizedArgs;
    if forall a :: a in args ==> a.value != Words("") {
      FilterAll(args, Given());
    }
  }

  lemma EmptyTextIff(kind: Kind, v: Input)
    ensures Normalized(kind, v) == Some(Words("")) <==> kind == StringKind && (v == InItems([]) || v == InItems([""]))
  {
    if v.InItems? && |v.items| > 1 {
      assert Join(v.items, ",") != "" by {
        assert |Join(v.items, ",")| == |v.items[0]| + 1 + |Join(v.items[1..], ",")|;
      }
    }
    if v.InNumber? {
      assert IntText(v.number) != "";
    }
    hide Filter, SplitList, ParseInt, IntText;
  }

  /** The arguments of the record, one by one. */
  lemma {:induction false} RecordIff(properties: seq<Property>, input: map<string, Input>, a: Arg)
    ensures a in NormalizedArgs(properties, input) <==>
              exists p :: p in properties && p.key == a.key && p.key in input
                          && Normalized(p.kind, input[p.key]) == Some(a.value)
  {
    if properties != [] {
      hide Normalized;
      var front, p := properties[..|properties| - 1], properties[|properties| - 1];
      assert properties == front + [p];
      RecordIff(front, input, a);
      NormalizedNext(front, p, input);
    }
  }

  // ----- printer -----

  datatype Slot = Positional | Flag(flag: string)

  datatype Command = Command(words: seq<string>, argMap: map<string, Slot>)

  function SlotOf(command: Command, key: string): Slot {
    if key in command.argMap then command.argMap[key] else Flag(ToFlagName(key))
  }

  function ValueText(v: ArgValue): string {
    match v
    case Words(text) => text
    case Switch(on) => if on then "true" else "false"
    case List(items) => Join(items, ",")
    case Number(n) => IntText(n)
  }

  function PositionalTokens(command: Command, a: Arg): seq<string> {
    if SlotOf(command, a.key).Positional? && a.value != Words("") then [ValueText(a.value)] else []
  }

  function PairOf(flag: string): string -> seq<string> {
    (item: string) => [flag, item]
  }

  function PairTokens(flag: string, items: seq<string>): seq<string> {
    FlatMap(Filter(items, NonBlank()), PairOf(flag))
  }

  function FlagTokens(command: Command, a: Arg): seq<string> {
    var slot := SlotOf(command, a.key);
    if slot.Positional? || slot.flag == "" then []
    else
      match a.value
      case Words(text) => if text == "" then [] else [slot.flag, text]
      case Switch(on) => if on then [slot.flag] else []
      case List(items) => PairTokens(slot.flag, items)
      case Number(n) => [slot.flag, IntText(n)]
  }

  function PositionalsOf(command: Command): Arg -> seq<string> {
    (a: Arg) => PositionalTokens(command, a)
  }

  function FlagsOf(command: Command): Arg -> seq<string> {
    (a: Arg) => FlagTokens(command, a)
  }

  function CliArgv(command: Command, args: seq<Arg>): seq<string> {
    command.words + FlatMap(args, PositionalsOf(command)) + FlatMap(args, FlagsOf(command))
  }

  method PushPairs(argv: seq<string>, flag: string, items: seq<string>) returns (r: seq<string>)
    ensures r == argv + PairTokens(flag, items)
  {
    var kept := Filter(items, NonBlank());
    r := argv;
    for j := 0 to |kept|
      invariant r == argv + FlatMap(kept[..j], PairOf(flag))
    {
      FlatMapNext(kept, j, PairOf(flag));
      r := r + [flag, kept[j]];
    }
    assert kept[..|kept|] == kept;
  }

  /** One turn of the printer's second loop. */
  method PushFlag(command: Command, argv: seq<string>, a: Arg) returns (r: seq<string>)
    ensures r == argv + FlagTokens(command, a)
  {
    var slot := SlotOf(command, a.key);
    if slot.Positional? || slot.flag == "" || a.value == Words("") || a.value == Switch(false) {
      return argv;
    }
    if a.value.List? {
      r := PushPairs(argv, slot.flag, a.value.items);
      return;
    }
    r := argv + [slot.flag];
    if a.value != Switch(true) {
      r := r + [ValueText(a.value)];
    }
  }

  /** One turn of the printer's first loop. */
  method PushPositional(command: Command, argv: seq<string>, a: Arg) returns (r: seq<string>)
    ensures r == argv + PositionalTokens(command, a)
  {
    r := argv;
    if SlotOf(command, a.key).Positional? && a.value != Words("") {
      r := r + [ValueText(a.value)];
    }
  }

  method BuildCliArgv(command: Command, args: seq<Arg>) returns (argv: seq<string>)
    ensures argv == CliArgv(command, args)
  {
    hide PositionalTokens, FlagTokens;
    argv := command.words;
    for i := 0 to |args|
      invariant argv == command.words + FlatMap(args[..i], PositionalsOf(command))
    {
      FlatMapNext(args, i, PositionalsOf(command));
      argv := PushPositional(command, argv, args[i]);
    }
    assert args[..|args|] == args;
    ghost var head := argv;
    for i := 0 to |args|
      invariant argv == head + FlatMap(args[..i], FlagsOf(command))
    {
      FlatMapNext(args, i, FlagsOf(command));
      argv := PushFlag(command, argv, args[i]);
    }
  }

  // ----- parser -----

  datatype FlagValue = Set | Str(text: string)

  datatype Parsed = Parsed(positionals: seq<string>, flags: map<string, FlagValue>)

  predicate IsFlag(token: string) {
    "--" <= token
  }

  predicate IsBooleanFlag(name: string) {
    name == "json" || name == "no-start"
  }

  function ParseFrom(args: seq<string>, acc: Parsed): Result<Parsed>
    decreases |args|
  {
    if args == [] then Ok(acc)
    else
      var token := args[0];
      if token == "" then ParseFrom(args[1..], acc)
      else if !IsFlag(token) then ParseFrom(args[1..], acc.(positionals := acc.positionals + [token]))
      else
        var name := token[2..];
        if IsBooleanFlag(name) then ParseFrom(args[1..], acc.(flags := acc.flags[name := Set]))
        else if |args| < 2 || IsFlag(args[1]) then Err(token)
        else ParseFrom(args[2..], acc.(flags := acc.flags[name := Str(args[1])]))
  }

  const NOTHING := Parsed([], map[])

  method ParseArgs(args: seq<string>) returns (r: Result<Parsed>)
    ensures r == ParseFrom(args, NOTHING)
  {
    var flags: map<string, FlagValue> := map[];
    var positionals: seq<string> := [];
    var index := 0;
    assert args[0..] == args;
    while index < |args|
      invariant 0 <= index <= |args|
      invariant ParseFrom(args, NOTHING) == ParseFrom(args[index..], Parsed(positionals, flags))
    {
      var token := args[index];
      assert args[index..][1..] == args[index + 1..];
      if token == "" {
        index := index + 1;
        continue;
      }
      if !IsFlag(token) {
        positionals := positionals + [token];
        index := index + 1;
        continue;
      }
      var name := token[2..];
      if IsBooleanFlag(name) {
        flags := flags[name := Set];
        index := index + 1;
        continue;
      }
      if index + 1 == |args| || IsFlag(args[index + 1]) {
        return Err(token);
      }
      assert args[index..][2..] == args[index + 2..];
      flags := flags[name := Str(args[index + 1])];
      index := index + 2;
    }
    return Ok(Parsed(positionals, flags));
  }

  /** A flag on its own is accepted exactly when it is one of the two that take no value. */
  lemma LoneFlagIff(name: string)
    ensures ParseFrom(["--" + name], NOTHING).Ok? <==> name == "json" || name == "no-start"
    ensures name == "json" || name == "no-start" ==>
              ParseFrom(["--" + name], NOTHING) == Ok(Parsed([], map[name := Set]))
  {
    assert ("--" + name)[2..] == name && ["--" + name][1..] == [];
  }

  // ----- the printed flags as items -----

  datatype Item = Pair(name: string, value: string) | On(name: string)

  function TokensOf(item: Item): seq<string> {
    match item
    case Pair(name, value) => ["--" + name, value]
    case On(name) => ["--" + name]
  }

  function ItemTokens(items: seq<Item>): seq<string> {
    if items == [] then [] else TokensOf(items[0]) + ItemTokens(items[1..])
  }

  function ToPair(name: string): string -> Item {
    (item: string) => Pair(name, item)
  }

  function PairsOf(name: string, items: seq<string>): seq<Item> {
    Map(Filter(items, NonBlank()), ToPair(name))
  }

  /** What an argument puts on the command line. */
  function ItemsOf(command: Command, a: Arg): seq<Item> {
    var slot := SlotOf(command, a.key);
    if slot.Positional? || |slot.flag| < 2 then []
    else
      var name := slot.flag[2..];
      match a.value
      case Words(text) => if text == "" then [] else [Pair(name, text)]
      case Switch(on) => if on then [On(name)] else []
      case List(items) => PairsOf(name, items)
      case Number(n) => [Pair(name, IntText(n))]
  }

  function AllItems(command: Command, args: seq<Arg>): seq<Item> {
    if args == [] then [] else ItemsOf(command, args[0]) + AllItems(command, args[1..])
  }

  /** An argument that puts a flag on the command line puts one with two dashes, and it is boolean
      exactly when that flag takes no value. */
  ghost predicate WellFlagged(command: Command, a: Arg) {
    var slot := SlotOf(command, a.key);
    slot.Flag? && FlagTokens(command, a) != [] ==>
      IsFlag(slot.flag) && (a.value.Switch? <==> IsBooleanFlag(slot.flag[2..]))
  }

  ghost predicate WellTyped(item: Item) {
    item.On? <==> IsBooleanFlag(item.name)
  }

  lemma ItemTokensCons(item: Item, rest: seq<Item>)
    ensures ItemTokens([item] + rest) == TokensOf(item) + ItemTokens(rest)
  {
    assert ([item] + rest)[1..] == rest;
  }

  lemma {:induction false} ItemTokensConcat(a: seq<Item>, b: seq<Item>)
    ensures ItemTokens(a + b) == ItemTokens(a) + ItemTokens(b)
  {
    if a == [] {
      assert a + b == b;
    } else {
      hide ItemTokens, TokensOf;
      var head, tail := a[0], a[1..];
      assert a == [head] + tail && a + b == [head] + (tail + b);
      ItemTokensCons(head, tail + b);
      ItemTokensCons(head, tail);
      ItemTokensConcat(tail, b);
    }
  }

  lemma {:induction false} PairTokensAreItems(name: string, items: seq<string>)
    ensures FlatMap(items, PairOf("--" + name)) == ItemTokens(Map(items, ToPair(name)))
  {
    if items != [] {
      var front, last := items[..|items| - 1], items[|items| - 1];
      PairTokensAreItems(name, front);
      assert Map(items, ToPair(name)) == Map(front, ToPair(name)) + [Pair(name, last)];
      ItemTokensConcat(Map(front, ToPair(name)), [Pair(name, last)]);
      SingleItem(Pair(name, last));
    }
  }

  lemma SingleItem(item: Item)
    ensures ItemTokens([item]) == TokensOf(item)
  {
    assert [item][1..] == [];
  }

  lemma NothingPrinted(command: Command, a: Arg)
    requires FlagTokens(command, a) == []
    ensures ItemsOf(command, a) == []
  {
    if SlotOf(command, a.key).Flag? && a.value.List? {
      var items := Filter(a.value.items, NonBlank());
      assert items != [] ==> PairTokens(SlotOf(command, a.key).flag, a.value.items) != [];
    }
  }

  lemma FlagTokensAreItems(command: Command, a: Arg)
    requires WellFlagged(command, a)
    ensures FlagTokens(command, a) == ItemTokens(ItemsOf(command, a))
    ensures forall item :: item in ItemsOf(command, a) ==> WellTyped(item)
  {
    var slot := SlotOf(command, a.key);
    if FlagTokens(command, a) == [] {
      NothingPrinted(command, a);
    } else {
      var name := slot.flag[2..];
      assert slot.flag == "--" + name;
      match a.value
      case Words(text) => SingleItem(Pair(name, text));
      case Switch(_) => SingleItem(On(name));
      case List(items) => PairTokensAreItems(name, Filter(items, NonBlank()));
      case Number(n) => SingleItem(Pair(name, IntText(n)));
    }
  }

  lemma {:induction false} AllTokensAreItems(command: Command, args: seq<Arg>)
    requires forall a :: a in args ==> WellFlagged(command, a)
    ensures FlatMap(args, FlagsOf(command)) == ItemTokens(AllItems(command, args))
    ensures forall item :: item in AllItems(command, args) ==> WellTyped(item)
  {
    var f := FlagsOf(command);
    if args != [] {
      var head, tail := args[0], args[1..];
      assert args == [head] + tail;
      AllTokensAreItems(command, tail);
      FlagTokensAreItems(command, head);
      ItemTokensConcat(ItemsOf(command, head), AllItems(command, tail));
      FlatMapConcat([head], tail, f);
      assert [head][..0] == [];
      assert FlatMap([head], f) == FlagTokens(command, head);
    }
  }

  // ----- parsing what was printed -----

  predicate Dashed2(item: Item) {
    item.Pair? && IsFlag(item.value)
  }

  function WithItem(flags: map<string, FlagValue>, item: Item): map<string, FlagValue> {
    flags[item.name := if item.On? then Set else Str(item.value)]
  }

  function WithItems(flags: map<string, FlagValue>, items: seq<Item>): map<string, FlagValue>
    decreases |items|
  {
    if items == [] then flags else WithItems(WithItem(flags, items[0]), items[1..])
  }

  ghost predicate AnyDashed(items: seq<Item>) {
    exists item :: item in items && Dashed2(item)
  }

  lemma AnyDashedCons(items: seq<Item>)
    requires items != []
    ensures AnyDashed(items) <==> Dashed2(items[0]) || AnyDashed(items[1..])
  {
    assert items == [items[0]] + items[1..];
    assert items[0] in items;
  }

  /** Parsing printed items fails exactly when some value begins with two dashes, and otherwise stores
      the items in order. */
  lemma {:induction false} ParseItems(items: seq<Item>, acc: Parsed)
    requires forall item :: item in items ==> WellTyped(item)
    ensures ParseFrom(ItemTokens(items), acc).Err? <==> AnyDashed(items)
    ensures !AnyDashed(items) ==>
              ParseFrom(ItemTokens(items), acc) == Ok(acc.(flags := WithItems(acc.flags, items)))
    decreases |items|
  {
    if items != [] {
      var item, rest := items[0], items[1..];
      assert items == [item] + rest;
      assert item in items;
      AnyDashedCons(items);
      hide AnyDashed;
      var tokens := ItemTokens(items);
      assert tokens == TokensOf(item) + ItemTokens(rest);
      assert IsFlag(tokens[0]) && tokens[0][2..] == item.name;
      var next := acc.(flags := WithItem(acc.flags, item));
      match item
      case On(name) =>
        assert tokens[1..] == ItemTokens(rest);
        ParseItems(rest, next);
      case Pair(name, value) =>
        assert tokens[1] == value;
        if !IsFlag(value) {
          assert tokens[2..] == ItemTokens(rest);
          ParseItems(rest, next);
        }
    }
  }

  lemma FilterHead(token: string, tail: seq<string>)
    ensures Filter([token] + tail, NonBlank()) == (if token == "" then [] else [token]) + Filter(tail, NonBlank())
  {
    FilterConcat([token], tail, NonBlank());
    FilterLast([], token, NonBlank());
    assert [] + [token] == [token];
  }

  lemma ParsePlainToken(args: seq<string>, acc: Parsed)
    requires args != [] && !IsFlag(args[0])
    ensures ParseFrom(args, acc)
            == ParseFrom(args[1..], if args[0] == "" then acc else acc.(positionals := acc.positionals + [args[0]]))
  {
  }

  function WithPlain(acc: Parsed, plain: seq<string>): Parsed {
    acc.(positionals := acc.positionals + Filter(plain, NonBlank()))
  }

  lemma WithPlainCons(acc: Parsed, token: string, tail: seq<string>)
    ensures WithPlain(acc, [token] + tail)
            == WithPlain(if token == "" then acc else acc.(positionals := acc.positionals + [token]), tail)
  {
    hide Filter;
    FilterHead(token, tail);
    assert (acc.positionals + [token]) + Filter(tail, NonBlank()) == acc.positionals + ([token] + Filter(tail, NonBlank()));
    assert [] + Filter(tail, NonBlank()) == Filter(tail, NonBlank());
  }

  lemma ParsePlainCons(token: string, tail: seq<string>, rest: seq<string>, acc: Parsed)
    requires !IsFlag(token)
    ensures ParseFrom(([token] + tail) + rest, acc)
            == ParseFrom(tail + rest, if token == "" then acc else acc.(positionals := acc.positionals + [token]))
  {
    hide ParseFrom;
    var args := ([token] + tail) + rest;
    assert args[0] == token && args[1..] == tail + rest;
    ParsePlainToken(args, acc);
  }

  /** Tokens that are not flags become positionals, in order; empty ones are skipped. */
  lemma {:induction false} ParsePlain(plain: seq<string>, rest: seq<string>, acc: Parsed)
    requires forall token :: token in plain ==> !IsFlag(token)
    ensures ParseFrom(plain + rest, acc) == ParseFrom(rest, WithPlain(acc, plain))
    decreases |plain|
  {
    hide ParseFrom, IsFlag;
    if plain == [] {
      assert plain + rest == rest;
      assert acc.positionals + [] == acc.positionals;
    } else {
      hide WithPlain;
      var token, tail := plain[0], plain[1..];
      assert token in plain && plain == [token] + tail;
      ParsePlainCons(token, tail, rest, acc);
      ParsePlain(tail, rest, if token == "" then acc else acc.(positionals := acc.positionals + [token]));
      WithPlainCons(acc, token, tail);
    }
  }

  // ----- no value lands under another flag -----

  function FlagName(command: Command, a: Arg): Option<string> {
    var slot := SlotOf(command, a.key);
    if slot.Positional? || |slot.flag| < 2 then None else Some(slot.flag[2..])
  }

  /** What the parser should store for an argument: of a list, the last item. */
  function Landed(command: Command, a: Arg): Option<FlagValue> {
    var items := ItemsOf(command, a);
    if items == [] then None
    else
      var last := items[|items| - 1];
      Some(if last.On? then Set else Str(last.value))
  }

  ghost predicate DistinctFlags(command: Command, args: seq<Arg>) {
    forall i, j :: 0 <= i < j < |args| && FlagName(command, args[i]).Some? ==>
      FlagName(command, args[i]) != FlagName(command, args[j])
  }

  /** The flags an argument list should give; of two arguments on one flag the later one counts. */
  function ExpectedFlags(command: Command, args: seq<Arg>): map<string, FlagValue> {
    if args == [] then map[]
    else
      var front, a := ExpectedFlags(command, args[..|args| - 1]), args[|args| - 1];
      if FlagName(command, a).Some? && Landed(command, a).Some?
      then front[FlagName(command, a).value := Landed(command, a).value] else front
  }

  lemma {:induction false} WithItemsConcat(flags: map<string, FlagValue>, a: seq<Item>, b: seq<Item>)
    ensures WithItems(flags, a + b) == WithItems(WithItems(flags, a), b)
    decreases |a|
  {
    if a == [] {
      assert a + b == b;
    } else {
      assert (a + b)[1..] == a[1..] + b;
      WithItemsConcat(WithItem(flags, a[0]), a[1..], b);
    }
  }

  lemma {:induction false} SameNameItems(flags: map<string, FlagValue>, items: seq<Item>, name: string)
    requires items != [] && forall item :: item in items ==> item.name == name
    ensures var last := items[|items| - 1];
            WithItems(flags, items) == flags[name := if last.On? then Set else Str(last.value)]
    decreases |items|
  {
    assert items[0] in items;
    if |items| > 1 {
      assert forall item :: item in items[1..] ==> item in items;
      SameNameItems(WithItem(flags, items[0]), items[1..], name);
    } else {
      assert items[1..] == [];
    }
  }

  lemma ItemNames(command: Command, a: Arg)
    ensures forall item :: item in ItemsOf(command, a) ==> FlagName(command, a) == Some(item.name)
    ensures FlagName(command, a) == None ==> ItemsOf(command, a) == []
  {
  }

  lemma {:induction false} AllItemsLast(command: Command, args: seq<Arg>, a: Arg)
    ensures AllItems(command, args + [a]) == AllItems(command, args) + ItemsOf(command, a)
  {
    hide ItemsOf;
    if args == [] {
      assert [a][1..] == [];
    } else {
      assert (args + [a])[1..] == args[1..] + [a];
      AllItemsLast(command, args[1..], a);
    }
  }

  lemma NoItems(flags: map<string, FlagValue>)
    ensures WithItems(flags, []) == flags
  {
  }

  lemma {:induction false} StoredFlags(command: Command, args: seq<Arg>)
    ensures WithItems(map[], AllItems(command, args)) == ExpectedFlags(command, args)
  {
    if args != [] {
      var front, a := args[..|args| - 1], args[|args| - 1];
      ItemNames(command, a);
      hide ItemsOf, WithItem, FlagName, AllItems, WithItems, ExpectedFlags;
      StoredFlags(command, front);
      assert args == front + [a];
      ExpectedNext(command, front, a);
      AllItemsLast(command, front, a);
      var items := ItemsOf(command, a);
      WithItemsConcat(map[], AllItems(command, front), items);
      NoItems(ExpectedFlags(command, front));
      if items != [] {
        assert items[0] in items;
        SameNameItems(ExpectedFlags(command, front), items, FlagName(command, a).value);
      }
    }
  }

  predicate Lands(command: Command, a: Arg, name: string) {
    FlagName(command, a) == Some(name) && Landed(command, a).Some?
  }

  lemma ExpectedNext(command: Command, args: seq<Arg>, a: Arg)
    ensures ExpectedFlags(command, args + [a])
            == if FlagName(command, a).Some? && Landed(command, a).Some?
               then ExpectedFlags(command, args)[FlagName(command, a).value := Landed(command, a).value]
               else ExpectedFlags(command, args)
  {
    assert (args + [a])[..|args|] == args;
  }

  /** A flag holds what the last argument on it put there. */
  lemma {:induction false} ExpectedHas(command: Command, args: seq<Arg>, name: string, i: nat)
    requires i < |args| && Lands(command, args[i], name)
    requires forall j :: i < j < |args| ==> !Lands(command, args[j], name)
    ensures name in ExpectedFlags(command, args)
    ensures ExpectedFlags(command, args)[name] == Landed(command, args[i]).value
  {
    hide FlagName, Landed, ExpectedFlags;
    var front, a := args[..|args| - 1], args[|args| - 1];
    ExpectedNext(command, front, a);
    assert args == front + [a];
    if i < |front| {
      assert front[i] == args[i] && forall j :: 0 <= j < |front| ==> front[j] == args[j];
      ExpectedHas(command, front, name, i);
      assert !Lands(command, args[|args| - 1], name);
    }
  }

  /** Every flag comes from some argument. */
  lemma {:induction false} ExpectedFrom(command: Command, args: seq<Arg>, name: string) returns (i: nat)
    requires name in ExpectedFlags(command, args)
    ensures i < |args| && Lands(command, args[i], name)
  {
    hide FlagName, Landed;
    var front, a := args[..|args| - 1], args[|args| - 1];
    if Lands(command, a, name) {
      i := |args| - 1;
    } else {
      i := ExpectedFrom(command, front, name);
    }
  }

  /** Arguments on one flag put the same value there. */
  ghost predicate NoClash(command: Command, args: seq<Arg>) {
    forall i, j, name :: 0 <= i < j < |args| && Lands(command, args[i], name) && Lands(command, args[j], name) ==>
      Landed(command, args[i]) == Landed(command, args[j])
  }

  lemma DistinctFlagsDoNotClash(command: Command, args: seq<Arg>)
    requires DistinctFlags(command, args)
    ensures NoClash(command, args)
  {
    hide FlagName, Landed;
  }

  lemma {:induction false} LastLander(command: Command, args: seq<Arg>, name: string, i: nat) returns (j: nat)
    requires i < |args| && Lands(command, args[i], name)
    ensures i <= j < |args| && Lands(command, args[j], name)
    ensures forall k :: j < k < |args| ==> !Lands(command, args[k], name)
    decreases |args| - i
  {
    hide Lands;
    if k :| i < k < |args| && Lands(command, args[k], name) {
      j := LastLander(command, args, name, k);
    } else {
      j := i;
    }
  }

  /** Every argument's own value is under its own flag, and there are no other flags. */
  ghost predicate OwnValues(command: Command, args: seq<Arg>, flags: map<string, FlagValue>) {
    && (forall i, name :: 0 <= i < |args| && Lands(command, args[i], name) ==>
          name in flags && flags[name] == Landed(command, args[i]).value)
    && (forall name :: name in flags ==> exists i :: 0 <= i < |args| && Lands(command, args[i], name))
  }

  lemma NoClashKeepsOwn(command: Command, args: seq<Arg>, i: nat, name: string)
    requires NoClash(command, args) && i < |args| && Lands(command, args[i], name)
    ensures name in ExpectedFlags(command, args)
    ensures ExpectedFlags(command, args)[name] == Landed(command, args[i]).value
  {
    hide FlagName, Landed, ExpectedFlags;
    var j := LastLander(command, args, name, i);
    ExpectedHas(command, args, name, j);
  }

  lemma OwnValuesDoNotClash(command: Command, args: seq<Arg>, flags: map<string, FlagValue>)
    requires OwnValues(command, args, flags)
    ensures NoClash(command, args)
  {
    hide FlagName, Landed;
    forall i, j, name | 0 <= i < j < |args| && Lands(command, args[i], name) && Lands(command, args[j], name)
      ensures Landed(command, args[i]) == Landed(command, args[j])
    {
      assert Landed(command, args[i]).value == flags[name] == Landed(command, args[j]).value;
    }
  }

  /** With the later argument counting, every argument keeps its own value exactly when none clash. */
  lemma OwnValuesIff(command: Command, args: seq<Arg>)
    ensures OwnValues(command, args, ExpectedFlags(command, args)) <==> NoClash(command, args)
  {
    hide FlagName, Landed, ExpectedFlags, NoClash;
    var flags := ExpectedFlags(command, args);
    if OwnValues(command, args, flags) {
      OwnValuesDoNotClash(command, args, flags);
    }
    if NoClash(command, args) {
      forall i: int, name | 0 <= i < |args| && Lands(command, args[i], name)
        ensures name in flags && flags[name] == Landed(command, args[i]).value
      {
        NoClashKeepsOwn(command, args, i, name);
      }
      forall name | name in flags ensures exists i :: 0 <= i < |args| && Lands(command, args[i], name) {
        var i := ExpectedFrom(command, args, name);
      }
    }
  }

  ghost predicate SomeValueDashed(command: Command, args: seq<Arg>) {
    AnyDashed(AllItems(command, args))
  }

  function PlainTokens(command: Command, args: seq<Arg>): seq<string> {
    command.words + FlatMap(args, PositionalsOf(command))
  }

  /** The round trip, fail-closed. Parsing the printed command line fails exactly when some flag value
      begins with two dashes; otherwise the words and positional values come back in order and every flag
      holds the value of the last argument on it. */
  lemma ArgvRoundTrip(command: Command, args: seq<Arg>)
    requires forall token :: token in PlainTokens(command, args) ==> !IsFlag(token)
    requires forall a :: a in args ==> WellFlagged(command, a)
    ensures ParseFrom(CliArgv(command, args), NOTHING).Err? <==> SomeValueDashed(command, args)
    ensures !SomeValueDashed(command, args) ==>
              ParseFrom(CliArgv(command, args), NOTHING)
              == Ok(Parsed(Filter(PlainTokens(command, args), NonBlank()), ExpectedFlags(command, args)))
  {
    var plain, items := PlainTokens(command, args), AllItems(command, args);
    AllTokensAreItems(command, args);
    assert CliArgv(command, args) == plain + ItemTokens(items);
    ParsePlain(plain, ItemTokens(items), NOTHING);
    assert [] + Filter(plain, NonBlank()) == Filter(plain, NonBlank());
    ParseItems(items, Parsed(Filter(plain, NonBlank()), map[]));
    StoredFlags(command, args);
  }

  /** The parser stores "set" under the flags that take no value and text under all others, and never
      takes a token with two dashes for a positional. */
  ghost predicate TypedResult(parsed: Parsed) {
    && (forall token :: token in parsed.positionals ==> !IsFlag(token))
    && (forall name :: name in parsed.flags ==> (parsed.flags[name].Set? <==> IsBooleanFlag(name)))
  }

  lemma {:induction false} ParsedIsTyped(args: seq<string>, acc: Parsed)
    requires TypedResult(acc) && ParseFrom(args, acc).Ok?
    ensures TypedResult(ParseFrom(args, acc).value)
    decreases |args|
  {
    if args != [] {
      hide IsFlag, IsBooleanFlag;
      var token := args[0];
      if token == "" {
        ParsedIsTyped(args[1..], acc);
      } else if !IsFlag(token) {
        ParsedIsTyped(args[1..], acc.(positionals := acc.positionals + [token]));
      } else {
        FlagLength(token);
        var name := token[2..];
        if IsBooleanFlag(name) {
          ParsedIsTyped(args[1..], acc.(flags := acc.flags[name := Set]));
        } else {
          ParsedIsTyped(args[2..], acc.(flags := acc.flags[name := Str(args[1])]));
        }
      }
    }
  }

  lemma FlagLength(token: string)
    requires IsFlag(token)
    ensures |token| >= 2
  {
  }

  predicate DashedFlag(command: Command, a: Arg) {
    var slot := SlotOf(command, a.key);
    slot.Flag? && slot.flag != "" ==> IsFlag(slot.flag)
  }

  /** When an argument's own value comes back, it was printed under a fitting flag. */
  lemma ReturnedIsWellFlagged(command: Command, args: seq<Arg>, i: nat, parsed: Parsed)
    requires i < |args| && DashedFlag(command, args[i])
    requires TypedResult(parsed) && OwnValues(command, args, parsed.flags)
    ensures WellFlagged(command, args[i])
  {
    var a := args[i];
    if SlotOf(command, a.key).Flag? && FlagTokens(command, a) != [] {
      if a.value.List? {
        assert Filter(a.value.items, NonBlank()) != [];
      }
      assert Lands(command, args[i], FlagName(command, a).value);
    }
  }

  /** What was printed comes back: words and positional values in order, every argument under its flag. */
  ghost predicate ComesBack(command: Command, args: seq<Arg>, r: Result<Parsed>) {
    && r.Ok?
    && r.value.positionals == Filter(PlainTokens(command, args), NonBlank())
    && OwnValues(command, args, r.value.flags)
  }

  lemma ComesBackIsUndashed(command: Command, args: seq<Arg>, parsed: Parsed)
    requires TypedResult(parsed) && ComesBack(command, args, Ok(parsed))
    requires forall a :: a in args ==> DashedFlag(command, a)
    ensures forall token :: token in PlainTokens(command, args) ==> !IsFlag(token)
    ensures forall a :: a in args ==> WellFlagged(command, a)
  {
    hide PlainTokens, WellFlagged, OwnValues, DashedFlag;
    forall token | token in PlainTokens(command, args) ensures !IsFlag(token) {
      assert token != "" ==> token in Filter(PlainTokens(command, args), NonBlank());
    }
    forall a | a in args ensures WellFlagged(command, a) {
      var i :| 0 <= i < |args| && args[i] == a;
      ReturnedIsWellFlagged(command, args, i, parsed);
    }
  }

  /** Exactly when the round trip holds: no word or positional value begins with two dashes, boolean
      arguments are printed exactly under flags that take no value, no flag value begins with two dashes,
      and no two arguments put different values on one flag. */
  lemma ArgvRoundTripIff(command: Command, args: seq<Arg>)
    requires forall a :: a in args ==> DashedFlag(command, a)
    ensures ComesBack(command, args, ParseFrom(CliArgv(command, args), NOTHING))
            <==>
              && (forall token :: token in PlainTokens(command, args) ==> !IsFlag(token))
              && (forall a :: a in args ==> WellFlagged(command, a))
              && !SomeValueDashed(command, args)
              && NoClash(command, args)
  {
    hide PlainTokens, ExpectedFlags, CliArgv, SomeValueDashed, WellFlagged, NoClash, ParseFrom, DashedFlag, OwnValues;
    OwnValuesIff(command, args);
    var r := ParseFrom(CliArgv(command, args), NOTHING);
    if ComesBack(command, args, r) {
      ParsedIsTyped(CliArgv(command, args), NOTHING);
      ComesBackIsUndashed(command, args, r.value);
      ArgvRoundTrip(command, args);
    } else if && (forall token :: token in PlainTokens(command, args) ==> !IsFlag(token))
              && (forall a :: a in args ==> WellFlagged(command, a)) {
      ArgvRoundTrip(command, args);
    }
  }

  // ----- what the round trip means for one argument -----

  /** No other argument is printed under the flag of this one. */
  ghost predicate OwnFlag(command: Command, args: seq<Arg>, i: nat)
    requires i < |args|
  {
    forall j :: 0 <= j < |args| && j != i ==> FlagName(command, args[j]) != FlagName(command, args[i])
  }

  lemma ExpectedValue(command: Command, args: seq<Arg>, i: nat)
    requires i < |args| && FlagName(command, args[i]).Some? && OwnFlag(command, args, i)
    ensures var name, flags := FlagName(command, args[i]).value, ExpectedFlags(command, args);
            && (name in flags <==> Landed(command, args[i]).Some?)
            && (name in flags ==> flags[name] == Landed(command, args[i]).value)
  {
    hide FlagName, Landed, ExpectedFlags;
    var name := FlagName(command, args[i]).value;
    if Landed(command, args[i]).Some? {
      ExpectedHas(command, args, name, i);
    } else if name in ExpectedFlags(command, args) {
      var j := ExpectedFrom(command, args, name);
    }
  }

  /** What the parser hands back of a list argument: nothing, or the one value under its flag. */
  function HandedBack(parsed: Parsed, name: string): seq<FlagValue> {
    if name in parsed.flags then [parsed.flags[name]] else []
  }

  lemma LandedOfList(command: Command, a: Arg)
    requires FlagName(command, a).Some? && a.value.List?
    ensures var items := Filter(a.value.items, NonBlank());
            Landed(command, a) == if items == [] then None else Some(Str(items[|items| - 1]))
  {
    var items := Filter(a.value.items, NonBlank());
    assert ItemsOf(command, a) == Map(items, ToPair(FlagName(command, a).value));
  }

  lemma SingleOrNone(items: seq<string>, back: seq<FlagValue>)
    requires back == if items == [] then [] else [Str(items[|items| - 1])]
    ensures back == Map(items, (item: string) => Str(item)) <==> |items| <= 1
  {
  }

  /** A list argument comes back from the parser exactly when it has at most one non-empty item: a repeated
      flag keeps its last value only. */
  lemma ListSurvivesIff(command: Command, args: seq<Arg>, i: nat)
    requires forall token :: token in PlainTokens(command, args) ==> !IsFlag(token)
    requires forall a :: a in args ==> WellFlagged(command, a)
    requires !SomeValueDashed(command, args)
    requires i < |args| && args[i].value.List? && FlagName(command, args[i]).Some? && OwnFlag(command, args, i)
    ensures var parsed, items := ParseFrom(CliArgv(command, args), NOTHING), Filter(args[i].value.items, NonBlank());
            && parsed.Ok?
            && (HandedBack(parsed.value, FlagName(command, args[i]).value) == Map(items, (item: string) => Str(item))
                <==> |items| <= 1)
  {
    hide PlainTokens, WellFlagged, SomeValueDashed, ExpectedFlags, CliArgv, ParseFrom, FlagName, Landed, OwnFlag;
    var items := Filter(args[i].value.items, NonBlank());
    ArgvRoundTrip(command, args);
    ExpectedValue(command, args, i);
    LandedOfList(command, args[i]);
    var parsed := ParseFrom(CliArgv(command, args), NOTHING).value;
    SingleOrNone(items, HandedBack(parsed, FlagName(command, args[i]).value));
  }

  /** A positional value that begins with two dashes is taken for a flag and is lost as a positional. */
  lemma PositionalLeaks()
    ensures var command := Command(["show"], map["sessionId" := Positional]);
            ParseFrom(CliArgv(command, [Arg("sessionId", Words("--json"))]), NOTHING)
            == Ok(Parsed(["show"], map["json" := Set]))
  {
    var command, a := Command(["show"], map["sessionId" := Positional]), Arg("sessionId", Words("--json"));
    assert [a][..0] == [];
    assert FlatMap([a], PositionalsOf(command)) == ["--json"];
    assert FlatMap([a], FlagsOf(command)) == [];
    assert CliArgv(command, [a]) == ["show", "--json"];
    assert "show"[0] == 's' && "--json"[2..] == "json";
    ParsePlainToken(["show", "--json"], NOTHING);
    assert ["show", "--json"][1..] == ["--json"] && ["--json"][1..] == [];
    assert [] + ["show"] == ["show"];
  }

  // ----- reading a flag -----

  function ReadStringFlag(parsed: Parsed, name: string): Option<string> {
    if name in parsed.flags && parsed.flags[name].Str? && Trim(parsed.flags[name].text) != ""
    then Some(Trim(parsed.flags[name].text)) else None
  }

  function RequireFlagOrPositional(parsed: Parsed, name: string, index: nat): Result<string> {
    var flag := ReadStringFlag(parsed, name);
    var value := if flag.Some? then flag
                 else if index < |parsed.positionals| then Some(parsed.positionals[index]) else None;
    if value.None? || Trim(value.value) == "" then Err(name) else Ok(Trim(value.value))
  }

  lemma TrimTwice(s: string)
    ensures Trim(Trim(s)) == Trim(s)
  {
    TrimIsTrimmed(s);
    TrimOfTrimmed(Trim(s));
  }

  /** From the desktop's argument to the client's read: a text argument is read back trimmed. A blank one
      counts as missing, and the client falls back to the positional, which again must not be blank. */
  lemma RequiredArgumentReadBack(command: Command, args: seq<Arg>, i: nat, index: nat)
    requires forall token :: token in PlainTokens(command, args) ==> !IsFlag(token)
    requires forall a :: a in args ==> WellFlagged(command, a)
    requires !SomeValueDashed(command, args)
    requires i < |args| && args[i].value.Words? && FlagName(command, args[i]).Some? && OwnFlag(command, args, i)
    ensures var parsed, name := ParseFrom(CliArgv(command, args), NOTHING), FlagName(command, args[i]).value;
            && parsed.Ok?
            && var text, plain := Trim(args[i].value.text), Filter(PlainTokens(command, args), NonBlank());
               RequireFlagOrPositional(parsed.value, name, index)
               == if text != "" then Ok(text)
                  else if index < |plain| && Trim(plain[index]) != "" then Ok(Trim(plain[index]))
                  else Err(name)
  {
    hide *;
    ArgvRoundTrip(command, args);
    ExpectedValue(command, args, i);
    LandedOfWords(command, args[i]);
    ReadText(
      ParseFrom(CliArgv(command, args), NOTHING).value, FlagName(command, args[i]).value, args[i].value.text, index);
  }

  lemma ReadText(parsed: Parsed, name: string, text: string, index: nat)
    requires name in parsed.flags <==> text != ""
    requires name in parsed.flags ==> parsed.flags[name] == Str(text)
    ensures RequireFlagOrPositional(parsed, name, index)
            == var plain := parsed.positionals;
               if Trim(text) != "" then Ok(Trim(text))
               else if index < |plain| && Trim(plain[index]) != "" then Ok(Trim(plain[index]))
               else Err(name)
  {
    TrimTwice(text);
    assert Trim("") == "";
    hide Trim;
  }

  lemma LandedOfWords(command: Command, a: Arg)
    requires FlagName(command, a).Some? && a.value.Words?
    ensures Landed(command, a) == if a.value.text == "" then None else Some(Str(a.value.text))
    ensures Trim("") == ""
  {
  }

  // ----- the whole record -----

  /** All the values an argument puts on the command line. */
  function PrintedValues(command: Command, a: Arg): seq<FlagValue> {
    Map(ItemsOf(command, a), (item: Item) => if item.On? then Set else Str(item.value))
  }

  /** What was printed comes back whole: as `ComesBack`, with every item of every list. */
  ghost predicate ComesBackWhole(command: Command, args: seq<Arg>, r: Result<Parsed>) {
    && r.Ok?
    && r.value.positionals == Filter(PlainTokens(command, args), NonBlank())
    && (forall i, name :: 0 <= i < |args| && Lands(command, args[i], name) ==>
          HandedBack(r.value, name) == PrintedValues(command, args[i]))
    && (forall name :: name in r.value.flags ==> exists i :: 0 <= i < |args| && Lands(command, args[i], name))
  }

  predicate ShortList(command: Command, a: Arg) {
    |ItemsOf(command, a)| <= 1
  }

  lemma LandedIsLastPrinted(command: Command, a: Arg)
    ensures var printed := PrintedValues(command, a);
            Landed(command, a) == if printed == [] then None else Some(printed[|printed| - 1])
  {
    hide ItemsOf;
  }

  lemma HandedBackIff(command: Command, a: Arg, parsed: Parsed, name: string)
    requires Landed(command, a).Some?
    ensures HandedBack(parsed, name) == PrintedValues(command, a)
            <==> name in parsed.flags && parsed.flags[name] == Landed(command, a).value && ShortList(command, a)
  {
    LandedIsLastPrinted(command, a);
    hide ItemsOf, Landed;
  }

  /** The arguments whose list has more than one item to print are exactly those that are cut. */
  lemma ShortListIff(command: Command, a: Arg)
    ensures ShortList(command, a) <==>
              (a.value.List? && FlagName(command, a).Some? ==> |Filter(a.value.items, NonBlank())| <= 1)
  {
  }

  lemma WholeIffOwn(command: Command, args: seq<Arg>, r: Result<Parsed>)
    ensures ComesBackWhole(command, args, r)
            <==> ComesBack(command, args, r) && forall a :: a in args ==> ShortList(command, a)
  {
    hide PlainTokens, FlagName, Landed, PrintedValues, ShortList;
    if r.Ok? {
      forall i, name | 0 <= i < |args| && Lands(command, args[i], name)
        ensures HandedBack(r.value, name) == PrintedValues(command, args[i])
                <==> name in r.value.flags && r.value.flags[name] == Landed(command, args[i]).value
                     && ShortList(command, args[i])
      {
        HandedBackIff(command, args[i], r.value, name);
      }
      forall a | a in args && !ShortList(command, a) ensures !ComesBackWhole(command, args, r) {
        LongListLands(command, a);
        var i :| 0 <= i < |args| && args[i] == a;
        var name := FlagName(command, a).value;
        assert Lands(command, args[i], name);
        HandedBackIff(command, a, r.value, name);
        assert HandedBack(r.value, name) != PrintedValues(command, args[i]);
      }
    }
  }

  lemma LongListLands(command: Command, a: Arg)
    requires !ShortList(command, a)
    ensures FlagName(command, a).Some? && Landed(command, a).Some?
  {
    ItemNames(command, a);
    hide ItemsOf, FlagName;
  }

  /** Exactly when the whole record comes back: under the conditions of the round trip, and when no list has
      more than one non-empty item. */
  lemma ArgvWholeRoundTripIff(command: Command, args: seq<Arg>)
    requires forall a :: a in args ==> DashedFlag(command, a)
    ensures ComesBackWhole(command, args, ParseFrom(CliArgv(command, args), NOTHING))
            <==>
              && (forall token :: token in PlainTokens(command, args) ==> !IsFlag(token))
              && (forall a :: a in args ==> WellFlagged(command, a))
              && !SomeValueDashed(command, args)
              && NoClash(command, args)
              && (forall a :: a in args && a.value.List? && FlagName(command, a).Some? ==>
                    |Filter(a.value.items, NonBlank())| <= 1)
  {
    hide *;
    ArgvRoundTripIff(command, args);
    WholeIffOwn(command, args, ParseFrom(CliArgv(command, args), NOTHING));
    forall a | a in args
      ensures ShortList(command, a)
              <==> (a.value.List? && FlagName(command, a).Some? ==> |Filter(a.value.items, NonBlank())| <= 1)
    {
      ShortListIff(command, a);
    }
  }

  // ----- commands without an argument map -----

  /** When flags are made from keys, distinct keys are enough for distinct flags, and so for the round trip. */
  lemma DerivedFlagsAreDistinct(command: Command, args: seq<Arg>)
    requires command.argMap == map[]
    requires forall i, j :: 0 <= i < j < |args| ==> args[i].key != args[j].key
    requires forall a :: a in args ==> Alphanumeric(a.key) && CamelCase(a.key)
    ensures DistinctFlags(command, args) && NoClash(command, args)
  {
    forall i, j | 0 <= i < j < |args| ensures FlagName(command, args[i]) != FlagName(command, args[j]) {
      var a, b := args[i].key, args[j].key;
      if FlagName(command, args[i]) == FlagName(command, args[j]) {
        assert ToFlagName(a) == "--" + ToFlagName(a)[2..] == "--" + ToFlagName(b)[2..] == ToFlagName(b);
        FlagNamesNeverCollide(a, b);
      }
    }
    DistinctFlagsDoNotClash(command, args);
  }
}
