/** Flag names made from camelCase argument keys. */
module FlagNames {
  import opened Text

  predicate LowerOrDigit(c: char) { IsLower(c) || IsDigit(c) }

  predicate Alphanumeric(s: string) {
    forall c :: c in s ==> LowerOrDigit(c) || IsUpper(c)
  }

  /** `replaceAll(/([a-z0-9])([A-Z])/gu, "$1-$2")` */
  function Dashed(key: string): string {
    if |key| < 2 then key
    else if LowerOrDigit(key[0]) && IsUpper(key[1]) then [key[0]] + "-" + Dashed(key[1..])
    else [key[0]] + Dashed(key[1..])
  }

  function ToFlagName(key: string): string {
    "--" + Lower(Dashed(key))
  }

  function UpperChar(c: char): char {
    if IsLower(c) then c - 'a' + 'A' else c
  }

  /** The inverse reading: a dash capitalises the character after it. */
  function Undashed(name: string): string {
    if name == "" then ""
    else if name[0] == '-' && |name| > 1 then [UpperChar(name[1])] + Undashed(name[2..])
    else [name[0]] + Undashed(name[1..])
  }

  function FromFlagName(flag: string): string
    requires |flag| >= 2
  {
    Undashed(flag[2..])
  }

  /** Every capital follows a small letter or digit: no leading capital, no two in a row. */
  predicate CamelCase(key: string) {
    forall i :: 0 <= i < |key| && IsUpper(key[i]) ==> i > 0 && !IsUpper(key[i - 1])
  }

  lemma LowerConcat(a: string, b: string)
    ensures Lower(a + b) == Lower(a) + Lower(b)
  {
  }

  lemma UndashedHead(c: char, rest: string)
    requires c != '-'
    ensures Undashed([c] + rest) == [c] + Undashed(rest)
  {
    assert ([c] + rest)[1..] == rest;
  }

  lemma UndashedDash(c: char, rest: string)
    ensures Undashed(['-', c] + rest) == [UpperChar(c)] + Undashed(rest)
  {
    assert (['-', c] + rest)[2..] == rest;
  }

  lemma DashedCapital(key: string)
    requires key != "" && IsUpper(key[0])
    ensures Dashed(key) == [key[0]] + Dashed(key[1..])
  {
  }

  lemma DashedPair(key: string)
    requires |key| >= 2 && LowerOrDigit(key[0]) && IsUpper(key[1])
    ensures Dashed(key) == [key[0], '-', key[1]] + Dashed(key[2..])
  {
    DashedCapital(key[1..]);
    assert key[1..][1..] == key[2..];
    assert Dashed(key) == [key[0]] + "-" + Dashed(key[1..]);
    hide Dashed;
    assert Dashed(key[1..]) == [key[1]] + Dashed(key[2..]);
  }

  lemma LowerPair(a: char, b: char)
    requires LowerOrDigit(a) && IsUpper(b)
    ensures Lower([a, '-', b]) == [a, '-', LowerChar(b)] && a != '-' && UpperChar(LowerChar(b)) == b
  {
  }

  lemma UndashedPair(a: char, b: char, rest: string)
    requires LowerOrDigit(a) && IsUpper(b)
    ensures Undashed(Lower([a, '-', b] + rest)) == [a, b] + Undashed(Lower(rest))
  {
    LowerPair(a, b);
    LowerConcat([a, '-', b], rest);
    hide *;
    var tail := ['-', LowerChar(b)] + Lower(rest);
    assert [a, '-', LowerChar(b)] + Lower(rest) == [a] + tail;
    UndashedHead(a, tail);
    UndashedDash(LowerChar(b), Lower(rest));
  }

  lemma CapitalPair(key: string)
    requires |key| >= 2 && LowerOrDigit(key[0]) && IsUpper(key[1])
    ensures Undashed(Lower(Dashed(key))) == [key[0], key[1]] + Undashed(Lower(Dashed(key[2..])))
  {
    hide Undashed, Lower, Dashed;
    DashedPair(key);
    UndashedPair(key[0], key[1], Dashed(key[2..]));
  }

  lemma DashedPlain(key: string)
    requires key != "" && !(|key| >= 2 && LowerOrDigit(key[0]) && IsUpper(key[1]))
    ensures Dashed(key) == [key[0]] + Dashed(key[1..])
  {
  }

  lemma LowerOne(c: char)
    requires LowerOrDigit(c) || IsUpper(c)
    ensures Lower([c]) == [LowerChar(c)] && LowerChar(c) != '-'
  {
  }

  lemma UndashedPlain(c: char, rest: string)
    requires LowerOrDigit(c) || IsUpper(c)
    ensures Undashed(Lower([c] + rest)) == [LowerChar(c)] + Undashed(Lower(rest))
  {
    LowerOne(c);
    LowerConcat([c], rest);
    hide *;
    UndashedHead(LowerChar(c), Lower(rest));
  }

  lemma PlainHead(key: string)
    requires key != "" && (LowerOrDigit(key[0]) || IsUpper(key[0]))
    requires !(|key| >= 2 && LowerOrDigit(key[0]) && IsUpper(key[1]))
    ensures Undashed(Lower(Dashed(key))) == [LowerChar(key[0])] + Undashed(Lower(Dashed(key[1..])))
  {
    hide Undashed, Lower, Dashed;
    DashedPlain(key);
    UndashedPlain(key[0], Dashed(key[1..]));
  }

  lemma CamelPair(key: string)
    requires |key| >= 2 && LowerOrDigit(key[0]) && IsUpper(key[1])
    ensures CamelCase(key) <==> CamelCase(key[2..])
  {
    var rest := key[2..];
    assert forall i :: 2 <= i < |key| ==> key[i] == rest[i - 2];
    if CamelCase(key) {
      forall i | 0 <= i < |rest| && IsUpper(rest[i]) ensures i > 0 && !IsUpper(rest[i - 1]) {
        assert IsUpper(key[i + 2]) && !IsUpper(key[i + 1]);
      }
    }
  }

  lemma CamelHead(key: string)
    requires key != "" && (LowerOrDigit(key[0]) || IsUpper(key[0]))
    requires !(|key| >= 2 && LowerOrDigit(key[0]) && IsUpper(key[1]))
    ensures CamelCase(key) <==> !IsUpper(key[0]) && CamelCase(key[1..])
  {
    var rest := key[1..];
    assert forall i :: 1 <= i < |key| ==> key[i] == rest[i - 1];
    if CamelCase(key) {
      forall i | 0 <= i < |rest| && IsUpper(rest[i]) ensures i > 0 && !IsUpper(rest[i - 1]) {
        assert IsUpper(key[i + 1]) && !IsUpper(key[i]);
      }
    }
  }

  lemma PrefixCancels(p: string, x: string, y: string)
    ensures p + x == p + y <==> x == y
  {
    if p + x == p + y {
      assert (p + x)[|p|..] == (p + y)[|p|..];
    }
  }

  lemma CapitalStays(key: string, rest: string)
    requires key != "" && (LowerOrDigit(key[0]) || IsUpper(key[0]))
    ensures [LowerChar(key[0])] + rest == key <==> !IsUpper(key[0]) && rest == key[1..]
  {
    assert key == [key[0]] + key[1..];
    if [LowerChar(key[0])] + rest == key {
      assert ([LowerChar(key[0])] + rest)[0] == key[0];
      assert ([LowerChar(key[0])] + rest)[1..] == rest;
    }
  }

  lemma {:induction false} UndashedInvertsIff(key: string)
    requires Alphanumeric(key)
    ensures Undashed(Lower(Dashed(key))) == key <==> CamelCase(key)
    decreases |key|
  {
    if key != "" {
      assert key[0] in key;
      hide CamelCase, Undashed, Dashed, Lower, LowerChar;
      if |key| >= 2 && LowerOrDigit(key[0]) && IsUpper(key[1]) {
        CapitalPair(key);
        CamelPair(key);
        UndashedInvertsIff(key[2..]);
        assert key == [key[0], key[1]] + key[2..];
        PrefixCancels([key[0], key[1]], Undashed(Lower(Dashed(key[2..]))), key[2..]);
      } else {
        PlainHead(key);
        CamelHead(key);
        UndashedInvertsIff(key[1..]);
        CapitalStays(key, Undashed(Lower(Dashed(key[1..]))));
      }
    }
  }

  /** The key is recovered from its flag exactly when no capital is lost. */
  lemma FlagNameInvertsIff(key: string)
    requires Alphanumeric(key)
    ensures FromFlagName(ToFlagName(key)) == key <==> CamelCase(key)
  {
    UndashedInvertsIff(key);
    assert ToFlagName(key)[2..] == Lower(Dashed(key));
  }

  /** Distinct keys never share a flag. */
  lemma FlagNamesNeverCollide(a: string, b: string)
    requires Alphanumeric(a) && Alphanumeric(b) && CamelCase(a) && CamelCase(b)
    requires ToFlagName(a) == ToFlagName(b)
    ensures a == b
  {
    FlagNameInvertsIff(a);
    FlagNameInvertsIff(b);
  }

  /** Where a capital is lost, keys do collide. */
  lemma CapitalsInARowCollide()
    ensures ToFlagName("runID") == ToFlagName("runId") && "runID" != "runId"
  {
    assert Dashed("runID") == "run-ID" by {
      assert "runID"[1..] == "unID" && "unID"[1..] == "nID" && "nID"[1..] == "ID" && "ID"[1..] == "D";
      assert Dashed("ID") == "ID" && Dashed("nID") == "n-ID" && Dashed("unID") == "un-ID";
    }
    assert Dashed("runId") == "run-Id" by {
      assert "runId"[1..] == "unId" && "unId"[1..] == "nId" && "nId"[1..] == "Id" && "Id"[1..] == "d";
      assert Dashed("Id") == "Id" && Dashed("nId") == "n-Id" && Dashed("unId") == "un-Id";
    }
    assert Lower("run-ID") == "run-id" == Lower("run-Id");
  }
}
