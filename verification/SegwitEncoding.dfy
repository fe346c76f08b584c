/**
 * Which strings are addresses: exactly those an encoder spells from a witness version and program
 * (packages/blockchain/test/bitcoin-address.test.ts, against the decoder in src/address/bitcoin.ts).
 */
module SegwitEncoding {
  import opened Basics
  import opened Text
  import BitRegrouping
  import opened Checksum
  import opened Segwit

  // ---------------------------------------------------------------- what an encoder writes

  function Spell(ws: seq<nat>): (s: string)
    requires AreWords(ws)
    ensures |s| == |ws| && forall k :: 0 <= k < |ws| ==> s[k] == CHARSET[ws[k]]
  {
    seq(|ws|, k requires 0 <= k < |ws| => CHARSET[ws[k]])
  }

  /** A witness version the five bits hold, with a program of a length its version allows. */
  predicate WitnessProgram(version: nat, program: seq<nat>) {
    version < 32 && BitRegrouping.InRange(program, 8) && 2 <= |program| <= 40 && (version == 0 ==> |program| in {20, 32})
  }

  /** The string is prefix, separator, version, program and six check words that make the checksum come out right. */
  ghost predicate Encodes(text: string, network: NetworkKind, version: nat, program: seq<nat>, check: seq<nat>) {
    && version < 32 && |check| == 6 && AreWords(check)
    && BitRegrouping.Regroup(program, 8, 5, true).Some? && AreWords(BitRegrouping.Regroup(program, 8, 5, true).value)
    && var words := [version] + BitRegrouping.Regroup(program, 8, 5, true).value + check;
       && text == (if network == Mainnet then "bc" else "tb") + "1" + Spell(words)
       && Fold(1, PrefixSymbols(network) + ToSymbols(words)) == if version == 0 then 1 else 0x2bc830a3
  }

  /** The network's prefix as the checksum sees it: high bits, a zero, low bits. */
  function PrefixSymbols(network: NetworkKind): seq<bv32> {
    if network == Mainnet then [3, 3, 0, 2, 3] else [3, 3, 0, 20, 2]
  }

  lemma PrefixExpands(network: NetworkKind)
    ensures HrpExpand(HrpOf(network)) == PrefixSymbols(network)
  {
    PrefixParts('b');
    PrefixParts('c');
    PrefixParts('t');
    hide HighPart, LowPart;
  }

  // ---------------------------------------------------------------- the six check words

  lemma StepAppends(d: bv32, j: nat, v: bv32)
    requires j < 6 && Within(d, j) && Within(v, 1)
    ensures Step(d, v) == Plus(Shifted(d), v) && Within(Step(d, v), j + 1)
  {
    SymbolAppended(d, j, v);
    AppendZeroTop(d, j);
    SelectedLow(0);
    hide Selected, Shifted, Top, Within;
    PlusZero(Plus(Shifted(d), v));
  }

  function Last(t: bv32): bv32 { t & 31 }

  function Rest(t: bv32): bv32 { t >> 5 }

  lemma Peels(t: bv32, j: nat)
    requires 0 < j <= 6 && Within(t, j)
    ensures Within(Rest(t), j - 1) && Within(Last(t), 1) && Plus(Shifted(Rest(t)), Last(t)) == t
  {
    WithinGrows(t, j);
    Rejoins(t);
    RestShrinks(t, j);
    hide Within;
  }

  lemma Rejoins(t: bv32)
    requires Within(t, 6)
    ensures Within(Last(t), 1) && Plus(Shifted(Rest(t)), Last(t)) == t
  {
  }

  lemma RestShrinks(t: bv32, j: nat)
    requires 0 < j <= 6 && Within(t, j)
    ensures Within(Rest(t), j - 1)
  {
    if j == 1 { } else if j == 2 { } else if j == 3 { } else if j == 4 { } else if j == 5 { } else { }
  }

  /** Any number of up to 30 bits is the checksum, from the zero state, of its own five-bit digits. */
  lemma {:induction false} DigitsFold(t: bv32, j: nat) returns (vs: seq<bv32>)
    requires j <= 6 && Within(t, j)
    ensures |vs| == j && Symbols(vs) && Fold(0, vs) == t
    decreases j
  {
    hide Step, Fold, Rest, Last, Plus, Shifted;
    if j == 0 {
      vs := [];
      FoldNone(0);
    } else {
      hide Within;
      Peels(t, j);
      var init := DigitsFold(Rest(t), j - 1);
      StepAppends(Rest(t), j - 1, Last(t));
      vs := init + [Last(t)];
      FoldConcat(0, init, [Last(t)]);
      FoldOne(Rest(t), Last(t));
    }
  }

  lemma FoldNone(c: bv32)
    ensures Fold(c, []) == c
  {
  }

  lemma FoldOne(c: bv32, v: bv32)
    ensures Fold(c, [v]) == Step(c, v)
  {
    hide Step;
    assert [v][1..] == [];
    FoldNone(Step(c, v));
  }

  /** Every five-bit value is a word. */
  lemma WordFor(v: bv32) returns (n: nat)
    requires Within(v, 1)
    ensures n < 32 && Symbol(n) == v
  {
    hide Symbol;
    if v < 8 {
      n := WordFrom0(v);
    } else if v < 16 {
      n := WordFrom8(v);
    } else if v < 24 {
      n := WordFrom16(v);
    } else {
      n := WordFrom24(v);
    }
  }

  lemma WordFrom0(v: bv32) returns (n: nat)
    requires v < 8
    ensures n < 32 && Symbol(n) == v
  {
    if v == 0 { n := 0; } else if v == 1 { n := 1; } else if v == 2 { n := 2; } else if v == 3 { n := 3; } else if v == 4 { n := 4; } else if v == 5 { n := 5; } else if v == 6 { n := 6; } else { n := 7; }
  }

  lemma WordFrom8(v: bv32) returns (n: nat)
    requires 8 <= v && v < 16
    ensures n < 32 && Symbol(n) == v
  {
    if v == 8 { n := 8; } else if v == 9 { n := 9; } else if v == 10 { n := 10; } else if v == 11 { n := 11; } else if v == 12 { n := 12; } else if v == 13 { n := 13; } else if v == 14 { n := 14; } else { n := 15; }
  }

  lemma WordFrom16(v: bv32) returns (n: nat)
    requires 16 <= v && v < 24
    ensures n < 32 && Symbol(n) == v
  {
    if v == 16 { n := 16; } else if v == 17 { n := 17; } else if v == 18 { n := 18; } else if v == 19 { n := 19; } else if v == 20 { n := 20; } else if v == 21 { n := 21; } else if v == 22 { n := 22; } else { n := 23; }
  }

  lemma WordFrom24(v: bv32) returns (n: nat)
    requires 24 <= v && v < 32
    ensures n < 32 && Symbol(n) == v
  {
    if v == 24 { n := 24; } else if v == 25 { n := 25; } else if v == 26 { n := 26; } else if v == 27 { n := 27; } else if v == 28 { n := 28; } else if v == 29 { n := 29; } else if v == 30 { n := 30; } else { n := 31; }
  }

  /** For any words there are six more that bring the checksum to a given 30-bit value. */
  lemma CheckExists(hrp: string, data: seq<nat>, target: bv32) returns (check: seq<nat>)
    requires AreWords(data) && Within(target, 6) && Symbols(HrpExpand(hrp))
    ensures |check| == 6 && AreWords(check) && AreWords(data + check) && ChecksumOf(hrp, data + check) == target
  {
    hide Plus, Step, Fold, Within, Symbol, HrpExpand, Symbols;
    var vs := HrpExpand(hrp) + ToSymbols(data);
    var plain := Fold(1, vs + [0, 0, 0, 0, 0, 0]);
    SymbolsOf(hrp, data);
    PlainWithin(vs, [0, 0, 0, 0, 0, 0]);
    PlusWithin(plain, target);
    check := WordsFor(Plus(plain, target));
    AddsUp(vs, ToSymbols(check), target);
    assert ToSymbols(data + check) == ToSymbols(data) + ToSymbols(check);
    assert HrpExpand(hrp) + ToSymbols(data + check) == vs + ToSymbols(check);
  }

  lemma WordsFor(t: bv32) returns (ws: seq<nat>)
    requires Within(t, 6)
    ensures |ws| == 6 && AreWords(ws) && Fold(0, ToSymbols(ws)) == t
  {
    hide Fold, Within, Symbols;
    var vs := DigitsFold(t, 6);
    ws := WordsOf(vs);
  }

  lemma {:induction false} WordsOf(vs: seq<bv32>) returns (ws: seq<nat>)
    requires Symbols(vs)
    ensures |ws| == |vs| && AreWords(ws) && ToSymbols(ws) == vs
  {
    hide Symbol, Within;
    ws := [];
    if vs != [] {
      var init := WordsOf(vs[..|vs| - 1]);
      var last := WordFor(vs[|vs| - 1]);
      ws := init + [last];
      assert ToSymbols(ws) == ToSymbols(init) + [vs[|vs| - 1]];
    }
  }

  lemma AddsUp(vs: seq<bv32>, ds: seq<bv32>, target: bv32)
    requires |ds| == 6 && Fold(0, ds) == Plus(Fold(1, vs + [0, 0, 0, 0, 0, 0]), target)
    ensures Fold(1, vs + ds) == target
  {
    hide Plus, Step, Fold;
    var zeros: seq<bv32> := [0, 0, 0, 0, 0, 0];
    var blank: seq<bv32> := seq(|vs|, _ => 0);
    var plain := Fold(1, vs + zeros);
    FoldLinear(1, 0, vs + zeros, blank + ds);
    forall v: bv32 ensures Plus(v, 0) == v && Plus(0, v) == v { PlusZero(v); }
    assert Sum(vs + zeros, blank + ds) == vs + ds;
    FoldConcat(0, blank, ds);
    ZeroWithin();
    WithinGrows(0, 0);
    FoldZeros(0, blank);
    PlusAssoc(plain, plain, target);
    PlusZero(plain);
  }

  lemma SymbolsOf(hrp: string, data: seq<nat>)
    requires AreWords(data) && Symbols(HrpExpand(hrp))
    ensures Symbols(HrpExpand(hrp) + ToSymbols(data))
  {
    hide Symbol, Within, HrpExpand;
    forall k | 0 <= k < |data| ensures Within(ToSymbols(data)[k], 1) { SymbolSmall(data[k]); }
  }

  lemma PlusWithin(a: bv32, b: bv32)
    requires Within(a, 6) && Within(b, 6)
    ensures Within(Plus(a, b), 6)
  {
  }

  lemma PlainWithin(vs: seq<bv32>, zeros: seq<bv32>)
    requires Symbols(vs) && zeros == [0, 0, 0, 0, 0, 0]
    ensures Within(Fold(1, vs + zeros), 6)
  {
    assert Symbols(vs + zeros);
    FoldWithin(1, vs + zeros);
  }

  lemma {:induction false} FoldWithin(c: bv32, vs: seq<bv32>)
    requires Within(c, 6) && Symbols(vs)
    ensures Within(Fold(c, vs), 6)
    decreases |vs|
  {
    hide Within, Step;
    if vs != [] {
      StepWithin(c, vs[0]);
      FoldWithin(Step(c, vs[0]), vs[1..]);
    }
  }

  lemma StepWithin(c: bv32, v: bv32)
    requires Within(c, 6) && Within(v, 1)
    ensures Within(Step(c, v), 6)
  {
    HalvesOf(c);
    SelectedLow(Top(c));
    hide Selected, Top, Shifted;
    ThreeWithin(Shifted(c), v, Selected(Top(c), 5));
  }

  lemma ThreeWithin(a: bv32, v: bv32, g: bv32)
    requires a < 0x40000000 && Within(v, 1) && g < 0x40000000
    ensures Within(Plus(Plus(a, v), g), 6)
  {
  }

  // ---------------------------------------------------------------- the alphabet

  function PlaceOf(c: char): nat {
    if c == 'q' then 0 else if c == 'p' then 1 else if c == 'z' then 2 else if c == 'r' then 3 else if c == 'y' then 4 else if c == '9' then 5 else if c == 'x' then 6 else if c == '8' then 7 else
    if c == 'g' then 8 else if c == 'f' then 9 else if c == '2' then 10 else if c == 't' then 11 else if c == 'v' then 12 else if c == 'd' then 13 else if c == 'w' then 14 else if c == '0' then 15 else
    if c == 's' then 16 else if c == '3' then 17 else if c == 'j' then 18 else if c == 'n' then 19 else if c == '5' then 20 else if c == '4' then 21 else if c == 'k' then 22 else if c == 'h' then 23 else
    if c == 'c' then 24 else if c == 'e' then 25 else if c == '6' then 26 else if c == 'm' then 27 else if c == 'u' then 28 else if c == 'a' then 29 else if c == '7' then 30 else 31
  }

  lemma CharFrom0(k: nat)
    requires 0 <= k < 8
    ensures PlaceOf(CHARSET[k]) == k && CHARSET[k] != '1' && LowerChar(CHARSET[k]) == CHARSET[k]
  {
    if k == 0 { } else if k == 1 { } else if k == 2 { } else if k == 3 { } else if k == 4 { } else if k == 5 { } else if k == 6 { } else { }
  }

  lemma CharFrom8(k: nat)
    requires 8 <= k < 16
    ensures PlaceOf(CHARSET[k]) == k && CHARSET[k] != '1' && LowerChar(CHARSET[k]) == CHARSET[k]
  {
    if k == 8 { } else if k == 9 { } else if k == 10 { } else if k == 11 { } else if k == 12 { } else if k == 13 { } else if k == 14 { } else { }
  }

  lemma CharFrom16(k: nat)
    requires 16 <= k < 24
    ensures PlaceOf(CHARSET[k]) == k && CHARSET[k] != '1' && LowerChar(CHARSET[k]) == CHARSET[k]
  {
    if k == 16 { } else if k == 17 { } else if k == 18 { } else if k == 19 { } else if k == 20 { } else if k == 21 { } else if k == 22 { } else { }
  }

  lemma CharFrom24(k: nat)
    requires 24 <= k < 32
    ensures PlaceOf(CHARSET[k]) == k && CHARSET[k] != '1' && LowerChar(CHARSET[k]) == CHARSET[k]
  {
    if k == 24 { } else if k == 25 { } else if k == 26 { } else if k == 27 { } else if k == 28 { } else if k == 29 { } else if k == 30 { } else { }
  }

  /** The alphabet is lower-case, without a separator, and no character stands twice. */
  lemma AlphabetChar(k: nat)
    requires k < 32
    ensures PlaceOf(CHARSET[k]) == k && CHARSET[k] != '1' && LowerChar(CHARSET[k]) == CHARSET[k]
  {
    hide PlaceOf;
    if k < 8 { CharFrom0(k); } else if k < 16 { CharFrom8(k); } else if k < 24 { CharFrom16(k); } else { CharFrom24(k); }
  }

  lemma WordOfLetter(n: nat)
    requires n < 32
    ensures WordOf(CHARSET[n]) == n
  {
    hide PlaceOf;
    AlphabetChar(n);
    var k := IndexFrom(CHARSET, CHARSET[n], 0);
    if k != -1 { AlphabetChar(k); }
  }

  /** Spelled words read back as themselves. */
  lemma {:induction false} WordsOfSpell(ws: seq<nat>)
    requires AreWords(ws)
    ensures Words(Spell(ws)) == Some(ws)
  {
    hide WordOf;
    if ws != [] {
      var n := |ws| - 1;
      WordsOfSpell(ws[..n]);
      assert Spell(ws)[..n] == Spell(ws[..n]);
      WordOfLetter(ws[n]);
      assert ws == ws[..n] + [ws[n]];
    }
  }

  lemma SpellOfWords(data: string)
    requires Words(data).Some?
    ensures AreWords(Words(data).value) && Spell(Words(data).value) == data
  {
    hide WordOf, Words;
    forall k | 0 <= k < |data| ensures CHARSET[Words(data).value[k]] == data[k] { WordOfChar(data[k]); }
  }

  // ---------------------------------------------------------------- from program to address

  /** Prefix, separator and letters: lower-case, and split where they were joined. */
  lemma Splits(network: NetworkKind, ws: seq<nat>)
    requires AreWords(ws)
    ensures var text := HrpOf(network) + "1" + Spell(ws);
            && Lower(text) == text && Separator(text) == 2 && text[..2] == HrpOf(network) && text[3..] == Spell(ws) && |text| == |ws| + 3
  {
    hide LastIndex;
    var text := HrpOf(network) + "1" + Spell(ws);
    forall i | 3 <= i < |text| ensures text[i] != '1' && LowerChar(text[i]) == text[i] {
      assert text[i] == CHARSET[ws[i - 3]];
      AlphabetChar(ws[i - 3]);
    }
    assert text[2] == '1';
    assert Lower(text) == text;
    assert LastIndex(text, '1', |text|) == 2;
  }

  lemma ImageLength(program: seq<nat>)
    requires BitRegrouping.InRange(program, 8) && 2 <= |program| <= 40
    ensures BitRegrouping.Regroup(program, 8, 5, true).Some?
    ensures 4 <= |BitRegrouping.Regroup(program, 8, 5, true).value| <= 64 && AreWords(BitRegrouping.Regroup(program, 8, 5, true).value)
  {
    BitRegrouping.Encoded(program);
    hide BitRegrouping.Regroup, BitRegrouping.Value, BitRegrouping.Shift;
    WordsInRange(BitRegrouping.Regroup(program, 8, 5, true).value);
  }

  lemma WordsInRange(ws: seq<nat>)
    ensures BitRegrouping.InRange(ws, 5) <==> AreWords(ws)
  {
    assert BitRegrouping.Pow2(5) == 32;
  }

  lemma HrpSymbols(network: NetworkKind)
    ensures Symbols(HrpExpand(HrpOf(network)))
  {
    PrefixExpands(network);
  }

  lemma PrefixParts(c: char)
    requires c in {'b', 'c', 't'}
    ensures HighPart(c) == 3 && LowPart(c) == if c == 'b' then 2 else if c == 'c' then 3 else 20
  {
    assert CharCode(c) == if c == 'b' then 98 else if c == 'c' then 99 else 116;
    hide CharCode;
  }

  /** Every witness program has an address on either network. */
  lemma AddressExists(network: NetworkKind, version: nat, program: seq<nat>) returns (text: string, check: seq<nat>)
    requires WitnessProgram(version, program)
    ensures Encodes(text, network, version, program, check)
  {
    hide Symbols, HrpExpand, BitRegrouping.Regroup, Within, BitRegrouping.InRange;
    ImageLength(program);
    HrpSymbols(network);
    ConstantsWithin();
    var data := [version] + BitRegrouping.Regroup(program, 8, 5, true).value;
    check := CheckExists(HrpOf(network), data, if version == 0 then 1 else 0x2bc830a3);
    text := HrpOf(network) + "1" + Spell(data + check);
    PrefixExpands(network);
    hide Fold;
  }

  lemma ConstantsWithin()
    ensures Within(1, 6) && Within(0x2bc830a3, 6)
  {
  }

  /** An address of a witness program decodes to exactly that program. */
  lemma EncodedDecodes(text: string, network: NetworkKind, version: nat, program: seq<nat>, check: seq<nat>)
    requires WitnessProgram(version, program) && Encodes(text, network, version, program, check)
    ensures Decode(text) == Some(Decoded(HrpOf(network), version, program, if version == 0 then Plain else Modified))
    ensures Lower(text) == text
  {
    hide Fold, HrpExpand, Words, BitRegrouping.Regroup, LastIndex, Spell, BitRegrouping.InRange, ToSymbols;
    PrefixExpands(network);
    ImageLength(program);
    BitRegrouping.RoundTrip(program);
    var image := BitRegrouping.Regroup(program, 8, 5, true).value;
    var words := [version] + image + check;
    Splits(network, words);
    WordsOfSpell(words);
    hide Lower, Upper, Separator;
    assert words[..|words| - 6] == [version] + image && ([version] + image)[1..] == image;
    assert Hrp(text) == HrpOf(network) && DataPart(text) == Spell(words);
  }

  // ---------------------------------------------------------------- from address to program

  /** Whatever decodes on a network is, case aside, the address of the program it decodes to. */
  lemma DecodedEncodes(s: string, network: NetworkKind) returns (check: seq<nat>)
    requires Decode(s).Some? && Decode(s).value.hrp == HrpOf(network)
    ensures (s == Lower(s) || s == Upper(s)) && WitnessProgram(Decode(s).value.version, Decode(s).value.program)
    ensures Encodes(Lower(s), network, Decode(s).value.version, Decode(s).value.program, check)
  {
    hide Fold, HrpExpand, Words, WordOf, BitRegrouping.Regroup, LastIndex, Spell, Lower, Upper, ToSymbols, Witness, WitnessProgram;
    PrefixExpands(network);
    var ws := Words(DataPart(s)).value;
    SpellOfWords(DataPart(s));
    var variant := VariantOf(ChecksumOf(Hrp(s), ws)).value;
    WitnessBack(Hrp(s), ws, variant);
    check := ws[|ws| - 6..];
    var lower := Lower(s);
    assert lower == lower[..Separator(lower)] + [lower[Separator(lower)]] + lower[Separator(lower) + 1..];
  }

  lemma WitnessBack(hrp: string, ws: seq<nat>, variant: Variant)
    requires |ws| >= 6 && AreWords(ws) && Witness(hrp, ws, variant).Some?
    ensures var d := Witness(hrp, ws, variant).value;
            && d.hrp == hrp && d.version < 32 && WitnessProgram(d.version, d.program) && (variant == Plain <==> d.version == 0)
            && BitRegrouping.Regroup(d.program, 8, 5, true).Some? && AreWords(BitRegrouping.Regroup(d.program, 8, 5, true).value)
            && ws == [d.version] + BitRegrouping.Regroup(d.program, 8, 5, true).value + ws[|ws| - 6..]
  {
    hide BitRegrouping.Regroup, BitRegrouping.InRange;
    var payload := ws[..|ws| - 6];
    ImageBack(payload[1..]);
    assert payload == [payload[0]] + payload[1..];
  }

  lemma ImageBack(ws: seq<nat>)
    requires BitRegrouping.Regroup(ws, 5, 8, false).Some?
    ensures var bytes := BitRegrouping.Regroup(ws, 5, 8, false).value;
            BitRegrouping.InRange(bytes, 8) && BitRegrouping.Regroup(bytes, 8, 5, true) == Some(ws)
  {
    hide BitRegrouping.Regroup, BitRegrouping.InRange, BitRegrouping.Value;
    BitRegrouping.AcceptsExactlyImages(ws);
    var bytes :| BitRegrouping.InRange(bytes, 8) && BitRegrouping.Regroup(bytes, 8, 5, true) == Some(ws);
    BitRegrouping.RoundTrip(bytes);
  }

  /**
   * The whole of `isValidSegwit`: a string is a valid address of the network exactly when it is in one
   * case and spells some witness program with its check words; and every program has such a string.
   */
  lemma ValidExactly(s: string, network: NetworkKind)
    ensures IsValidSegwit(s, network) <==>
            (s == Lower(s) || s == Upper(s)) &&
            exists version, program, check :: WitnessProgram(version, program) && Encodes(Lower(s), network, version, program, check)
  {
    hide Encodes, Lower, Upper, Decode, WitnessProgram;
    if IsValidSegwit(s, network) {
      var check := DecodedEncodes(s, network);
    }
    if s == Lower(s) || s == Upper(s) {
      if version: nat, program, check :| WitnessProgram(version, program) && Encodes(Lower(s), network, version, program, check) {
        EncodedDecodes(Lower(s), network, version, program, check);
        CaseFolds(s);
      }
    }
  }

  lemma CaseFolds(s: string)
    requires s == Lower(s) || s == Upper(s)
    ensures Lower(Lower(s)) == Lower(s) && Decode(s) == Decode(Lower(s))
  {
    hide Lower, Upper, ChecksumOf, Words, Witness, Separator, VariantOf;
    LowerAgain(s);
  }

  lemma LowerAgain(s: string)
    ensures Lower(Lower(s)) == Lower(s)
  {
  }
}
