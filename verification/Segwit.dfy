/**
 * The segwit address decoder (packages/blockchain/src/address/bitcoin.ts:74-182) on strings, and the
 * errors its checksum is guaranteed to catch.
 */
module Segwit {
  import opened Basics
  import opened Text
  import BitRegrouping
  import opened Checksum

  const CHARSET: string := "qpzry9x8gf2tvdw0s3jn54khce6mua7l"
  const BECH32_CONST: bv32 := 1
  const BECH32M_CONST: bv32 := 0x2bc830a3

  datatype Variant = Plain | Modified
  datatype Decoded = Decoded(hrp: string, version: nat, program: seq<nat>, variant: Variant)
  datatype NetworkKind = Mainnet | Testnet

  // ---------------------------------------------------------------- text

  /** `lastIndexOf` within the first n characters. */
  function LastIndex(s: string, c: char, n: nat): (k: int)
    requires n <= |s|
    ensures -1 <= k < n && (k >= 0 ==> s[k] == c) && forall j :: k < j < n ==> s[j] != c
  {
    if n == 0 then -1 else if s[n - 1] == c then n - 1 else LastIndex(s, c, n - 1)
  }

  /** Where the human-readable part ends, or -1. */
  function Separator(s: string): int {
    LastIndex(s, '1', |s|)
  }

  /** The 5-bit value a data character stands for, or -1. */
  function WordOf(c: char): int {
    IndexFrom(CHARSET, c, 0)
  }

  lemma WordOfChar(c: char)
    ensures -1 <= WordOf(c) < 32
    ensures WordOf(c) >= 0 ==> CHARSET[WordOf(c)] == c
  {
  }

  function Words(s: string): (r: Option<seq<nat>>)
    ensures r.Some? ==> |r.value| == |s|
    ensures r.Some? ==> forall k :: 0 <= k < |s| ==> 0 <= r.value[k] == WordOf(s[k]) < 32
  {
    if s == [] then Some([])
    else
      var n := |s| - 1;
      var index := WordOf(s[n]);
      WordOfChar(s[n]);
      var init := Words(s[..n]);
      if init.None? || index == -1 then None else Some(init.value + [index])
  }

  function Symbol(n: nat): bv32
    requires n < 32
  {
    n as bv32
  }

  predicate AreWords(ws: seq<nat>) {
    forall k :: 0 <= k < |ws| ==> ws[k] < 32
  }

  function ToSymbols(ws: seq<nat>): (vs: seq<bv32>)
    requires AreWords(ws)
    ensures |vs| == |ws| && forall k :: 0 <= k < |vs| ==> vs[k] == Symbol(ws[k])
  {
    seq(|ws|, k requires 0 <= k < |ws| => Symbol(ws[k]))
  }

  function CharCode(c: char): bv32 {
    c as int as bv32
  }

  function HighPart(c: char): bv32 {
    CharCode(c) >> 5
  }

  function LowPart(c: char): bv32 {
    CharCode(c) & 31
  }

  function HighBits(hrp: string): seq<bv32> {
    seq(|hrp|, i requires 0 <= i < |hrp| => HighPart(hrp[i]))
  }

  function LowBits(hrp: string): seq<bv32> {
    seq(|hrp|, i requires 0 <= i < |hrp| => LowPart(hrp[i]))
  }

  function HrpExpand(hrp: string): seq<bv32> {
    HighBits(hrp) + [0] + LowBits(hrp)
  }

  // ---------------------------------------------------------------- decoding

  function ChecksumOf(hrp: string, ws: seq<nat>): bv32
    requires AreWords(ws)
  {
    Fold(1, HrpExpand(hrp) + ToSymbols(ws))
  }

  function VariantOf(checksum: bv32): Option<Variant> {
    if checksum == BECH32_CONST then Some(Plain)
    else if checksum == BECH32M_CONST then Some(Modified)
    else None
  }

  /** The witness version and program, under the length and variant rules of BIP-173 and BIP-350. */
  function Witness(hrp: string, ws: seq<nat>, variant: Variant): Option<Decoded>
    requires |ws| >= 6
  {
    var payload := ws[..|ws| - 6];
    if payload == [] then None
    else
      var version := payload[0];
      var program := BitRegrouping.Regroup(payload[1..], 5, 8, false);
      if program.None? || |program.value| < 2 || |program.value| > 40 then None
      else if version == 0 && |program.value| != 20 && |program.value| != 32 then None
      else if version == 0 && variant != Plain then None
      else if version != 0 && variant != Modified then None
      else Some(Decoded(hrp, version, program.value, variant))
  }

  predicate Shaped(s: string) {
    && 8 <= |s| <= 90
    && (s == Lower(s) || s == Upper(s))
    && 1 <= Separator(Lower(s)) <= |s| - 7
  }

  function Hrp(s: string): string
    requires Shaped(s)
  {
    Lower(s)[..Separator(Lower(s))]
  }

  function DataPart(s: string): string
    requires Shaped(s)
  {
    Lower(s)[Separator(Lower(s)) + 1..]
  }

  function Decode(s: string): Option<Decoded> {
    if !Shaped(s) then None
    else
      var words := Words(DataPart(s));
      if words.None? then None
      else
        var variant := VariantOf(ChecksumOf(Hrp(s), words.value));
        if variant.None? then None else Witness(Hrp(s), words.value, variant.value)
  }

  function HrpOf(network: NetworkKind): string {
    match network
    case Mainnet => "bc"
    case Testnet => "tb"
  }

  predicate IsValidSegwit(s: string, network: NetworkKind) {
    Decode(s).Some? && Decode(s).value.hrp == HrpOf(network)
  }

  method ExpandHrp(hrp: string) returns (result: seq<bv32>)
    ensures result == HrpExpand(hrp)
  {
    result := [];
    for i := 0 to |hrp|
      invariant result == HighBits(hrp[..i])
    {
      result := result + [HighPart(hrp[i])];
      assert hrp[..i + 1] == hrp[..i] + [hrp[i]];
    }
    assert hrp[..|hrp|] == hrp;
    result := result + [0];
    for i := 0 to |hrp|
      invariant result == HighBits(hrp) + [0] + LowBits(hrp[..i])
    {
      result := result + [LowPart(hrp[i])];
      assert hrp[..i + 1] == hrp[..i] + [hrp[i]];
    }
  }

  method ParseWords(data: string) returns (values: Option<seq<nat>>)
    ensures values == Words(data)
  {
    var out: seq<nat> := [];
    for i := 0 to |data|
      invariant Words(data[..i]) == Some(out)
    {
      var index := WordOf(data[i]);
      WordOfChar(data[i]);
      assert data[..i + 1][..i] == data[..i];
      if index == -1 {
        NoWordsBeyond(data, i + 1);
        return None;
      }
      out := out + [index];
    }
    assert data[..|data|] == data;
    return Some(out);
  }

  lemma {:induction false} NoWordsBeyond(s: string, n: nat)
    requires n <= |s| && Words(s[..n]).None?
    ensures Words(s).None?
    decreases |s| - n
  {
    if n == |s| {
      assert s[..n] == s;
    } else {
      assert s[..n + 1][..n] == s[..n];
      NoWordsBeyond(s, n + 1);
    }
  }

  method Bech32Decode(address: string) returns (r: Option<Decoded>)
    ensures r == Decode(address)
  {
    hide Witness, WordOf, VariantOf, Fold, Words, HrpExpand, ToSymbols, LastIndex, Lower, Upper, BitRegrouping.Regroup;
    if |address| < 8 || |address| > 90 { return None; }
    if address != Lower(address) && address != Upper(address) { return None; }
    var lower := Lower(address);
    var separator := LastIndex(lower, '1', |lower|);
    if separator < 1 || separator + 7 > |lower| { return None; }
    var hrp := lower[..separator];
    var values := ParseWords(lower[separator + 1..]);
    if values.None? { return None; }
    var expanded := ExpandHrp(hrp);
    var checksum := Polymod(expanded + ToSymbols(values.value));
    var variant := VariantOf(checksum);
    if variant.None? { return None; }
    r := DecodeWitness(hrp, values.value, variant.value);
  }

  method DecodeWitness(hrp: string, values: seq<nat>, variant: Variant) returns (r: Option<Decoded>)
    requires |values| >= 6
    ensures r == Witness(hrp, values, variant)
  {
    hide BitRegrouping.Regroup;
    var payload := values[..|values| - 6];
    if |payload| == 0 { return None; }
    var version := payload[0];
    var program := BitRegrouping.ConvertBits(payload[1..], 5, 8, false);
    if program.None? || |program.value| < 2 || |program.value| > 40 { return None; }
    if version == 0 && |program.value| != 20 && |program.value| != 32 { return None; }
    if version == 0 && variant != Plain { return None; }
    if version != 0 && variant != Modified { return None; }
    return Some(Decoded(hrp, version, program.value, variant));
  }

  // ---------------------------------------------------------------- detected errors

  lemma SymbolsDistinct(m: nat, n: nat)
    requires m < 32 && n < 32
    ensures Within(Symbol(m), 1)
    ensures Plus(Symbol(m), Symbol(n)) == 0 <==> m == n
    ensures Within(Plus(Symbol(m), Symbol(n)), 1)
  {
    SymbolValue(m);
    SymbolValue(n);
    SymbolSmall(m);
    SymbolSmall(n);
    hide Symbol;
    PlusSmall(Symbol(m), Symbol(n));
  }

  lemma PlusSmall(v: bv32, w: bv32)
    requires Within(v, 1) && Within(w, 1)
    ensures Within(Plus(v, w), 1) && (Plus(v, w) == 0 <==> v == w)
  {
  }

  lemma SymbolSmall(n: nat)
    requires n < 32
    ensures Within(Symbol(n), 1)
  {
  }

  lemma SymbolValue(n: nat)
    requires n < 32
    ensures Symbol(n) as nat == n
  {
    if n < 8 {
      SymbolInBlock(n, 0);
    } else if n < 16 {
      SymbolInBlock(n, 8);
    } else if n < 24 {
      SymbolInBlock(n, 16);
    } else {
      SymbolInBlock(n, 24);
    }
  }

  lemma SymbolInBlock(n: nat, b: nat)
    requires b in {0, 8, 16, 24} && b <= n < b + 8
    ensures Symbol(n) as nat == n
  {
    if n == b {
    } else if n == b + 1 {
    } else if n == b + 2 {
    } else if n == b + 3 {
    } else if n == b + 4 {
    } else if n == b + 5 {
    } else if n == b + 6 {
    } else {
    }
  }

  /** a and b agree except possibly on six adjacent positions from i on. */
  ghost predicate AgreeOutside<T>(a: seq<T>, b: seq<T>, i: nat) {
    |a| == |b| && forall k :: 0 <= k < |a| && !(i <= k < i + 6) ==> a[k] == b[k]
  }

  /** Two words differing only within six adjacent symbols have different checksums. */
  lemma ChecksumSeparates(hrp: string, ws: seq<nat>, xs: seq<nat>, i: nat)
    requires AreWords(ws) && AreWords(xs) && ws != xs && AgreeOutside(ws, xs, i)
    ensures ChecksumOf(hrp, ws) != ChecksumOf(hrp, xs)
  {
    hide Plus, Within, Symbol, Fold;
    var vs, us := HrpExpand(hrp) + ToSymbols(ws), HrpExpand(hrp) + ToSymbols(xs);
    var h := |HrpExpand(hrp)|;
    var es := Sum(vs, us);
    FoldLinear(1, 1, vs, us);
    PlusZero(1);
    PlusZero(Fold(1, vs));
    ZeroWithin();
    WithinGrows1(0);
    forall k | 0 <= k < |es|
      ensures Within(es[k], 1) && (k < h || (es[k] == 0 <==> ws[k - h] == xs[k - h]))
      ensures k < h ==> es[k] == 0
    {
      if k < h { PlusZero(vs[k]); } else { SymbolsDistinct(ws[k - h], xs[k - h]); }
    }
    var d :| 0 <= d < |ws| && ws[d] != xs[d];
    assert es[h + d] != 0;
    var n := if i + 6 <= |ws| then 6 else |ws| - i;
    BurstVisible(es, h + i, n);
  }

  lemma WithinGrows1(c: bv32)
    requires Within(c, 0)
    ensures Within(c, 1)
  {
  }

  /** Distinct data characters stand for distinct words, and equal ones for equal words. */
  lemma WordsFollowCharacters(a: string, b: string)
    requires Words(a).Some? && Words(b).Some? && |a| == |b|
    ensures forall k :: 0 <= k < |a| ==> (Words(a).value[k] == Words(b).value[k] <==> a[k] == b[k])
    ensures Words(a) == Words(b) <==> a == b
  {
    hide Words, WordOf;
    forall k | 0 <= k < |a| ensures Words(a).value[k] == Words(b).value[k] <==> a[k] == b[k] {
      WordOfChar(a[k]);
      WordOfChar(b[k]);
    }
  }

  /** t differs from s, case aside, only within six adjacent positions from i on. */
  ghost predicate Corrupts(s: string, t: string, i: nat) {
    Lower(s) != Lower(t) && AgreeOutside(Lower(s), Lower(t), i)
  }

  lemma DecodedParts(s: string)
    requires Decode(s).Some?
    ensures Shaped(s) && Words(DataPart(s)).Some?
    ensures Some(Decode(s).value.variant) == VariantOf(ChecksumOf(Hrp(s), Words(DataPart(s)).value))
    ensures Decode(s).value.hrp == Hrp(s)
    ensures var version := Words(DataPart(s)).value[0];
            Decode(s).value.version == version && (Decode(s).value.variant == Plain <==> version == 0)
  {
    hide ChecksumOf, Words, Separator, Lower, Upper, BitRegrouping.Regroup;
  }

  /** Corrupting up to six adjacent data characters never leaves a string valid under the same constant. */
  lemma BurstChangesConstant(s: string, t: string, i: nat)
    requires Decode(s).Some? && Corrupts(s, t, i) && i > Separator(Lower(s))
    requires Separator(Lower(t)) == Separator(Lower(s))
    ensures Decode(t).Some? ==> Decode(t).value.variant != Decode(s).value.variant
  {
    hide Decode, ChecksumOf, Words, WordOf, VariantOf, Separator, Lower, Upper, AgreeOutside;
    if Decode(t).Some? {
      DecodedParts(s);
      DecodedParts(t);
      var sep := Separator(Lower(s));
      SplitAtSeparator(Lower(s), Lower(t), sep, i);
      BurstOfCharacters(Hrp(s), DataPart(s), DataPart(t), i - sep - 1);
      OneConstantPerVariant(ChecksumOf(Hrp(s), Words(DataPart(s)).value), ChecksumOf(Hrp(t), Words(DataPart(t)).value));
    }
  }

  lemma OneConstantPerVariant(c: bv32, d: bv32)
    ensures VariantOf(c) == VariantOf(d) != None ==> c == d
  {
  }

  lemma BurstOfCharacters(hrp: string, a: string, b: string, i: nat)
    requires Words(a).Some? && Words(b).Some? && a != b && AgreeOutside(a, b, i)
    ensures ChecksumOf(hrp, Words(a).value) != ChecksumOf(hrp, Words(b).value)
  {
    hide ChecksumOf, Words, WordOf;
    WordsFollowCharacters(a, b);
    ChecksumSeparates(hrp, Words(a).value, Words(b).value, i);
  }

  lemma SplitAtSeparator(a: string, b: string, sep: int, i: nat)
    requires a != b && AgreeOutside(a, b, i) && 0 <= sep < |a| && i > sep
    ensures a[..sep] == b[..sep] && a[sep + 1..] != b[sep + 1..]
    ensures AgreeOutside(a[sep + 1..], b[sep + 1..], i - sep - 1)
  {
    assert a == a[..sep] + [a[sep]] + a[sep + 1..];
    assert b == b[..sep] + [b[sep]] + b[sep + 1..];
  }

  /** On addresses of one network no hypothesis on the separator is needed. */
  lemma AddressBurstChangesConstant(s: string, t: string, i: nat, network: NetworkKind)
    requires IsValidSegwit(s, network) && Corrupts(s, t, i) && i > Separator(Lower(s))
    ensures IsValidSegwit(t, network) ==> Decode(t).value.variant != Decode(s).value.variant
  {
    hide Decode, ChecksumOf, Words, VariantOf, Separator, Lower, Upper, AgreeOutside;
    if IsValidSegwit(t, network) {
      DecodedParts(s);
      DecodedParts(t);
      assert |Hrp(s)| == Separator(Lower(s)) && |Hrp(t)| == Separator(Lower(t));
      BurstChangesConstant(s, t, i);
    }
  }

  /** After the version character the constant cannot change either: the corrupted address is refused. */
  lemma AddressBurstRefused(s: string, t: string, i: nat, network: NetworkKind)
    requires IsValidSegwit(s, network) && Corrupts(s, t, i) && i > Separator(Lower(s)) + 1
    ensures !IsValidSegwit(t, network)
  {
    hide Decode, ChecksumOf, Words, WordOf, VariantOf, Separator, Lower, Upper;
    if IsValidSegwit(t, network) {
      DecodedParts(s);
      DecodedParts(t);
      var sep := Separator(Lower(s));
      assert |Hrp(s)| == Separator(Lower(s)) && |Hrp(t)| == Separator(Lower(t));
      assert DataPart(s)[0] == Lower(s)[sep + 1] == DataPart(t)[0];
      AddressBurstChangesConstant(s, t, i, network);
    }
  }
}
