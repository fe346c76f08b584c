/** The Bech32 checksum (packages/blockchain/src/address/bitcoin.ts:82-93) as a linear code. */
module Checksum {

  const GENERATORS: seq<bv32> := [0x3b6a57b2, 0x26508e6d, 0x1ea119fa, 0x3d4233dd, 0x2a1462b3]

  /** Addition of 32-bit states. */
  function Plus(a: bv32, b: bv32): bv32 { a ^ b }

  function Shifted(c: bv32): bv32 { (c & 0x1ffffff) << 5 }

  function Top(c: bv32): bv32 { c >> 25 }

  predicate Bit(top: bv32, i: nat)
    requires i < 5
  {
    (top >> i) & 1 != 0
  }

  /** The i-th generator if bit i of `top` is set. */
  function Term(top: bv32, i: nat): bv32
    requires i < 5
  {
    if Bit(top, i) then GENERATORS[i] else 0
  }

  function Selected(top: bv32, n: nat): bv32
    requires n <= 5
  {
    if n == 0 then 0 else Plus(Selected(top, n - 1), Term(top, n - 1))
  }

  /** One symbol enters the checksum. */
  function Step(c: bv32, v: bv32): bv32 {
    Plus(Plus(Shifted(c), v), Selected(Top(c), 5))
  }

  function Fold(c: bv32, vs: seq<bv32>): bv32
    decreases |vs|
  {
    if vs == [] then c else Fold(Step(c, vs[0]), vs[1..])
  }

  method Polymod(values: seq<bv32>) returns (checksum: bv32)
    ensures checksum == Fold(1, values)
  {
    hide Plus, Shifted, Top, Term, Step;
    checksum := 1;
    assert values[0..] == values;
    for k := 0 to |values|
      invariant Fold(checksum, values[k..]) == Fold(1, values)
    {
      assert values[k..][0] == values[k] && values[k..][1..] == values[k + 1..];
      checksum := Absorb(checksum, values[k]);
    }
  }

  /** The body of the outer loop: shift, add the symbol, then each selected generator. */
  method Absorb(c: bv32, value: bv32) returns (checksum: bv32)
    ensures checksum == Step(c, value)
  {
    var top := c >> 25;
    checksum := ((c & 0x1ffffff) << 5) ^ value;
    ghost var shifted := checksum;
    assert shifted == Plus(Shifted(c), value) && top == Top(c);
    NoneSelected(shifted, top);
    hide Plus, Shifted, Top, Selected;
    for i := 0 to 5
      invariant checksum == Plus(shifted, Selected(top, i))
    {
      OneSelected(shifted, top, i);
      if Bit(top, i) { checksum := Plus(checksum, GENERATORS[i]); }
    }
    assert checksum == Plus(shifted, Selected(top, 5));
  }

  lemma NoneSelected(x: bv32, top: bv32)
    ensures Plus(x, Selected(top, 0)) == x
  {
  }

  lemma OneSelected(x: bv32, top: bv32, i: nat)
    requires i < 5
    ensures Plus(x, Selected(top, i + 1)) == Plus(Plus(x, Selected(top, i)), Term(top, i))
    ensures Plus(Plus(x, Selected(top, i)), 0) == Plus(x, Selected(top, i))
  {
    PlusAssoc(x, Selected(top, i), Term(top, i));
    PlusZero(Plus(x, Selected(top, i)));
    hide Plus, Term;
  }

  lemma PlusAssoc(a: bv32, b: bv32, c: bv32)
    ensures Plus(Plus(a, b), c) == Plus(a, Plus(b, c))
  {
  }

  lemma PlusZero(a: bv32)
    ensures Plus(a, 0) == a && Plus(0, a) == a && Plus(a, a) == 0
  {
  }

  // ---------------------------------------------------------------- linearity

  lemma PlusPairs(a: bv32, b: bv32, c: bv32, d: bv32)
    ensures Plus(Plus(a, b), Plus(c, d)) == Plus(Plus(a, c), Plus(b, d))
  {
    hide Plus;
    PlusAssoc(a, b, Plus(c, d));
    PlusAssoc(b, c, d);
    PlusComm(b, c);
    PlusAssoc(c, b, d);
    PlusAssoc(a, c, Plus(b, d));
  }

  lemma PlusComm(a: bv32, b: bv32)
    ensures Plus(a, b) == Plus(b, a)
  {
  }

  lemma TermLinear(a: bv32, b: bv32, i: nat)
    requires i < 5
    ensures Term(Plus(a, b), i) == Plus(Term(a, i), Term(b, i))
  {
    BitOfPlus(a, b, i);
    PlusZero(GENERATORS[i]);
    PlusZero(0);
    hide Plus, Bit;
  }

  lemma BitOfPlus(a: bv32, b: bv32, i: nat)
    requires i < 5
    ensures Bit(Plus(a, b), i) == (Bit(a, i) != Bit(b, i))
  {
    var c := Plus(a, b);
    if i == 0 {
      assert (c & 1 != 0) == ((a & 1 != 0) != (b & 1 != 0));
    } else if i == 1 {
      assert ((c >> 1) & 1 != 0) == (((a >> 1) & 1 != 0) != ((b >> 1) & 1 != 0));
    } else if i == 2 {
      assert ((c >> 2) & 1 != 0) == (((a >> 2) & 1 != 0) != ((b >> 2) & 1 != 0));
    } else if i == 3 {
      assert ((c >> 3) & 1 != 0) == (((a >> 3) & 1 != 0) != ((b >> 3) & 1 != 0));
    } else {
      assert ((c >> 4) & 1 != 0) == (((a >> 4) & 1 != 0) != ((b >> 4) & 1 != 0));
    }
  }

  lemma {:induction false} SelectedLinear(a: bv32, b: bv32, n: nat)
    requires n <= 5
    ensures Selected(Plus(a, b), n) == Plus(Selected(a, n), Selected(b, n))
  {
    PlusZero(0);
    hide Plus, Term;
    if n > 0 {
      SelectedLinear(a, b, n - 1);
      TermLinear(a, b, n - 1);
      PlusPairs(Selected(a, n - 1), Selected(b, n - 1), Term(a, n - 1), Term(b, n - 1));
    }
  }

  lemma ShiftsLinear(c: bv32, d: bv32)
    ensures Shifted(Plus(c, d)) == Plus(Shifted(c), Shifted(d))
    ensures Top(Plus(c, d)) == Plus(Top(c), Top(d))
  {
  }

  lemma StepLinear(c: bv32, d: bv32, v: bv32, w: bv32)
    ensures Step(Plus(c, d), Plus(v, w)) == Plus(Step(c, v), Step(d, w))
  {
    hide Plus, Shifted, Top, Selected;
    ShiftsLinear(c, d);
    SelectedLinear(Top(c), Top(d), 5);
    PlusPairs(Shifted(c), Shifted(d), v, w);
    PlusPairs(Plus(Shifted(c), v), Plus(Shifted(d), w), Selected(Top(c), 5), Selected(Top(d), 5));
  }

  function Sum(vs: seq<bv32>, ws: seq<bv32>): (r: seq<bv32>)
    requires |vs| == |ws|
    ensures |r| == |vs| && forall k :: 0 <= k < |r| ==> r[k] == Plus(vs[k], ws[k])
  {
    seq(|vs|, k requires 0 <= k < |vs| => Plus(vs[k], ws[k]))
  }

  /** The checksum of a sum is the sum of the checksums. */
  lemma {:induction false} FoldLinear(c: bv32, d: bv32, vs: seq<bv32>, ws: seq<bv32>)
    requires |vs| == |ws|
    ensures Fold(Plus(c, d), Sum(vs, ws)) == Plus(Fold(c, vs), Fold(d, ws))
    decreases |vs|
  {
    hide Plus, Step;
    if vs != [] {
      StepLinear(c, d, vs[0], ws[0]);
      FoldLinear(Step(c, vs[0]), Step(d, ws[0]), vs[1..], ws[1..]);
      assert Sum(vs, ws)[1..] == Sum(vs[1..], ws[1..]);
    }
  }

  // ---------------------------------------------------------------- zero symbols lose nothing

  lemma SelectedExpanded(top: bv32)
    ensures Selected(top, 5) ==
            (if top & 1 != 0 then 0x3b6a57b2 as bv32 else 0) ^ (if top & 2 != 0 then 0x26508e6d as bv32 else 0) ^
            (if top & 4 != 0 then 0x1ea119fa as bv32 else 0) ^ (if top & 8 != 0 then 0x3d4233dd as bv32 else 0) ^
            (if top & 16 != 0 then 0x2a1462b3 as bv32 else 0)
  {
    assert Selected(top, 1) == if top & 1 != 0 then 0x3b6a57b2 else 0;
    assert Selected(top, 2) == Selected(top, 1) ^ if top & 2 != 0 then 0x26508e6d else 0;
    assert Selected(top, 3) == Selected(top, 2) ^ if top & 4 != 0 then 0x1ea119fa else 0;
    assert Selected(top, 4) == Selected(top, 3) ^ if top & 8 != 0 then 0x3d4233dd else 0;
    assert Selected(top, 5) == Selected(top, 4) ^ if top & 16 != 0 then 0x2a1462b3 else 0;
  }

  /** States of at most 5 * j bits. */
  predicate Within(c: bv32, j: nat)
    requires j <= 6
  {
    match j
    case 0 => c < 0x1
    case 1 => c < 0x20
    case 2 => c < 0x400
    case 3 => c < 0x8000
    case 4 => c < 0x100000
    case 5 => c < 0x2000000
    case _ => c < 0x40000000
  }

  /** On 30-bit states a zero symbol sends only zero to zero, and stays within 30 bits. */
  lemma ZeroSymbol(d: bv32)
    requires Within(d, 6)
    ensures Within(Step(d, 0), 6)
    ensures Step(d, 0) == 0 <==> d == 0
  {
    hide Plus, Selected, Top, Shifted;
    HalvesOf(d);
    SelectedLow(Top(d));
    LowBitsDecide(Shifted(d), Selected(Top(d), 5));
  }

  lemma SelectedLow(top: bv32)
    requires top < 32
    ensures Selected(top, 5) & 31 == 0 <==> top == 0
    ensures top == 0 ==> Selected(top, 5) == 0
    ensures Selected(top, 5) < 0x40000000
  {
    hide Selected;
    SelectedExpanded(top);
    LowBitsIndependent(top, Selected(top, 5));
  }

  lemma HalvesOf(d: bv32)
    requires Within(d, 6)
    ensures Top(d) < 32 && Shifted(d) & 31 == 0 && Shifted(d) < 0x40000000
    ensures Top(d) == 0 && Shifted(d) == 0 <==> d == 0
  {
  }

  /** The five generators are independent already on their low five bits. */
  lemma LowBitsIndependent(top: bv32, g: bv32)
    requires top < 32
    requires g ==
      (if top & 1 != 0 then 0x3b6a57b2 as bv32 else 0) ^ (if top & 2 != 0 then 0x26508e6d as bv32 else 0) ^
      (if top & 4 != 0 then 0x1ea119fa as bv32 else 0) ^ (if top & 8 != 0 then 0x3d4233dd as bv32 else 0) ^
      (if top & 16 != 0 then 0x2a1462b3 as bv32 else 0)
    ensures g & 31 == 0 <==> top == 0
    ensures top == 0 ==> g == 0
    ensures g < 0x40000000
  {
  }

  lemma LowBitsDecide(low: bv32, g: bv32)
    requires low & 31 == 0 && low < 0x40000000 && g < 0x40000000
    ensures Plus(Plus(low, 0), g) < 0x40000000
    ensures g & 31 != 0 || g == 0 ==> (Plus(Plus(low, 0), g) == 0 <==> low == 0 && g == 0)
  {
  }

  /** While the state is below 2^25 nothing is folded back: symbols are just appended. */
  lemma SymbolAppended(d: bv32, j: nat, v: bv32)
    requires j < 6 && Within(d, j) && Within(v, 1)
    ensures Within(Step(d, v), j + 1)
    ensures Step(d, v) == 0 <==> d == 0 && v == 0
  {
    AppendZeroTop(d, j);
    SelectedExpanded(0);
    LowBitsIndependent(0, Selected(0, 5));
    PlusZero(Plus(Shifted(d), v));
    assert Step(d, v) == Plus(Shifted(d), v) by { hide Plus, Shifted, Selected, Top; }
    hide Step, Selected, Top;
    AppendSymbol(d, j, v);
  }

  lemma AppendZeroTop(d: bv32, j: nat)
    requires j < 6 && Within(d, j)
    ensures Top(d) == 0
  {
  }

  lemma AppendSymbol(d: bv32, j: nat, v: bv32)
    requires j < 6 && Within(d, j) && Within(v, 1)
    ensures Within(Plus(Shifted(d), v), j + 1)
    ensures Plus(Shifted(d), v) == 0 <==> d == 0 && v == 0
  {
    if j == 0 { } else if j == 1 { } else if j == 2 { } else if j == 3 { } else if j == 4 { } else { }
  }

  ghost predicate AllZero(vs: seq<bv32>) {
    forall k :: 0 <= k < |vs| ==> vs[k] == 0
  }

  ghost predicate Symbols(vs: seq<bv32>) {
    forall k :: 0 <= k < |vs| ==> Within(vs[k], 1)
  }

  lemma {:induction false} FoldZeros(d: bv32, vs: seq<bv32>)
    requires Within(d, 6) && AllZero(vs)
    ensures Within(Fold(d, vs), 6) && (Fold(d, vs) == 0 <==> d == 0)
    decreases |vs|
  {
    hide Within, Step;
    if vs != [] {
      ZeroSymbol(d);
      FoldZeros(Step(d, 0), vs[1..]);
    }
  }

  lemma {:induction false} FoldBurst(d: bv32, j: nat, vs: seq<bv32>)
    requires j + |vs| <= 6 && Within(d, j) && Symbols(vs)
    ensures Within(Fold(d, vs), j + |vs|) && (Fold(d, vs) == 0 <==> d == 0 && AllZero(vs))
    decreases |vs|
  {
    hide Within, Step;
    if vs != [] {
      SymbolAppended(d, j, vs[0]);
      FoldBurst(Step(d, vs[0]), j + 1, vs[1..]);
      assert vs == [vs[0]] + vs[1..];
    }
  }

  lemma {:induction false} FoldConcat(c: bv32, vs: seq<bv32>, ws: seq<bv32>)
    ensures Fold(c, vs + ws) == Fold(Fold(c, vs), ws)
    decreases |vs|
  {
    hide Step;
    if vs == [] {
      assert vs + ws == ws;
    } else {
      assert (vs + ws)[1..] == vs[1..] + ws;
      FoldConcat(Step(c, vs[0]), vs[1..], ws);
    }
  }

  lemma WithinGrows(d: bv32, j: nat)
    requires j <= 6 && Within(d, j)
    ensures Within(d, 6)
  {
  }

  lemma ZeroWithin()
    ensures Within(0, 0)
  {
  }

  /** A difference confined to six adjacent symbols is never invisible to the checksum. */
  lemma BurstVisible(es: seq<bv32>, i: nat, n: nat)
    requires n <= 6 && i + n <= |es| && Symbols(es) && !AllZero(es)
    requires AllZero(es[..i]) && AllZero(es[i + n..])
    ensures Fold(0, es) != 0
  {
    hide Within, Step, Fold;
    ZeroWithin();
    WithinGrows(0, 0);
    var before, burst, after := es[..i], es[i..i + n], es[i + n..];
    assert es == before + (burst + after);
    FoldConcat(0, before, burst + after);
    FoldConcat(0, burst, after);
    FoldZeros(0, before);
    FoldBurst(0, 0, burst);
    WithinGrows(Fold(0, burst), n);
    FoldZeros(Fold(0, burst), after);
    assert AllZero(burst) ==> AllZero(es);
  }
}
