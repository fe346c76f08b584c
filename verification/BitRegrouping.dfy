/**
 * `convertBits` (packages/blockchain/src/address/bitcoin.ts:152-175): regrouping words of one bit
 * width into words of another with a 32-bit accumulator that wraps.
 */
module BitRegrouping {
  import opened Basics
  import opened Rounding

  function Pow2(n: nat): nat
  {
    if n == 0 then 1 else 2 * Pow2(n - 1)
  }

  /** The big-endian number the words spell. */
  function Value(ws: seq<nat>, w: nat): nat {
    if ws == [] then 0 else Value(ws[..|ws| - 1], w) * Pow2(w) + ws[|ws| - 1]
  }

  predicate InRange(ws: seq<nat>, w: nat) {
    forall i :: 0 <= i < |ws| ==> ws[i] < Pow2(w)
  }

  /** The m big-endian digits of v in base 2^w. */
  function Digits(v: nat, m: nat, w: nat): (ds: seq<nat>)
    ensures |ds| == m
    decreases m
  {
    if m == 0 then [] else Digits(High(v, w), m - 1, w) + [Low(v, w)]
  }

  /** v without its lowest bits. */
  function High(v: nat, bits: nat): nat {
    Pow2Positive(bits);
    DivFacts(v, Pow2(bits));
    v / Pow2(bits)
  }

  /** The lowest bits of v. */
  function Low(v: nat, bits: nat): nat {
    Pow2Positive(bits);
    v % Pow2(bits)
  }

  /** v with zero bits appended. */
  function Shift(v: nat, bits: nat): nat {
    v * Pow2(bits)
  }

  /** How many numbers n words of w bits can spell. */
  function Span(n: nat, w: nat): nat {
    Pow2(n * w)
  }

  /** The lowest `left` bits of v as the top of a word of `to` bits. */
  function Pending(v: nat, left: nat, to: nat): nat
    requires left <= to
  {
    Low(Shift(v, to - left), to)
  }

  function BitLength(n: nat, w: nat): nat {
    n * w
  }

  /** Regrouping on unbounded integers: the specification of `convertBits`. */
  function Regroup(data: seq<nat>, from: nat, to: nat, pad: bool): Option<seq<nat>>
    requires to >= 1
  {
    if !InRange(data, from) then None
    else
      var total := Value(data, from);
      var bits := BitLength(|data|, from);
      DivFacts(bits, to);
      var left := bits % to;
      var words := Digits(High(total, left), bits / to, to);
      if pad then Some(if left > 0 then words + [Pending(total, left, to)] else words)
      else if left >= from || Low(total, left) != 0 then None
      else Some(words)
  }

  // ---------------------------------------------------------------- powers and quotients

  lemma {:induction false} Pow2Positive(n: nat)
    ensures Pow2(n) >= 1
  {
    if n > 0 { Pow2Positive(n - 1); }
  }

  lemma {:induction false} Pow2Add(a: nat, b: nat)
    ensures Pow2(a + b) == Pow2(a) * Pow2(b)
  {
    if a > 0 {
      Pow2Add(a - 1, b);
      MulAssoc(2, Pow2(a - 1), Pow2(b));
    }
  }

  lemma MulAssoc(x: int, y: int, z: int)
    ensures x * (y * z) == (x * y) * z
  {
  }

  lemma DivFacts(n: nat, d: nat)
    requires d >= 1
    ensures n == (n / d) * d + n % d && 0 <= n % d < d && n / d >= 0
  {
  }

  lemma QuotientIs(n: nat, d: nat, q: int, r: int)
    requires d >= 1 && n == q * d + r && 0 <= r < d
    ensures n / d == q && n % d == r
  {
    DivFacts(n, d);
    assert (q + 1) * d == q * d + d && (n / d + 1) * d == (n / d) * d + d;
    QuotientUnique(n, d, n / d, q);
  }

  lemma DivDiv(n: nat, a: nat, b: nat)
    requires a >= 1 && b >= 1
    ensures a * b >= 1 && (n / a) / b == n / (a * b)
  {
    DivFacts(n, a);
    DivFacts(n / a, b);
    var q, r, s := (n / a) / b, (n / a) % b, n % a;
    assert a * b >= 1 by { MulMono(1, b, a); assert b * a == a * b; }
    assert n == q * (a * b) + (r * a + s) by {
      assert (q * b + r) * a == (q * b) * a + r * a;
      MulAssoc(q, b, a);
      assert b * a == a * b;
    }
    MulMono(r, b - 1, a);
    assert (b - 1) * a == a * b - a;
    assert r * a >= 0 by { MulMono(0, r, a); }
    QuotientIs(n, a * b, q, r * a + s);
  }

  /** Reducing modulo a multiple of d * t does not change the digit at d of width t. */
  lemma DigitSurvivesWrap(n: nat, wrap: nat, d: nat, t: nat, c: nat)
    requires d >= 1 && t >= 1 && wrap >= 1 && wrap == c * t * d
    ensures ((n % wrap) / d) % t == (n / d) % t
  {
    DivFacts(n, wrap);
    var q, r := n / wrap, n % wrap;
    DivFacts(r, d);
    DivFacts(r / d, t);
    var high := q * c * t;
    assert n == (high + r / d) * d + r % d by {
      assert (high + r / d) * d == high * d + (r / d) * d;
      assert high * d == q * wrap by {
        assert q * c * t == q * (c * t);
        MulAssoc(q, c * t, d);
      }
    }
    QuotientIs(n, d, high + r / d, r % d);
    assert n / d == (q * c + (r / d) / t) * t + (r / d) % t by {
      assert (q * c + (r / d) / t) * t == q * c * t + ((r / d) / t) * t;
    }
    QuotientIs(n / d, t, q * c + (r / d) / t, (r / d) % t);
  }

  // ---------------------------------------------------------------- digits and values

  lemma {:induction false} ValueBound(ws: seq<nat>, w: nat)
    requires InRange(ws, w)
    ensures Value(ws, w) < Span(|ws|, w)
  {
    NoWords(w);
    if ws != [] {
      var init, last := ws[..|ws| - 1], ws[|ws| - 1];
      ValueBound(init, w);
      assert Value(ws, w) == Value(init, w) * Pow2(w) + last;
      OneMoreWord(|init|, |ws|, w);
      hide Value, Pow2, Span;
      DigitBelow(Value(init, w), Span(|init|, w), Pow2(w), last);
    }
  }

  lemma NoWords(w: nat)
    ensures Span(0, w) == 1
  {
    assert 0 * w == 0;
  }

  lemma OneMoreWord(m: nat, n: nat, w: nat)
    requires n == m + 1
    ensures Span(n, w) == Span(m, w) * Pow2(w)
  {
    hide Pow2;
    assert n * w == m * w + w;
    Pow2Add(m * w, w);
  }

  lemma DigitBelow(v: nat, top: nat, p: nat, x: nat)
    requires v < top && x < p
    ensures v * p + x < top * p
  {
    MulMono(v + 1, top, p);
    assert (v + 1) * p == v * p + p;
  }

  lemma HighBelow(v: nat, top: nat, bits: nat)
    requires v < top * Pow2(bits)
    ensures High(v, bits) < top
  {
    Pow2Positive(bits);
    hide Pow2;
    DivFacts(v, Pow2(bits));
    if High(v, bits) >= top { MulMono(top, High(v, bits), Pow2(bits)); }
  }

  lemma Distribute(x: int, y: int, z: int)
    ensures (x + y) * z == x * z + y * z
  {
  }

  lemma {:induction false} DigitsOfValue(ws: seq<nat>, w: nat)
    requires InRange(ws, w)
    ensures Digits(Value(ws, w), |ws|, w) == ws
  {
    if ws != [] {
      var init, last := ws[..|ws| - 1], ws[|ws| - 1];
      DigitsOfValue(init, w);
      Pow2Positive(w);
      QuotientIs(Value(ws, w), Pow2(w), Value(init, w), last);
      assert ws == init + [last];
    }
  }

  lemma {:induction false} ValueOfDigits(v: nat, m: nat, w: nat)
    requires v < Span(m, w)
    ensures InRange(Digits(v, m, w), w) && Value(Digits(v, m, w), w) == v
    decreases m
  {
    hide Span, Pow2, High, Low;
    if m == 0 {
      NoWords(w);
    } else {
      LastDigit(v, m, w);
      OneMoreWord(m - 1, m, w);
      hide Digits, Value, InRange;
      HighBelow(v, Span(m - 1, w), w);
      ValueOfDigits(High(v, w), m - 1, w);
      AppendDigit(Digits(High(v, w), m - 1, w), Low(v, w), w);
    }
  }

  lemma LastDigit(v: nat, m: nat, w: nat)
    requires m > 0
    ensures Digits(v, m, w) == Digits(High(v, w), m - 1, w) + [Low(v, w)]
    ensures Low(v, w) < Pow2(w)
    ensures v == High(v, w) * Pow2(w) + Low(v, w)
  {
    Pow2Positive(w);
    DivFacts(v, Pow2(w));
  }

  lemma AppendDigit(ws: seq<nat>, x: nat, w: nat)
    requires InRange(ws, w) && x < Pow2(w)
    ensures InRange(ws + [x], w) && Value(ws + [x], w) == Value(ws, w) * Pow2(w) + x
  {
    assert (ws + [x])[..|ws|] == ws;
  }

  // ---------------------------------------------------------------- the wrapping implementation

  const WRAP: nat := 0x1_0000_0000

  lemma WrapIsPow2()
    ensures WRAP == Pow2(32)
  {
    Pow2Add(16, 16);
    Pow2Add(8, 8);
    assert Pow2(8) == 256;
  }

  /** `(acc << from) | value` on 32 bits: the shifted word has `from` zero low bits. */
  function ShiftIn(acc: nat, from: nat, value: nat): nat {
    (acc * Pow2(from)) % WRAP + value
  }

  /** The accumulator is the spelled number modulo 2^32. */
  lemma ShiftInWraps(n: nat, from: nat, value: nat)
    requires from <= 32 && value < Pow2(from)
    ensures ShiftIn(n % WRAP, from, value) == (n * Pow2(from) + value) % WRAP
  {
    WrapIsPow2();
    Pow2Add(32 - from, from);
    Pow2Positive(from);
    hide Pow2;
    ShiftModulo(n, WRAP, Pow2(from), Pow2(32 - from), value);
  }

  lemma ShiftModulo(n: nat, wrap: nat, p: nat, c: nat, value: nat)
    requires wrap >= 1 && wrap == c * p && value < p
    ensures (n % wrap) * p >= 0 && ((n % wrap) * p) % wrap + value == (n * p + value) % wrap
  {
    var q, a := n / wrap, n % wrap;
    DivFacts(n, wrap);
    var ap := a * p;
    assert ap >= 0;
    DivFacts(ap, wrap);
    var q', r := ap / wrap, ap % wrap;
    LowBitsZero(a, p, c, q', r);
    assert n * p == (q * p + q') * wrap + r by {
      Distribute(q * wrap, a, p);
      Distribute(q * p, q', wrap);
      Swap(q, wrap, p);
    }
    QuotientIs(n * p + value, wrap, q * p + q', r + value);
  }

  lemma Swap(x: int, y: int, z: int)
    ensures (x * y) * z == (x * z) * y
  {
    MulAssoc(x, y, z);
    MulAssoc(x, z, y);
    assert y * z == z * y;
  }

  /** A multiple of p reduced modulo c * p stays a multiple of p, so adding less than p cannot carry. */
  lemma LowBitsZero(a: nat, p: nat, c: nat, q: nat, r: nat)
    requires p >= 1 && a * p == q * (c * p) + r && r < c * p
    ensures r + p <= c * p
  {
    assert r == (a - q * c) * p by {
      assert (a - q * c) * p == a * p - q * c * p;
      MulAssoc(q, c, p);
    }
    var k := a - q * c;
    if k >= c { MulMono(c, k, p); }
    MulMono(k + 1, c, p);
    assert (k + 1) * p == k * p + p;
  }

  /** One inner step: emitting a word moves the boundary `to` bits down. */
  lemma EmitWord(total: nat, bits: nat, to: nat, done: nat)
    requires to >= 1 && bits + to <= 32
    ensures Digits(High(total, bits), done + 1, to) ==
            Digits(High(total, bits + to), done, to) + [Low(High(total % WRAP, bits), to)]
  {
    Pow2Positive(bits);
    Pow2Positive(to);
    Pow2Positive(bits + to);
    Pow2Add(bits, to);
    DivDiv(total, Pow2(bits), Pow2(to));
    WrapIsPow2();
    Pow2Add(32 - bits - to, to);
    Pow2Add(32 - bits, bits);
    DigitSurvivesWrap(total, WRAP, Pow2(bits), Pow2(to), Pow2(32 - bits - to));
  }

  /** The pending low bits read from the accumulator are those of the number. */
  lemma PendingBits(total: nat, bits: nat, to: nat)
    requires 1 <= to <= 32 && bits < to
    ensures Pending(total % WRAP, bits, to) == Pending(total, bits, to)
    ensures Pending(total, bits, to) == 0 <==> Low(total, bits) == 0
  {
    LowBitsShifted(total, bits, to);
    LowBitsShifted(total % WRAP, bits, to);
    assert Low(total % WRAP, bits) == Low(total, bits) by {
      Pow2Positive(bits);
      WrapIsPow2();
      Pow2Add(32 - bits, bits);
      hide Pow2;
      DigitSurvivesWrap(total, WRAP, 1, Pow2(bits), Pow2(32 - bits));
      assert total / 1 == total && (total % WRAP) / 1 == total % WRAP;
    }
    Pow2Positive(to - bits);
    hide Pow2, Pending;
    var r, p := Low(total, bits), Pow2(to - bits);
    if r > 0 { MulMono(1, r, p); } else { assert r * p == 0; }
  }

  lemma LowBitsShifted(n: nat, bits: nat, to: nat)
    requires bits <= to
    ensures Pending(n, bits, to) == Low(n, bits) * Pow2(to - bits)
  {
    Pow2Positive(bits);
    Pow2Positive(to - bits);
    Pow2Add(bits, to - bits);
    hide Pow2;
    ScaledRemainder(n, Pow2(bits), Pow2(to - bits));
  }

  lemma ScaledRemainder(n: nat, b: nat, s: nat)
    requires b >= 1 && s >= 1
    ensures b * s >= 1 && n * s >= 0 && (n * s) % (b * s) == (n % b) * s
    ensures (n / b) * (b * s) + (n % b) * s == n * s
  {
    DivFacts(n, b);
    var q, r := n / b, n % b;
    MulAssoc(q, b, s);
    Distribute(q * b, r, s);
    DigitBelow(r, b, s, 0);
    MulMono(0, r, s);
    MulMono(1, b, s);
    QuotientIs(n * s, b * s, q, r * s);
  }

  /** Shifting a word in leaves the bits above the boundary unchanged. */
  lemma WidenBoundary(n: nat, from: nat, value: nat, bits: nat)
    requires value < Pow2(from)
    ensures High(n * Pow2(from) + value, bits + from) == High(n, bits)
  {
    Pow2Positive(bits);
    Pow2Positive(from);
    Pow2Add(from, bits);
    hide Pow2;
    QuotientIs(n * Pow2(from) + value, Pow2(from), n, value);
    DivDiv(n * Pow2(from) + value, Pow2(from), Pow2(bits));
    assert bits + from == from + bits;
  }

  /** What the loop knows after n words spelling `total`: the words out are its high digits. */
  ghost predicate Progress(total: nat, n: nat, acc: nat, bits: nat, out: seq<nat>, from: nat, to: nat)
    requires to >= 1
  {
    && |out| * to + bits == n * from
    && acc == total % WRAP
    && out == Digits(High(total, bits), |out|, to)
  }

  lemma NoProgressYet(from: nat, to: nat)
    requires to >= 1
    ensures Value([], from) == 0 && Progress(0, 0, 0, 0, [], from, to)
  {
  }

  lemma TooLarge(data: seq<nat>, i: nat, from: nat, to: nat, pad: bool)
    requires to >= 1 && i < |data| && data[i] >= Pow2(from)
    ensures Regroup(data, from, to, pad) == None
  {
    hide Pow2, Value, Digits;
  }

  lemma Shifted(total: nat, n: nat, acc: nat, bits: nat, out: seq<nat>, from: nat, to: nat, value: nat)
    requires to >= 1 && from <= 32 && value < Pow2(from)
    requires Progress(total, n, acc, bits, out, from, to)
    ensures Progress(total * Pow2(from) + value, n + 1, ShiftIn(acc, from, value), bits + from, out, from, to)
  {
    ShiftInWraps(total, from, value);
    WidenBoundary(total, from, value, bits);
    hide Pow2, Digits, High, ShiftIn;
    Distribute(n, 1, from);
  }

  lemma Emitted(total: nat, n: nat, acc: nat, bits: nat, out: seq<nat>, from: nat, to: nat)
    requires to >= 1 && to <= bits <= 32
    requires Progress(total, n, acc, bits, out, from, to)
    ensures Progress(total, n, acc, bits - to, out + [Low(High(acc, bits - to), to)], from, to)
  {
    EmitWord(total, bits - to, to, |out|);
    hide Digits, High, Low;
    Distribute(|out|, 1, to);
  }

  lemma Finished(data: seq<nat>, total: nat, acc: nat, bits: nat, out: seq<nat>, from: nat, to: nat, pad: bool)
    requires 1 <= to <= 32 && bits < to
    requires InRange(data, from) && total == Value(data, from)
    requires Progress(total, |data|, acc, bits, out, from, to)
    ensures Regroup(data, from, to, pad) ==
            if pad then Some(if bits > 0 then out + [Pending(acc, bits, to)] else out)
            else if bits >= from || Pending(acc, bits, to) != 0 then None
            else Some(out)
  {
    PendingBits(total, bits, to);
    QuotientIs(|data| * from, to, |out|, bits);
    hide Pow2, Digits, High, Low, Pending, Value;
  }

  method ConvertBits(data: seq<nat>, from: nat, to: nat, pad: bool) returns (r: Option<seq<nat>>)
    requires 1 <= from && 1 <= to && from + to <= 32
    ensures r == Regroup(data, from, to, pad)
  {
    hide Pow2, Value, Digits, High, Low, Pending, Progress, ShiftIn, Regroup;
    var acc: nat, bits: nat, out: seq<nat> := 0, 0, [];
    NoProgressYet(from, to);
    for i := 0 to |data|
      invariant InRange(data[..i], from) && bits < to
      invariant Progress(Value(data[..i], from), i, acc, bits, out, from, to)
    {
      var value := data[i];
      if value >= Pow2(from) {
        TooLarge(data, i, from, to, pad);
        return None;
      }
      assert data[..i + 1] == data[..i] + [value];
      AppendDigit(data[..i], value, from);
      Shifted(Value(data[..i], from), i, acc, bits, out, from, to, value);
      acc := ShiftIn(acc, from, value);
      bits := bits + from;
      while bits >= to
        invariant bits < to + from
        invariant Progress(Value(data[..i + 1], from), i + 1, acc, bits, out, from, to)
      {
        Emitted(Value(data[..i + 1], from), i + 1, acc, bits, out, from, to);
        bits := bits - to;
        out := out + [Low(High(acc, bits), to)];
      }
    }
    assert data[..|data|] == data;
    Finished(data, Value(data, from), acc, bits, out, from, to, pad);
    if pad {
      return Some(if bits > 0 then out + [Pending(acc, bits, to)] else out);
    }
    if bits >= from || Pending(acc, bits, to) != 0 { return None; }
    return Some(out);
  }

  // ---------------------------------------------------------------- 8 <-> 5 round trip

  /** Cutting a number of n words of `from` bits at a boundary leaves m in-range words. */
  lemma CutAt(data: seq<nat>, from: nat, to: nat, m: nat, left: nat)
    requires InRange(data, from) && |data| * from == m * to + left
    ensures var words := Digits(High(Value(data, from), left), m, to);
            InRange(words, to) && Value(words, to) == High(Value(data, from), left)
  {
    ValueBound(data, from);
    Pow2Positive(left);
    Pow2Add(m * to, left);
    hide Pow2, Value, Digits;
    HighBelow(Value(data, from), Span(m, to), left);
    ValueOfDigits(High(Value(data, from), left), m, to);
  }

  /** The 5-bit image of a byte string, its length and the number it spells. */
  lemma Encoded(bytes: seq<nat>)
    requires InRange(bytes, 8)
    ensures Regroup(bytes, 8, 5, true).Some?
    ensures var ws := Regroup(bytes, 8, 5, true).value;
            var spare := |ws| * 5 - |bytes| * 8;
            && InRange(ws, 5) && 0 <= spare < 5 && Value(ws, 5) == Shift(Value(bytes, 8), spare)
  {
    hide Shift, Pow2, Value, Digits, High, Pending, InRange;
    var total := Value(bytes, 8);
    var left := (|bytes| * 8) % 5;
    var m := (|bytes| * 8) / 5;
    CutAt(bytes, 8, 5, m, left);
    var words := Digits(High(total, left), m, 5);
    if left > 0 {
      PaddedWord(total, left, words);
      assert Regroup(bytes, 8, 5, true) == Some(words + [Pending(total, left, 5)]);
    } else {
      ShiftByNothing(total);
      assert Regroup(bytes, 8, 5, true) == Some(words);
    }
  }

  lemma ShiftByNothing(v: nat)
    ensures High(v, 0) == v == Shift(v, 0)
  {
  }

  /** Appending the pending bits, shifted up, scales the number by the padding. */
  lemma PaddedWord(total: nat, left: nat, words: seq<nat>)
    requires 0 < left < 5
    requires InRange(words, 5) && Value(words, 5) == High(total, left)
    ensures var ws := words + [Pending(total, left, 5)];
            InRange(ws, 5) && Value(ws, 5) == Shift(total, 5 - left)
  {
    hide Value;
    Pow2Positive(5);
    LowBitsShifted(total, left, 5);
    Pow2Add(left, 5 - left);
    Pow2Positive(left);
    Pow2Positive(5 - left);
    hide Pow2;
    ScaledRemainder(total, Pow2(left), Pow2(5 - left));
    AppendDigit(words, Pending(total, left, 5), 5);
  }

  /** Packing bytes into 5-bit words with padding and unpacking them again is the identity. */
  lemma RoundTrip(bytes: seq<nat>)
    requires InRange(bytes, 8)
    ensures Regroup(bytes, 8, 5, true).Some?
    ensures Regroup(Regroup(bytes, 8, 5, true).value, 5, 8, false) == Some(bytes)
  {
    Encoded(bytes);
    var ws := Regroup(bytes, 8, 5, true).value;
    var spare := |ws| * 5 - |bytes| * 8;
    Pow2Positive(spare);
    QuotientIs(|ws| * 5, 8, |bytes|, spare);
    QuotientIs(Value(ws, 5), Pow2(spare), Value(bytes, 8), 0);
    DigitsOfValue(bytes, 8);
  }

  /** Unpacking without padding accepts exactly the padded images of byte strings. */
  lemma AcceptsExactlyImages(ws: seq<nat>)
    ensures Regroup(ws, 5, 8, false).Some? <==>
            exists bytes :: InRange(bytes, 8) && Regroup(bytes, 8, 5, true) == Some(ws)
  {
    if exists bytes :: InRange(bytes, 8) && Regroup(bytes, 8, 5, true) == Some(ws) {
      var bytes :| InRange(bytes, 8) && Regroup(bytes, 8, 5, true) == Some(ws);
      RoundTrip(bytes);
    }
    if Regroup(ws, 5, 8, false).Some? {
      var bytes := Regroup(ws, 5, 8, false).value;
      DecodedBytes(ws);
      Encoded(bytes);
      var ws' := Regroup(bytes, 8, 5, true).value;
      assert |ws'| == |ws|;
      DigitsOfValue(ws, 5);
      DigitsOfValue(ws', 5);
      assert ws' == ws;
    }
  }

  lemma DecodedBytes(ws: seq<nat>)
    requires Regroup(ws, 5, 8, false).Some?
    ensures var bytes := Regroup(ws, 5, 8, false).value;
            var spare := |ws| * 5 - |bytes| * 8;
            && InRange(ws, 5) && InRange(bytes, 8) && 0 <= spare < 5 && Value(ws, 5) == Shift(Value(bytes, 8), spare)
  {
    var total := Value(ws, 5);
    var left := (|ws| * 5) % 8;
    CutAt(ws, 5, 8, (|ws| * 5) / 8, left);
    Pow2Positive(left);
    hide Pow2, Value, Digits, InRange;
    DivFacts(total, Pow2(left));
  }
}
