/** Arbitrary-precision integers in pickles: a sign and 7-bit digits, regrouped into 32-bit digits. */
module AsdlInteger {
  import opened Common
  import opened Bits
  import opened Streams

  const BASE: nat := 0x1_0000_0000

  /** The number with the given digits, most significant first. */
  function Value(ds: seq<nat>, base: nat): nat {
    if ds == [] then 0 else Value(ds[..|ds| - 1], base) * base + ds[|ds| - 1]
  }

  lemma ValueSnoc(ds: seq<nat>, d: nat, base: nat)
    ensures Value(ds + [d], base) == Value(ds, base) * base + d
  {
    assert (ds + [d])[..|ds|] == ds;
  }

  ghost predicate DigitsBelow(ds: seq<nat>, base: nat) {
    forall i :: 0 <= i < |ds| ==> ds[i] < base
  }

  /** The significant bits of a six-bit digit. */
  function SignificantBits(b: nat): (n: nat)
    requires b < 64
    ensures n <= 6 && b < Pow2(n) && (n > 0 ==> Pow2(n - 1) <= b)
  {
    assert Pow2(0) == 1 && Pow2(1) == 2 && Pow2(2) == 4 && Pow2(3) == 8 && Pow2(4) == 16 && Pow2(5) == 32
      && Pow2(6) == 64;
    if b > 0x1f then 6
    else if b > 0xf then 5
    else if b > 0x7 then 4
    else if b > 0x3 then 3
    else if b > 0x1 then 2
    else if b > 0x0 then 1
    else 0
  }

  /** The bits of a number given in 7-bit digits whose first digit has only six. */
  function NumBits(payload: seq<nat>): nat
    requires payload != [] && payload[0] < 64
  {
    (|payload| - 1) * 7 + SignificantBits(payload[0])
  }

  /** The number of 32-bit digits for n bits. */
  function DigitsFor(n: nat): nat { (n + 31) / 32 }

  // ----- regrouping -----

  /** After the first idx digits: what has been pushed and the w under construction together hold their value;
      w has no more bits than its width minus the bits still to come; those fill the digits to come exactly. */
  ghost predicate Regrouping(payload: seq<nat>, idx: nat, out: seq<nat>, w: nat, avail: nat, width: nat)
    requires 0 < idx <= |payload|
  {
    && 0 < width <= 32 && avail <= width && (out != [] ==> width == 32)
    && w < Pow2(width - avail)
    && DigitsBelow(out, BASE)
    && Value(out, BASE) * Pow2(32 - avail) + w == Value(payload[..idx], 128)
  }

  ghost predicate BudgetExact(nbits: nat, consumed: nat, pushed: nat, avail: nat) {
    pushed < DigitsFor(nbits) && avail + 32 * (DigitsFor(nbits) - pushed - 1) == nbits - consumed
  }

  /** A digit cut in two: its upper part fits the bits available, its lower part is what the mask leaves. */
  lemma CutDigit(b: nat, bits: nat, avail: nat)
    requires b < Pow2(bits) && avail <= bits
    ensures var k := bits - avail;
      Shr(b, k) < Pow2(avail) && And(b, Pow2(k) - 1) < Pow2(k) && Shr(b, k) * Pow2(k) + And(b, Pow2(k) - 1) == b
  {
    hide And, Pow2;
    var p := Pow2(bits - avail);
    LowBits(b, bits - avail);
    DivModTimes(b, p);
    Pow2Adds(avail, bits - avail);
    QuotientLess(b, p, Pow2(avail));
  }

  lemma QuotientLess(x: nat, p: nat, q: nat)
    requires p > 0 && x < q * p
    ensures x / p < q
  {
    DivModTimes(x, p);
    if q <= x / p { MulMonotone(q, x / p, p); }
  }

  lemma MulMonotone(x: nat, y: nat, k: nat)
    requires x <= y
    ensures x * k <= y * k
  {
    assert (y - x) * k == y * k - x * k;
  }

  /** A whole digit fits below w. */
  lemma WholeDigit(payload: seq<nat>, idx: nat, out: seq<nat>, w: nat, avail: nat, width: nat)
    requires 0 < idx < |payload| && Regrouping(payload, idx, out, w, avail, width) && avail >= 7 && payload[idx] < 128
    ensures Or(Shl32(w, 7), payload[idx]) == 128 * w + payload[idx]
    ensures Regrouping(payload, idx + 1, out, 128 * w + payload[idx], avail - 7, width)
  {
    hide Or, Shl32, Pow2, DigitsBelow, Value;
    var b := payload[idx];
    Pow2Of32();
    Shl32Exact(w, width - avail, 7);
    OrAdds(w, b, 7);
    Pow2Adds(width - avail, 7);
    Pow2Adds(32 - avail, 7);
    MulLess(w, Pow2(width - avail), 128);
    assert payload[..idx + 1] == payload[..idx] + [b];
    ValueSnoc(payload[..idx], b, 128);
    Widen(Value(out, BASE), Pow2(32 - avail), w, b);
  }

  lemma Widen(v: nat, p: nat, w: nat, b: nat)
    ensures v * (p * 128) + (128 * w + b) == (v * p + w) * 128 + b
  {
    assert v * (p * 128) == v * p * 128;
  }

  /** A digit is split between w and the next one. */
  lemma SplitDigit(payload: seq<nat>, idx: nat, out: seq<nat>, w: nat, avail: nat, width: nat)
    requires 0 < idx < |payload| && Regrouping(payload, idx, out, w, avail, width) && avail < 7 && payload[idx] < 128
    ensures var excess := 7 - avail; var b := payload[idx];
      var full := Or(Shl32(w, avail), Shr(b, excess)); var rest := And(b, Pow2(excess) - 1);
      full < BASE && Regrouping(payload, idx + 1, out + [full], rest, 32 - excess, 32)
  {
    hide Or, And, Shr, Shl32, Pow2, DigitsBelow, Value;
    var b, e := payload[idx], 7 - avail;
    var full, rest := Or(Shl32(w, avail), Shr(b, e)), And(b, Pow2(e) - 1);
    Pow2Of32();
    CutDigit(b, 7, avail);
    FullDigit(w, width, avail, Shr(b, e));
    Pow2Adds(avail, e);
    Pow2Adds(32 - avail, 7);
    Pow2Adds(32, e);
    assert payload[..idx + 1] == payload[..idx] + [b];
    ValueSnoc(payload[..idx], b, 128);
    ValueSnoc(out, full, BASE);
    Regrouped(Value(out, BASE), Pow2(32 - avail), w, Pow2(avail), Pow2(e), Shr(b, e), rest);
    MoreDigits(out, full);
  }

  lemma MoreDigits(out: seq<nat>, d: nat)
    requires DigitsBelow(out, BASE) && d < BASE
    ensures DigitsBelow(out + [d], BASE)
  {}

  lemma FullDigit(w: nat, width: nat, avail: nat, h: nat)
    requires avail <= width <= 32 && w < Pow2(width - avail) && h < Pow2(avail)
    ensures Or(Shl32(w, avail), h) == w * Pow2(avail) + h < Pow2(width) <= BASE
  {
    hide Or, Shl32, Pow2;
    Pow2Of32();
    Shl32Exact(w, width - avail, avail);
    OrAdds(w, h, avail);
    Pow2Adds(width - avail, avail);
    MulLess(w, Pow2(width - avail), Pow2(avail));
    Pow2Monotone(width, 32);
  }

  lemma Regrouped(v: nat, p: nat, w: nat, a: nat, e: nat, h: nat, rest: nat)
    requires a * e == 128 && p * 128 == BASE * e
    ensures (v * BASE + (w * a + h)) * e + rest == (v * p + w) * 128 + (h * e + rest)
  {
    assert v * BASE * e == v * (p * 128) == v * p * 128;
    assert w * a * e == w * (a * e) == w * 128;
    assert (v * BASE + (w * a + h)) * e == v * BASE * e + w * a * e + h * e;
  }

  /** The first digit starts w, or straddles the boundary of a 32-bit digit. */
  lemma FirstDigit(payload: seq<nat>, avail: nat)
    requires payload != [] && payload[0] < 64 && 0 < avail <= 32
    ensures var b := payload[0]; var first := SignificantBits(b);
      && (avail >= first ==> Regrouping(payload, 1, [], b, avail - first, avail))
      && (avail < first ==> var k := first - avail;
            Shr(b, k) < BASE && Regrouping(payload, 1, [Shr(b, k)], And(b, Pow2(k) - 1), 32 - k, 32))
  {
    hide And, Shr, Pow2;
    var b := payload[0];
    var first := SignificantBits(b);
    assert payload[..1] == [b];
    assert Value([b], 128) == b by { assert [b][..0] == []; assert Value([], 128) == 0; }
    assert Value([], BASE) == 0;
    Pow2Of32();
    if avail < first {
      CutDigit(b, first, avail);
      Pow2Monotone(avail, 32);
      var h := Shr(b, first - avail);
      assert Value([h], BASE) == h by { assert [h][..0] == []; }
    }
  }

  /** The width of the first 32-bit digit leaves exactly the bits of whole digits. */
  lemma FirstBudget(nbits: nat, first: nat, avail: nat)
    requires 0 < nbits && first <= nbits && first <= 6 && avail == (if nbits % 32 == 0 then 32 else nbits % 32)
    ensures avail >= first ==> BudgetExact(nbits, first, 0, avail - first)
    ensures avail < first ==> BudgetExact(nbits, first, 1, 32 - (first - avail))
  {
    assert nbits + 31 == 32 * DigitsFor(nbits) + (nbits + 31) % 32;
    assert avail == nbits - 32 * (DigitsFor(nbits) - 1);
  }

  lemma NextBudget(nbits: nat, consumed: nat, pushed: nat, avail: nat)
    requires BudgetExact(nbits, consumed, pushed, avail) && consumed + 7 <= nbits
    ensures avail >= 7 ==> BudgetExact(nbits, consumed + 7, pushed, avail - 7)
    ensures avail < 7 ==> BudgetExact(nbits, consumed + 7, pushed + 1, 32 - (7 - avail))
  {
    hide DigitsFor;
  }

  lemma SpentBudget(nbits: nat, pushed: nat, avail: nat)
    requires BudgetExact(nbits, nbits, pushed, avail)
    ensures avail == 0 && pushed + 1 == DigitsFor(nbits)
  {
    hide DigitsFor;
  }

  /** Regroups a sign-free number: exactly as many 32-bit digits as its bits need, the same value, and all the
      bits of the last digit used. */
  method Regroup(payload: seq<nat>) returns (out: seq<nat>, availBits: nat)
    requires payload != [] && payload[0] < 64 && DigitsBelow(payload, 128)
    ensures DigitsBelow(out, BASE) && Value(out, BASE) == Value(payload, 128)
    ensures |out| == DigitsFor(NumBits(payload)) && availBits == 0
  {
    hide Or, And, Shr, Shl32, Pow2, Value, Regrouping, BudgetExact, DigitsFor;
    var b := payload[0];
    var firstBits := SignificantBits(b);
    var nbits := (|payload| - 1) * 7 + firstBits;
    assert nbits == NumBits(payload);
    out, availBits := [], 0;
    if nbits > 0 {
      availBits := nbits % 32;
      if availBits == 0 { availBits := 32; }
      ghost var width := availBits;
      FirstDigit(payload, availBits);
      FirstBudget(nbits, firstBits, availBits);
      var w: nat := b;
      if availBits < firstBits {
        var k := firstBits - availBits;
        out := out + [Shr(w, k)];
        assert out == [Shr(b, k)];
        w := And(w, Pow2(k) - 1);
        availBits := 32 - k;
        width := 32;
      } else {
        availBits := availBits - firstBits;
      }
      var idx := 1;
      while idx < |payload|
        invariant 1 <= idx <= |payload| && Regrouping(payload, idx, out, w, availBits, width)
        invariant BudgetExact(nbits, 7 * (idx - 1) + firstBits, |out|, availBits)
      {
        b := payload[idx];
        NextBudget(nbits, 7 * (idx - 1) + firstBits, |out|, availBits);
        if availBits >= 7 {
          WholeDigit(payload, idx, out, w, availBits, width);
          w := Or(Shl32(w, 7), b);
          availBits := availBits - 7;
        } else {
          var excessBits := 7 - availBits;
          SplitDigit(payload, idx, out, w, availBits, width);
          w := Or(Shl32(w, availBits), Shr(b, excessBits));
          out := out + [w];
          availBits := 32 - excessBits;
          w := And(b, Pow2(excessBits) - 1);
          width := 32;
        }
        idx := idx + 1;
      }
      SpentBudget(nbits, |out|, availBits);
      LastDigit(payload, out, w, width, availBits);
      out := out + [w];
    } else {
      ZeroValue(payload);
    }
  }

  lemma LastDigit(payload: seq<nat>, out: seq<nat>, w: nat, width: nat, avail: nat)
    requires payload != [] && Regrouping(payload, |payload|, out, w, avail, width) && avail == 0
    ensures DigitsBelow(out + [w], BASE) && Value(out + [w], BASE) == Value(payload, 128)
  {
    Pow2Of32();
    Pow2Monotone(width, 32);
    ValueSnoc(out, w, BASE);
    assert payload[..|payload|] == payload;
  }

  lemma ZeroValue(payload: seq<nat>)
    requires payload != [] && payload[0] < 64 && NumBits(payload) == 0
    ensures Value(payload, 128) == Value([], BASE) && DigitsFor(0) == 0
  {
    assert |payload| == 1 && payload[0] == 0;
    assert payload[..0] == [];
  }

  // ----- reading -----

  /** 7-bit digits up to and including the first byte without a continuation bit. */
  function ReadDigits(acc: seq<nat>, s: Source): Option<(seq<nat>, Source)>
    decreases |s.data|, s.good
  {
    match NextByte(s)
    case None => None
    case Some((b, s')) => if b >= 128 then ReadDigits(acc + [b % 128], s') else Some((acc + [b], s'))
  }

  /** The sign and the digits of a number; the first byte has only six bits beside sign and continuation. */
  function ReadPayload(s: Source): Option<(bool, seq<nat>, Source)> {
    match NextByte(s)
    case None => None
    case Some((b, s')) =>
      var sign := b / 64 % 2 == 1;
      if b < 128 then Some((sign, [b % 64], s'))
      else match ReadDigits([b % 64], s')
        case None => None
        case Some((ds, s2)) => Some((sign, ds, s2))
  }

  /** The bytes of digits other than the first. */
  function DigitBytes(ds: seq<nat>): seq<byte>
    requires DigitsBelow(ds, 128)
  {
    if ds == [] then [] else [if |ds| == 1 then ds[0] else 128 + ds[0]] + DigitBytes(ds[1..])
  }

  function PayloadBytes(sign: bool, ds: seq<nat>): seq<byte>
    requires ds != [] && ds[0] < 64 && DigitsBelow(ds, 128)
  {
    [ds[0] + (if sign then 64 else 0) + (if |ds| > 1 then 128 else 0)] + DigitBytes(ds[1..])
  }

  lemma ReadDigitStep(acc: seq<nat>, data: seq<byte>)
    requires data != []
    ensures var s := Source(data, true); var s' := Source(data[1..], true);
      ReadDigits(acc, s) == if data[0] >= 128 then ReadDigits(acc + [data[0] % 128], s')
        else Some((acc + [data[0]], s'))
  {}

  lemma {:induction false} DigitBytesRead(acc: seq<nat>, ds: seq<nat>, rest: seq<byte>)
    requires ds != [] && DigitsBelow(ds, 128)
    ensures ReadDigits(acc, Source(DigitBytes(ds) + rest, true)) == Some((acc + ds, Source(rest, true)))
    decreases |ds|
  {
    var s := DigitBytes(ds) + rest;
    assert s[1..] == DigitBytes(ds[1..]) + rest && s[0] == if |ds| == 1 then ds[0] else 128 + ds[0];
    hide ReadDigits;
    if |ds| == 1 {
      assert DigitBytes(ds[1..]) + rest == rest;
      assert ds == [ds[0]];
      ReadDigitStep(acc, s);
    } else {
      DigitBytesRead(acc + [ds[0]], ds[1..], rest);
      ReadDigitStep(acc, s);
      assert acc + [ds[0]] + ds[1..] == acc + ds;
    }
  }

  /** Every sign and every sequence of digits can occur, followed by anything. */
  lemma PayloadRoundTrip(sign: bool, ds: seq<nat>, rest: seq<byte>)
    requires ds != [] && ds[0] < 64 && DigitsBelow(ds, 128)
    ensures ReadPayload(Source(PayloadBytes(sign, ds) + rest, true)) == Some((sign, ds, Source(rest, true)))
  {
    var s := PayloadBytes(sign, ds) + rest;
    assert s[1..] == DigitBytes(ds[1..]) + rest;
    if |ds| == 1 {
      assert DigitBytes(ds[1..]) + rest == rest;
      assert ds == [ds[0]];
    } else {
      DigitBytesRead([ds[0]], ds[1..], rest);
      assert [ds[0]] + ds[1..] == ds;
    }
  }

  // ----- integers -----

  datatype Integer = Integer(sign: bool, digits: seq<nat>)
  {
    function Signed(): int { WithSign(sign, Value(digits, BASE)) }

    ghost predicate Valid() { DigitsBelow(digits, BASE) }

    /** No digit is wasted. */
    predicate Minimal() { digits != [] ==> digits[0] > 0 }

    /** None stands for the failure the original reports by returning true. */
    function ToInt32(): Option<int> {
      if |digits| == 0 then Some(0)
      else if |digits| > 1 then None
      else if sign then (if digits[0] <= 0x8000_0000 then Some(Negated(Cast(digits[0], 0x8000_0000), 0x8000_0000))
        else None)
      else if digits[0] < 0x8000_0000 then Some(Cast(digits[0], 0x8000_0000))
      else None
    }

    function ToInt64(): Option<int> {
      if |digits| == 0 then Some(0)
      else if |digits| == 1 then Some(if sign then Negated(Cast(digits[0], TWO63), TWO63) else Cast(digits[0], TWO63))
      else if |digits| == 2 then
        var un := digits[0] * BASE + digits[1];
        if sign then (if un <= TWO63 then Some(Negated(Cast(un, TWO63), TWO63)) else None)
        else if un <= TWO63 - 1 then Some(Cast(un, TWO63))
        else None
      else None
    }

    /** The unsigned conversions ignore the sign. */
    function ToUInt32(): Option<nat> {
      if |digits| == 0 then Some(0) else if |digits| == 1 then Some(digits[0]) else None
    }

    function ToUInt64(): Option<nat> {
      if |digits| == 0 then Some(0)
      else if |digits| == 1 then Some(digits[0])
      else if |digits| == 2 then Some(digits[0] * BASE + digits[1])
      else None
    }
  }

  const TWO63: int := 0x8000_0000_0000_0000

  function WithSign(sign: bool, v: int): int { if sign then -v else v }

  /** The conversion of an unsigned number to the signed type with the given magnitude of its least value. */
  function Cast(x: int, half: int): int { if x < half then x else x - 2 * half }

  /** Two's-complement negation, under which the least value is its own negation. */
  function Negated(x: int, half: int): int { if x == -half then x else -x }

  lemma ShortValue(ds: seq<nat>)
    ensures |ds| == 0 ==> Value(ds, BASE) == 0
    ensures |ds| == 1 ==> Value(ds, BASE) == ds[0]
    ensures |ds| == 2 ==> Value(ds, BASE) == ds[0] * BASE + ds[1]
  {
    if |ds| == 1 {
      assert ds[..0] == [];
    } else if |ds| == 2 {
      assert ds[..1][..0] == [] && Value(ds[..1], BASE) == ds[0];
    }
  }

  /** A signed conversion succeeds exactly if the digits are few enough and the value is in range. */
  lemma IntsExact(x: Integer)
    requires x.Valid()
    ensures x.ToInt32() == if |x.digits| <= 1 && -0x8000_0000 <= x.Signed() < 0x8000_0000 then Some(x.Signed())
      else None
    ensures x.ToInt64() == if |x.digits| <= 2 && -TWO63 <= x.Signed() < TWO63 then Some(x.Signed()) else None
  {
    ShortValue(x.digits);
  }

  lemma UIntsExact(x: Integer)
    requires x.Valid()
    ensures x.ToUInt32() == if |x.digits| <= 1 then Some(Value(x.digits, BASE)) else None
    ensures x.ToUInt64() == if |x.digits| <= 2 then Some(Value(x.digits, BASE)) else None
  {
    ShortValue(x.digits);
  }

  lemma {:induction false} ValueBounds(ds: seq<nat>)
    requires DigitsBelow(ds, BASE)
    ensures Value(ds, BASE) < Pow2(32 * |ds|)
    ensures ds != [] && ds[0] > 0 ==> Value(ds, BASE) >= Pow2(32 * (|ds| - 1))
    ensures ds != [] && ds[0] == 0 ==> Value(ds, BASE) < Pow2(32 * (|ds| - 1))
  {
    Pow2Of32();
    hide Pow2;
    if ds == [] {
      Pow2Adds(0, 0);
    } else {
      var front, n := ds[..|ds| - 1], |ds| - 1;
      ValueBounds(front);
      Pow2Adds(32 * n, 32);
      MulLess(Value(front, BASE), Pow2(32 * n), BASE);
      if n == 0 {
        Pow2Zero();
      } else {
        Pow2Adds(32 * (n - 1), 32);
        if ds[0] > 0 {
          MulMonotone(Pow2(32 * (n - 1)), Value(front, BASE), BASE);
        } else {
          MulLess(Value(front, BASE), Pow2(32 * (n - 1)), BASE);
        }
      }
    }
  }

  lemma Pow2Zero()
    ensures Pow2(0) == 1
  {}

  /** Without wasted digits, every conversion succeeds exactly on the values of its range. */
  lemma MinimalExact(x: Integer)
    requires x.Valid() && x.Minimal()
    ensures x.ToInt32() == if -0x8000_0000 <= x.Signed() < 0x8000_0000 then Some(x.Signed()) else None
    ensures x.ToInt64() == if -TWO63 <= x.Signed() < TWO63 then Some(x.Signed()) else None
    ensures x.ToUInt32() == if Value(x.digits, BASE) < BASE then Some(Value(x.digits, BASE)) else None
    ensures x.ToUInt64() == if Value(x.digits, BASE) < BASE * BASE then Some(Value(x.digits, BASE)) else None
  {
    IntsExact(x);
    UIntsExact(x);
    ValueBounds(x.digits);
    Pow2Of32();
    Pow2Adds(32, 32);
    hide Pow2;
    if |x.digits| > 1 { Pow2Monotone(32, 32 * (|x.digits| - 1)); }
    if |x.digits| > 2 { Pow2Monotone(64, 32 * (|x.digits| - 1)); }
    if |x.digits| <= 1 { Pow2Monotone(32 * |x.digits|, 32); }
    if |x.digits| <= 2 { Pow2Monotone(32 * |x.digits|, 64); }
  }

  lemma {:induction false} PayloadAtLeast(payload: seq<nat>)
    requires payload != [] && 0 < payload[0] < 64
    ensures NumBits(payload) > 0 && Value(payload, 128) >= Pow2(NumBits(payload) - 1)
    decreases |payload|
  {
    var first := SignificantBits(payload[0]);
    if |payload| == 1 {
      assert payload[..0] == [];
      assert Value(payload, 128) == payload[0];
    } else {
      var front := payload[..|payload| - 1];
      PayloadAtLeast(front);
      Pow2Of32();
      Pow2Adds(NumBits(front) - 1, 7);
      hide Pow2;
      MulMonotone(Pow2(NumBits(front) - 1), Value(front, 128), 128);
    }
  }

  /** A payload that does not start with zero bits is regrouped without wasted digits. */
  lemma RegroupedMinimal(payload: seq<nat>, x: Integer)
    requires payload != [] && 0 < payload[0] < 64 && x.Valid()
    requires Value(x.digits, BASE) == Value(payload, 128) && |x.digits| == DigitsFor(NumBits(payload))
    ensures x.Minimal()
  {
    PayloadAtLeast(payload);
    ValueBounds(x.digits);
    Pow2Monotone(32 * (|x.digits| - 1), NumBits(payload) - 1);
  }

  /** What reading and converting a canonical number amounts to. */
  lemma ReadConverts(sign: bool, payload: seq<nat>, x: Integer)
    requires payload != [] && payload[0] < 64 && (payload[0] > 0 || |payload| == 1) && x.Valid() && x.sign == sign
    requires Value(x.digits, BASE) == Value(payload, 128) && |x.digits| == DigitsFor(NumBits(payload))
    ensures var v := WithSign(sign, Value(payload, 128));
      && x.ToInt64() == (if -TWO63 <= v < TWO63 then Some(v) else None)
      && x.ToInt32() == (if -0x8000_0000 <= v < 0x8000_0000 then Some(v) else None)
  {
    if payload[0] > 0 { RegroupedMinimal(payload, x); }
    MinimalExact(x);
  }

  /** A number with wasted leading digits is refused whatever its value: 64 zero bits before a one. */
  lemma WastedDigits()
    ensures var payload := [0, 0, 0, 0, 0, 0, 0, 0, 0, 0, 1];
      Value(payload, 128) == 1
        && forall x: Integer :: x.Valid() && |x.digits| == DigitsFor(NumBits(payload)) ==> x.ToInt64().None?
  {
    var payload: seq<nat> := [0, 0, 0, 0, 0, 0, 0, 0, 0, 0, 1];
    ZerosValue(payload, 10);
    assert payload == payload[..10] + [1];
    ValueSnoc(payload[..10], 1, 128);
  }

  lemma {:induction false} ZerosValue(ds: seq<nat>, n: nat)
    requires n <= |ds| && forall i :: 0 <= i < n ==> ds[i] == 0
    ensures Value(ds[..n], 128) == 0
  {
    if n > 0 {
      ZerosValue(ds, n - 1);
      assert ds[..n][..n - 1] == ds[..n - 1];
    }
  }

  // ----- from machine integers -----

  function FromUInt32(n: nat): Integer
    requires n < BASE
  {
    Integer(false, if n == 0 then [] else [n])
  }

  /** The magnitude is taken by abs, which is undefined on the least value. */
  function FromInt32(n: int): Integer
    requires -0x8000_0000 < n < 0x8000_0000
  {
    Integer(n < 0, FromUInt32(if n < 0 then -n else n).digits)
  }

  function FromUInt64(n: nat): Integer
    requires n < BASE * BASE
  {
    Integer(false, if n == 0 then [] else if n < BASE then [n] else [n / BASE, n % BASE])
  }

  function FromInt64(n: int): Integer
    requires -TWO63 < n < TWO63
  {
    Integer(n < 0, FromUInt64(if n < 0 then -n else n).digits)
  }

  lemma MachineRoundTrip(n: int)
    requires -TWO63 < n < 2 * TWO63
    ensures n >= 0 ==>
      FromUInt64(n).Valid() && FromUInt64(n).Minimal() && FromUInt64(n).Signed() == n
      && FromUInt64(n).ToUInt64() == Some(n)
    ensures n < TWO63 ==>
      FromInt64(n).Valid() && FromInt64(n).Minimal() && FromInt64(n).Signed() == n && FromInt64(n).ToInt64() == Some(n)
  {
    var m := if n < 0 then -n else n;
    var x := FromUInt64(m);
    ShortValue(x.digits);
    assert m < BASE * BASE;
    assert m / BASE * BASE + m % BASE == m;
    MinimalExact(x);
    if n < TWO63 {
      ShortValue(FromInt64(n).digits);
      MinimalExact(FromInt64(n));
    }
  }

  lemma SmallRoundTrip(n: int)
    requires -0x8000_0000 < n < BASE
    ensures n >= 0 ==>
      var x := FromUInt32(n); x.Valid() && x.Minimal() && x.Signed() == n && x.ToUInt32() == Some(n)
    ensures n < 0x8000_0000 ==>
      var x := FromInt32(n); x.Valid() && x.Minimal() && x.Signed() == n && x.ToInt32() == Some(n)
  {
    if n >= 0 {
      ShortValue(FromUInt32(n).digits);
      MinimalExact(FromUInt32(n));
    }
    if n < 0x8000_0000 {
      ShortValue(FromInt32(n).digits);
      MinimalExact(FromInt32(n));
    }
  }

  // ----- the constructor that reads -----

  method ReadInteger(input: InStream) returns (r: Option<Integer>)
    requires input.Valid()
    modifies input
    ensures input.Valid()
    ensures match ReadPayload(old(input.Rest()))
      case None => r.None?
      case Some((sign, payload, rest)) =>
        && r.Some? && input.Rest() == rest && r.value.sign == sign && r.value.Valid()
        && r.value.Signed() == WithSign(sign, Value(payload, 128))
        && payload != [] && payload[0] < 64 && |r.value.digits| == DigitsFor(NumBits(payload))
  {
    var first := input.GetB();
    if first.None? { return None; }
    var b: byte := first.value;
    ByteFields(b);
    hide And, Value;
    var sign := And(b, 0x40) != 0;
    var digits: seq<nat> := [And(b, 0x3f)];
    if And(b, 0x80) != 0 {
      var all := ReadRest(input, digits);
      if all.None? { return None; }
      digits := all.value;
    }
    var out, _ := Regroup(digits);
    r := Some(Integer(sign, out));
  }

  /** Reading a number and converting it to a signed type: what comes out for every input. */
  method ReadSigned(input: InStream) returns (r: Option<(Option<int>, Option<int>)>)
    requires input.Valid()
    modifies input
    ensures input.Valid()
    ensures match ReadPayload(old(input.Rest()))
      case None => r.None?
      case Some((sign, payload, rest)) =>
        && payload != [] && payload[0] < 64
        && var v, n := WithSign(sign, Value(payload, 128)), DigitsFor(NumBits(payload));
        && input.Rest() == rest && r.Some?
        && r.value.0 == (if n <= 1 && -0x8000_0000 <= v < 0x8000_0000 then Some(v) else None)
        && r.value.1 == (if n <= 2 && -TWO63 <= v < TWO63 then Some(v) else None)
        && (payload[0] > 0 || |payload| == 1 ==>
              && r.value.0 == (if -0x8000_0000 <= v < 0x8000_0000 then Some(v) else None)
              && r.value.1 == (if -TWO63 <= v < TWO63 then Some(v) else None))
  {
    var x := ReadInteger(input);
    if x.None? { return None; }
    r := Some((x.value.ToInt32(), x.value.ToInt64()));
    IntsExact(x.value);
    ghost var (sign, payload, _) := ReadPayload(old(input.Rest())).value;
    if payload[0] > 0 || |payload| == 1 { ReadConverts(sign, payload, x.value); }
  }

  /** The digits that follow as long as there is a continuation bit. */
  method ReadRest(input: InStream, start: seq<nat>) returns (r: Option<seq<nat>>)
    requires input.Valid() && start != [] && DigitsBelow(start, 128)
    modifies input
    ensures input.Valid()
    ensures match ReadDigits(start, old(input.Rest()))
      case None => r.None?
      case Some((ds, rest)) => r == Some(ds) && input.Rest() == rest && start < ds && DigitsBelow(ds, 128)
  {
    hide And;
    ghost var s0 := input.Rest();
    var digits, more := start, true;
    while more
      invariant input.Valid() && (more ==> start <= digits) && (!more ==> start < digits) && DigitsBelow(digits, 128)
      invariant ReadDigits(start, s0) == if more then ReadDigits(digits, input.Rest()) else Some((digits, input.Rest()))
      decreases more, |input.Rest().data|, input.good
    {
      var next := input.GetB();
      if next.None? { return None; }
      ByteFields(next.value);
      digits := digits + [And(next.value, 0x7f)];
      more := And(next.value, 0x80) != 0;
    }
    r := Some(digits);
  }

  lemma ByteFields(b: byte)
    ensures And(b, 0x3f) == b % 64 && And(b, 0x7f) == b % 128
    ensures (And(b, 0x40) != 0 <==> b / 64 % 2 == 1) && (And(b, 0x80) != 0 <==> b >= 128)
  {
    Pow2Of32();
    hide And;
    LowBits(b, 6);
    LowBits(b, 7);
    OneBit(b, 6);
    OneBit(b, 7);
  }
}
