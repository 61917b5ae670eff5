/** Pickling of bounded integers and strings: one to four bytes, with the number of further bytes in the
    first one's top two bits. */
module AsdlCodec {
  import opened Common
  import opened Bits
  import opened Streams

  const TWO29: int := 0x2000_0000
  const TWO30: nat := 0x4000_0000

  // ----- the format -----

  /** The cast to a byte keeps the low bits. */
  function Low(v: nat): byte { v % 256 }

  function High(v: nat): nat { v / 256 }

  /** What is left of v above its n low bytes. */
  function Top(v: nat, n: nat): nat { if n == 0 then v else Top(High(v), n - 1) }

  function LowBytes(v: nat, n: nat): (r: seq<byte>)
    ensures |r| == n
  {
    if n == 0 then [] else LowBytes(High(v), n - 1) + [Low(v)]
  }

  /** The number of further bytes for a value whose first byte holds six bits, or five beside a sign. */
  function ExtraUint(u: nat): nat {
    if u <= 0x3f then 0 else if u <= 0x3fff then 1 else if u <= 0x3f_ffff then 2 else 3
  }

  function ExtraInt(u: nat): nat { if u <= 0x1f then 0 else if u <= 0x1fff then 1 else if u <= 0x1f_ffff then 2 else 3 }

  function EncodeUint(u: nat): (r: seq<byte>)
    requires u < TWO30
    ensures |r| > 0 && |r| == 1 + r[0] / 64
  {
    var n := ExtraUint(u);
    TopSmall(u, n);
    [64 * n + Top(u, n)] + LowBytes(u, n)
  }

  /** Negative numbers are stored as the complement, with the sign in bit 5. */
  function Complement(i: int): nat { if i < 0 then -(i + 1) else i }

  function EncodeInt(i: int): (r: seq<byte>)
    requires -TWO29 <= i < TWO29
    ensures |r| > 0 && |r| == 1 + r[0] / 64
  {
    var u := Complement(i);
    var n := ExtraInt(u);
    TopSmall(u, n);
    [64 * n + (if i < 0 then 32 else 0) + Top(u, n)] + LowBytes(u, n)
  }

  function EncodeString(s: seq<byte>): seq<byte>
    requires |s| < TWO30
  {
    EncodeUint(|s|) + s
  }

  lemma TopSmall(u: nat, n: nat)
    requires n <= 3
    ensures u < TWO30 && n == ExtraUint(u) ==> Top(u, n) < 64
    ensures u < TWO29 && n == ExtraInt(u) ==> Top(u, n) < 32
  {
    TopIs(u);
  }

  lemma TopIs(u: nat)
    ensures Top(u, 0) == u && Top(u, 1) == u / 256 && Top(u, 2) == u / 65536 && Top(u, 3) == u / 16777216
  {
    assert Top(High(High(High(u))), 0) == High(High(High(u))) == Top(High(High(u)), 1) == Top(High(u), 2);
    assert Top(High(u), 1) == Top(High(High(u)), 0) == High(High(u));
  }

  /** n further bytes below v. */
  function ReadMore(v: nat, n: nat, s: Source): Option<(nat, Source)>
    decreases n
  {
    if n == 0 then Some((v, s))
    else match NextByte(s)
      case None => None
      case Some((b, s')) => ReadMore(256 * v + b, n - 1, s')
  }

  function DecodeUint(s: Source): Option<(nat, Source)> {
    match NextByte(s)
    case None => None
    case Some((b0, s')) => ReadMore(b0 % 64, b0 / 64, s')
  }

  function Signed(b0: byte, u: nat): int { if b0 / 32 % 2 == 1 then -(u + 1) else u }

  function DecodeInt(s: Source): Option<(int, Source)> {
    match NextByte(s)
    case None => None
    case Some((b0, s')) =>
      match ReadMore(b0 % 32, b0 / 64, s')
      case None => None
      case Some((u, s2)) => Some((Signed(b0, u), s2))
  }

  function ReadBytes(n: nat, s: Source): Option<(seq<byte>, Source)>
    decreases n
  {
    if n == 0 then Some(([], s))
    else match ReadBytes(n - 1, s)
      case None => None
      case Some((bs, s')) =>
        match NextByte(s')
        case None => None
        case Some((b, s2)) => Some((bs + [b], s2))
  }

  function DecodeString(s: Source): Option<(seq<byte>, Source)> {
    match DecodeUint(s)
    case None => None
    case Some((n, s')) => ReadBytes(n, s')
  }

  // ----- reading back what was written -----

  lemma {:induction false} ReadMoreSnoc(v: nat, n: nat, s: Source)
    ensures ReadMore(v, n + 1, s) ==
      match ReadMore(v, n, s)
      case None => None
      case Some((w, s')) => (match NextByte(s') case None => None case Some((b, s2)) => Some((256 * w + b, s2)))
    decreases n
  {
    if n > 0 {
      match NextByte(s)
      case None =>
      case Some((b, s')) => ReadMoreSnoc(256 * v + b, n - 1, s');
    }
  }

  lemma {:induction false} LowBytesRead(v: nat, n: nat, rest: seq<byte>)
    ensures ReadMore(Top(v, n), n, Source(LowBytes(v, n) + rest, true)) == Some((v, Source(rest, true)))
    decreases n
  {
    if n == 0 {
      assert LowBytes(v, 0) + rest == rest;
    } else {
      var tail := [Low(v)] + rest;
      LowBytesRead(High(v), n - 1, tail);
      assert LowBytes(v, n) + rest == LowBytes(High(v), n - 1) + tail;
      ReadMoreSnoc(Top(v, n), n - 1, Source(LowBytes(v, n) + rest, true));
      assert tail[1..] == rest;
      assert 256 * High(v) + Low(v) == v;
    }
  }

  lemma UintRoundTrip(u: nat, rest: seq<byte>)
    requires u < TWO30
    ensures DecodeUint(Source(EncodeUint(u) + rest, true)) == Some((u, Source(rest, true)))
  {
    var n := ExtraUint(u);
    TopSmall(u, n);
    var s := EncodeUint(u) + rest;
    assert s[1..] == LowBytes(u, n) + rest;
    assert s[0] % 64 == Top(u, n) && s[0] / 64 == n;
    LowBytesRead(u, n, rest);
  }

  lemma IntRoundTrip(i: int, rest: seq<byte>)
    requires -TWO29 <= i < TWO29
    ensures DecodeInt(Source(EncodeInt(i) + rest, true)) == Some((i, Source(rest, true)))
  {
    var u := Complement(i);
    var n := ExtraInt(u);
    TopSmall(u, n);
    var s := EncodeInt(i) + rest;
    assert s[1..] == LowBytes(u, n) + rest;
    assert s[0] % 32 == Top(u, n) && s[0] / 64 == n && (s[0] / 32 % 2 == 1 <==> i < 0);
    LowBytesRead(u, n, rest);
  }

  lemma {:induction false} BytesRead(s: seq<byte>, n: nat, rest: seq<byte>)
    requires n <= |s|
    ensures ReadBytes(n, Source(s + rest, true)) == Some((s[..n], Source(s[n..] + rest, true)))
  {
    if n > 0 {
      BytesRead(s, n - 1, rest);
      assert (s[n - 1..] + rest)[1..] == s[n..] + rest;
      assert s[..n] == s[..n - 1] + [s[n - 1]];
    } else {
      assert s[0..] == s;
    }
  }

  lemma StringRoundTrip(s: seq<byte>, rest: seq<byte>)
    requires |s| < TWO30
    ensures DecodeString(Source(EncodeString(s) + rest, true)) == Some((s, Source(rest, true)))
  {
    assert EncodeString(s) + rest == EncodeUint(|s|) + (s + rest);
    UintRoundTrip(|s|, s + rest);
    BytesRead(s, |s|, rest);
    assert s[..|s|] == s && s[|s|..] + rest == rest;
  }

  // ----- whole pickles -----

  datatype Kind = IntKind | UintKind | StringKind
  datatype Item = AnInt(i: int) | AUint(u: nat) | AString(s: seq<byte>)
  {
    predicate Writable() {
      match this
      case AnInt(i) => -TWO29 <= i < TWO29
      case AUint(u) => u < TWO30
      case AString(s) => |s| < TWO30
    }

    function Kind(): Kind {
      match this case AnInt(_) => IntKind case AUint(_) => UintKind case AString(_) => StringKind
    }

    function Encode(): seq<byte>
      requires Writable()
    {
      match this case AnInt(i) => EncodeInt(i) case AUint(u) => EncodeUint(u) case AString(s) => EncodeString(s)
    }
  }

  function Decode(k: Kind, s: Source): Option<(Item, Source)> {
    match k
    case IntKind => (match DecodeInt(s) case None => None case Some((i, s')) => Some((AnInt(i), s')))
    case UintKind => (match DecodeUint(s) case None => None case Some((u, s')) => Some((AUint(u), s')))
    case StringKind => (match DecodeString(s) case None => None case Some((t, s')) => Some((AString(t), s')))
  }

  lemma RoundTrip(x: Item, rest: seq<byte>)
    requires x.Writable()
    ensures Decode(x.Kind(), Source(x.Encode() + rest, true)) == Some((x, Source(rest, true)))
  {
    match x
    case AnInt(i) => IntRoundTrip(i, rest);
    case AUint(u) => UintRoundTrip(u, rest);
    case AString(s) => StringRoundTrip(s, rest);
  }

  function EncodeAll(xs: seq<Item>): seq<byte>
    requires forall i :: 0 <= i < |xs| ==> xs[i].Writable()
  {
    if xs == [] then [] else xs[0].Encode() + EncodeAll(xs[1..])
  }

  function Kinds(xs: seq<Item>): seq<Kind> { if xs == [] then [] else [xs[0].Kind()] + Kinds(xs[1..]) }

  function DecodeAll(ks: seq<Kind>, s: Source): Option<(seq<Item>, Source)> {
    if ks == [] then Some(([], s))
    else match Decode(ks[0], s)
      case None => None
      case Some((x, s')) =>
        match DecodeAll(ks[1..], s')
        case None => None
        case Some((xs, s2)) => Some(([x] + xs, s2))
  }

  /** Any sequence of mixed values, followed by anything, reads back and leaves exactly what follows. */
  lemma {:induction false} AllRoundTrip(xs: seq<Item>, rest: seq<byte>)
    requires forall i :: 0 <= i < |xs| ==> xs[i].Writable()
    ensures DecodeAll(Kinds(xs), Source(EncodeAll(xs) + rest, true)) == Some((xs, Source(rest, true)))
  {
    if xs == [] {
      assert EncodeAll(xs) + rest == rest;
    } else {
      assert EncodeAll(xs) + rest == xs[0].Encode() + (EncodeAll(xs[1..]) + rest);
      RoundTrip(xs[0], EncodeAll(xs[1..]) + rest);
      AllRoundTrip(xs[1..], rest);
      assert Kinds(xs)[1..] == Kinds(xs[1..]);
      assert [xs[0]] + xs[1..] == xs;
    }
  }

  /** No value's bytes are the start of another's. */
  lemma PrefixFree(x: Item, y: Item, t: seq<byte>)
    requires x.Writable() && y.Writable() && x.Kind() == y.Kind() && x.Encode() == y.Encode() + t
    ensures x == y && t == []
  {
    RoundTrip(x, []);
    RoundTrip(y, t);
    assert x.Encode() + [] == y.Encode() + t;
  }

  // ----- truncated input -----

  lemma {:induction false} ReadMoreFails(v: nat, n: nat, s: Source)
    ensures ReadMore(v, n, s).None? <==> n > |s.data| + (if s.good then 1 else -|s.data|)
    decreases n
  {
    if n > 0 {
      match NextByte(s)
      case None =>
      case Some((b, s')) => ReadMoreFails(256 * v + b, n - 1, s');
    }
  }

  /** A number is rejected only if at least two of its bytes are missing: the first byte past the end reads
      as 255. */
  lemma UintFails(d: seq<byte>)
    ensures DecodeUint(Source(d, true)).None? <==> d == [] || |d| < d[0] / 64
    ensures DecodeInt(Source(d, true)).None? <==> d == [] || |d| < d[0] / 64
  {
    match NextByte(Source(d, true))
    case Some((b, s')) =>
      ReadMoreFails(b % 64, b / 64, s');
      ReadMoreFails(b % 32, b / 64, s');
  }

  /** A number that lost its last byte is still read, as one whose last byte is 255. */
  lemma UintTruncated(u: nat)
    requires 0x3f < u < TWO30
    ensures var e := EncodeUint(u);
      DecodeUint(Source(e[..|e| - 1], true)) == Some((256 * High(u) + 255, Source([], false)))
  {
    var n := ExtraUint(u);
    TopSmall(u, n);
    var e := EncodeUint(u);
    var d := e[..|e| - 1];
    assert d[1..] == LowBytes(u, n)[..n - 1] == LowBytes(High(u), n - 1);
    assert LowBytes(High(u), n - 1) + [] == LowBytes(High(u), n - 1);
    assert d[0] % 64 == Top(u, n) == Top(High(u), n - 1) && d[0] / 64 == n;
    LowBytesRead(High(u), n - 1, []);
    ReadMoreSnoc(Top(u, n), n - 1, Source(d[1..], true));
  }

  lemma {:induction false} ReadMoreBound(v: nat, n: nat, s: Source, m: nat)
    requires v < m && ReadMore(v, n, s).Some?
    ensures ReadMore(v, n, s).value.0 < m * Pow2(8 * n)
    decreases n
  {
    if n > 0 {
      var (b, s') := NextByte(s).value;
      ReadMoreBound(256 * v + b, n - 1, s', 256 * m);
      Pow2Of32();
      Pow2Adds(8, 8 * (n - 1));
      assert 256 * m * Pow2(8 * (n - 1)) == m * Pow2(8 * n);
    }
  }

  /** Whatever the bytes, a number that is read can be written. */
  lemma ReadIsWritable(k: Kind, s: Source)
    requires Decode(k, s).Some? && !k.StringKind?
    ensures Decode(k, s).value.0.Writable()
  {
    var (b, s') := NextByte(s).value;
    assert b / 64 <= 3;
    Pow2Of32();
    Pow2Monotone(8 * (b / 64), 24);
    Pow2Adds(8, 8);
    Pow2Adds(16, 8);
    if k.UintKind? {
      ReadMoreBound(b % 64, b / 64, s', 64);
      assert 64 * Pow2(8 * (b / 64)) <= 64 * Pow2(24);
    } else {
      ReadMoreBound(b % 32, b / 64, s', 32);
      assert 32 * Pow2(8 * (b / 64)) <= 32 * Pow2(24);
    }
  }

  // ----- the code -----

  lemma OrShifted(x: nat, y: nat, k: nat, p: nat)
    requires p == Pow2(k) && y < p
    ensures Or(p * x, y) == p * x + y
  {
    OrAdds(x, y, k);
  }

  lemma TagBits(tag: nat, sign: nat, x: nat)
    requires tag < 4 && sign < 2 && x < 32
    ensures Or(Or(64 * tag, 32 * sign), x) == 64 * tag + 32 * sign + x
  {
    hide Or;
    Pow2Of32();
    OrShifted(tag, 32 * sign, 6, 64);
    OrShifted(2 * tag + sign, x, 5, 32);
  }

  lemma LowBytesAre(u: nat)
    ensures LowBytes(u, 0) == [] && LowBytes(u, 1) == [Low(u)] && LowBytes(u, 2) == [Low(High(u)), Low(u)]
    ensures LowBytes(u, 3) == [Low(High(High(u))), Low(High(u)), Low(u)]
  {
    hide Low, High;
    assert LowBytes(High(u), 0) == [] && LowBytes(High(High(u)), 0) == [] && LowBytes(High(High(High(u))), 0) == [];
    assert LowBytes(High(u), 1) == [Low(High(u))] && LowBytes(High(High(u)), 1) == [Low(High(High(u)))];
    assert LowBytes(High(u), 2) == [Low(High(High(u))), Low(High(u))];
  }

  lemma Shifts(u: nat)
    ensures Shr(u, 0) == u && Shr(u, 8) == High(u) && Shr(u, 16) == High(High(u)) && Shr(u, 24) == High(High(High(u)))
  {
    Pow2Of32();
    Pow2Adds(8, 8);
    Pow2Adds(8, 16);
    HighTwice(u, 256);
    HighTwice(u, 65536);
    assert High(u) / 65536 == High(High(High(u))) by { HighTwice(High(u), 256); }
  }

  lemma HighTwice(u: nat, p: nat)
    requires p > 0
    ensures High(u) / p == u / (256 * p)
  {
    DivMod(u, 256);
    DivMod(u / 256, p);
    DivModUnique(u, 256 * p, u / 256 / p, 256 * (u / 256 % p) + u % 256);
  }

  /** The bytes of a signed integer as the code puts them together. */
  lemma IntBytes(i: int)
    requires -TWO29 <= i < TWO29
    ensures var u := Complement(i); var sign := if i < 0 then 0x20 else 0; var e := EncodeInt(i);
      && (u <= 0x1f ==> e == [Or(sign, u)])
      && (0x1f < u <= 0x1fff ==> e == [Or(Or(0x40, sign), Shr(u, 8)), Low(u)])
      && (0x1fff < u <= 0x1f_ffff ==> e == [Or(Or(0x80, sign), Shr(u, 16)), Low(Shr(u, 8)), Low(u)])
      && (0x1f_ffff < u ==> e == [Or(Or(0xc0, sign), Shr(u, 24)), Low(Shr(u, 16)), Low(Shr(u, 8)), Low(u)])
  {
    hide Or, LowBytes, Top, Low, High, Shr;
    var u, n := Complement(i), ExtraInt(Complement(i));
    TopSmall(u, n);
    LowBytesAre(u);
    TopHighs(u);
    Shifts(u);
    TagBits(n, if i < 0 then 1 else 0, Top(u, n));
    OrZero(if i < 0 then 0x20 else 0);
  }

  lemma TopHighs(u: nat)
    ensures Top(u, 0) == u && Top(u, 1) == High(u) && Top(u, 2) == High(High(u)) && Top(u, 3) == High(High(High(u)))
  {
    hide High;
    assert Top(High(High(High(u))), 0) == High(High(High(u))) == Top(High(High(u)), 1) == Top(High(u), 2);
    assert Top(High(u), 1) == Top(High(High(u)), 0) == High(High(u));
  }

  lemma OrZero(x: nat)
    ensures Or(0, x) == x
  {}

  lemma UintBytes(u: nat)
    requires u < TWO30
    ensures var e := EncodeUint(u);
      && (u <= 0x3f ==> e == [u])
      && (0x3f < u <= 0x3fff ==> e == [Or(0x40, Shr(u, 8)), Low(u)])
      && (0x3fff < u <= 0x3f_ffff ==> e == [Or(0x80, Shr(u, 16)), Low(Shr(u, 8)), Low(u)])
      && (0x3f_ffff < u ==> e == [Or(0xc0, Shr(u, 24)), Low(Shr(u, 16)), Low(Shr(u, 8)), Low(u)])
  {
    hide Or, LowBytes, Top, Low, High, Shr;
    var n := ExtraUint(u);
    TopSmall(u, n);
    LowBytesAre(u);
    TopHighs(u);
    Shifts(u);
    Pow2Of32();
    OrShifted(n, Top(u, n), 6, 64);
  }

  method WriteUint(os: OutStream, ui: nat)
    requires ui < TWO30
    modifies os
    ensures os.data == old(os.data) + EncodeUint(ui)
  {
    UintBytes(ui);
    ghost var e := EncodeUint(ui);
    hide Or, Low, Shr, EncodeUint;
    assert e[0] < 256;
    if ui <= 0x3f {
      os.PutB(ui);
    } else if ui <= 0x3fff {
      os.PutB(Or(0x40, Shr(ui, 8)));
      os.PutB(Low(ui));
    } else if ui <= 0x3f_ffff {
      os.PutB(Or(0x80, Shr(ui, 16)));
      os.PutB(Low(Shr(ui, 8)));
      os.PutB(Low(ui));
    } else {
      os.PutB(Or(0xc0, Shr(ui, 24)));
      os.PutB(Low(Shr(ui, 16)));
      os.PutB(Low(Shr(ui, 8)));
      os.PutB(Low(ui));
    }
  }

  method WriteInt(os: OutStream, i: int)
    requires -TWO29 <= i < TWO29
    modifies os
    ensures os.data == old(os.data) + EncodeInt(i)
  {
    var sign: nat, ui: nat := 0, 0;
    if i < 0 {
      sign, ui := 0x20, -(i + 1);
    } else {
      ui := i;
    }
    PutSigned(os, sign, ui, i);
  }

  /** One to four bytes, with the length and the sign above the most significant one. */
  method PutSigned(os: OutStream, sign: nat, ui: nat, ghost i: int)
    requires -TWO29 <= i < TWO29 && ui == Complement(i) && sign == (if i < 0 then 0x20 else 0)
    modifies os
    ensures os.data == old(os.data) + EncodeInt(i)
  {
    IntBytes(i);
    ghost var e := EncodeInt(i);
    assert e[0] < 256;
    hide *;
    if ui <= 0x1f {
      os.PutB(Or(sign, ui));
    } else if ui <= 0x1fff {
      os.PutB(Or(Or(0x40, sign), Shr(ui, 8)));
      os.PutB(Low(ui));
    } else if ui <= 0x1f_ffff {
      os.PutB(Or(Or(0x80, sign), Shr(ui, 16)));
      os.PutB(Low(Shr(ui, 8)));
      os.PutB(Low(ui));
    } else {
      os.PutB(Or(Or(0xc0, sign), Shr(ui, 24)));
      os.PutB(Low(Shr(ui, 16)));
      os.PutB(Low(Shr(ui, 8)));
      os.PutB(Low(ui));
    }
  }

  method WriteString(os: OutStream, s: seq<byte>)
    requires |s| < TWO30
    modifies os
    ensures os.data == old(os.data) + EncodeString(s)
  {
    WriteUint(os, |s|);
    for i := 0 to |s|
      invariant os.data == old(os.data) + EncodeUint(|s|) + s[..i]
    {
      os.PutB(s[i]);
    }
    assert s[..|s|] == s;
  }

  /** The fields of a first byte. */
  lemma FirstByte(b: byte)
    ensures And(b, 0x3f) == b % 64 && And(b, 0x1f) == b % 32 && (And(b, 0x20) != 0 <==> b / 32 % 2 == 1)
  {
    hide And;
    Pow2Of32();
    LowBits(b, 6);
    LowBits(b, 5);
    OneBit(b, 5);
  }

  lemma ShiftIn(w: nat, b: byte, k: nat)
    requires w < Pow2(k) && k <= 24
    ensures Or(Shl32(w, 8), b) == 256 * w + b < Pow2(k + 8)
  {
    hide Or, Shl32, Pow2;
    Pow2Of32();
    Shl32Exact(w, k, 8);
    OrAdds(w, b, 8);
    Pow2Adds(k, 8);
    MulLess(w, Pow2(k), 256);
  }

  /** The further bytes of a number: the cases for more bytes fall through to those for fewer. */
  method ReadTail(input: InStream, start: nat, extra: nat) returns (v: Option<nat>)
    requires input.Valid() && extra < 4 && start < 64
    modifies input
    ensures input.Valid()
    ensures match ReadMore(start, extra, old(input.Rest()))
      case None => v.None?
      case Some((w, s)) => v == Some(w) && input.Rest() == s
  {
    hide Or, Shl32, Pow2;
    ghost var s0 := input.Rest();
    var w: nat, n: nat := start, extra;
    Pow2Of32();
    Pow2Adds(6, 0);
    while n > 0
      invariant input.Valid() && n <= extra && w < Pow2(6 + 8 * (extra - n))
      invariant ReadMore(start, extra, s0) == ReadMore(w, n, input.Rest())
    {
      var b := input.GetB();
      if b.None? { return None; }
      ShiftIn(w, b.value, 6 + 8 * (extra - n));
      w := Or(Shl32(w, 8), b.value);
      n := n - 1;
    }
    v := Some(w);
  }

  method ReadUint(input: InStream) returns (v: Option<nat>)
    requires input.Valid()
    modifies input
    ensures input.Valid()
    ensures match DecodeUint(old(input.Rest()))
      case None => v.None?
      case Some((u, s)) => v == Some(u) && input.Rest() == s
  {
    var b0 := input.GetB();
    if b0.None? { return None; }
    FirstByte(b0.value);
    hide And;
    v := ReadTail(input, And(b0.value, 0x3f), b0.value / 64);
  }

  method ReadInt(input: InStream) returns (v: Option<int>)
    requires input.Valid()
    modifies input
    ensures input.Valid()
    ensures match DecodeInt(old(input.Rest()))
      case None => v.None?
      case Some((i, s)) => v == Some(i) && input.Rest() == s
  {
    var b0 := input.GetB();
    if b0.None? { return None; }
    FirstByte(b0.value);
    hide And;
    var u := ReadTail(input, And(b0.value, 0x1f), b0.value / 64);
    if u.None? { return None; }
    var i: int := u.value;
    if And(b0.value, 0x20) != 0 { i := -i - 1; }
    v := Some(i);
  }

  method ReadString(input: InStream) returns (t: Option<seq<byte>>)
    requires input.Valid()
    modifies input
    ensures input.Valid()
    ensures match DecodeString(old(input.Rest()))
      case None => t.None?
      case Some((s, rest)) => t == Some(s) && input.Rest() == rest
  {
    var len := ReadUint(input);
    if len.None? { return None; }
    ghost var s0 := input.Rest();
    var result := [];
    for i := 0 to len.value
      invariant input.Valid() && ReadBytes(i, s0) == Some((result, input.Rest()))
    {
      var c := input.GetB();
      if c.None? {
        BytesFail(i + 1, len.value, s0);
        return None;
      }
      result := result + [c.value];
    }
    t := Some(result);
  }

  lemma {:induction false} BytesFail(m: nat, n: nat, s: Source)
    requires m <= n && ReadBytes(m, s).None?
    ensures ReadBytes(n, s).None?
    decreases n
  {
    if m < n { BytesFail(m, n - 1, s); }
  }
}
