/** Allocation by bumping a pointer: the requests the generated code makes, what each reserves, and what
    holds of any sequence of them. */
module BumpAllocation {
  import opened Common
  import opened Bits
  import opened Regions
  import opened CMRegisters
  import opened TargetIR
  import opened CFG

  /** A record of n words; raw fields; raw bytes; a cell of the store list. */
  datatype Request = Words(n: nat) | Fields(sizes: seq<nat>) | Bytes(tagged: bool, align: nat, len: nat) | StoreCell
  {
    /** Sizes and alignments are powers of two; raw bytes come in words; untagged objects are aligned like words. */
    predicate Valid(w: nat) {
      match this
      case Fields(sizes) => forall i :: 0 <= i < |sizes| ==> IsPow2(sizes[i])
      case Bytes(tagged, align, len) => IsPow2(align) && w > 0 && len % w == 0 && (!tagged ==> align == w)
      case _ => true
    }

    /** Where the header word goes. */
    function Start(w: nat, p: nat): nat {
      match this
      case Bytes(tagged, align, _) => if tagged && align > w then Or(p, align - w) else p
      case _ => p
    }

    /** The allocation pointer afterwards. */
    function Next(w: nat, p: nat): nat {
      match this
      case Words(n) => p + (n + 1) * w
      case Fields(sizes) => p + w + RawRecordBump(w, sizes)
      case Bytes(_, _, len) => Start(w, p) + (len + w)
      case StoreCell => p + 2 * w
    }

    /** The header (or first) word, then the object's parts. */
    function Regions(w: nat, p: nat): seq<Region> {
      match this
      case Words(n) => [Region(p, w)] + seq(n, i requires 0 <= i < n => Region(p + (i + 1) * w, w))
      case Fields(sizes) =>
        [Region(p, w)] + seq(|sizes|, i requires 0 <= i < |sizes| => Region(p + w + FieldOffset(sizes, i), sizes[i]))
      case Bytes(_, _, len) => [Region(Start(w, p), w), Region(Start(w, p) + w, len)]
      case StoreCell => [Region(p, w), Region(p + w, w)]
    }
  }

  predicate Word(w: nat) { w == 4 || w == 8 }

  // ----- fields -----

  /** A field starts at a multiple of its size, after the fields before it, with less padding than its size. */
  lemma FieldPlaced(sizes: seq<nat>, i: nat)
    requires i < |sizes| && sizes[i] > 0
    ensures FieldsEnd(sizes, i) <= FieldOffset(sizes, i) < FieldsEnd(sizes, i) + sizes[i]
    ensures FieldOffset(sizes, i) % sizes[i] == 0 && FieldsEnd(sizes, i + 1) == FieldOffset(sizes, i) + sizes[i]
  {
    RoundUpBounds(FieldsEnd(sizes, i), sizes[i]);
  }

  lemma {:induction false} FieldsGrow(sizes: seq<nat>, i: nat, j: nat)
    requires i <= j <= |sizes| && forall k :: 0 <= k < |sizes| ==> sizes[k] > 0
    ensures FieldsEnd(sizes, i) <= FieldsEnd(sizes, j)
    decreases j
  {
    if i < j {
      FieldsGrow(sizes, i, j - 1);
      FieldPlaced(sizes, j - 1);
    }
  }

  lemma Pow2Positive(sizes: seq<nat>)
    requires forall i :: 0 <= i < |sizes| ==> IsPow2(sizes[i])
    ensures forall i :: 0 <= i < |sizes| ==> sizes[i] > 0
  {
    forall i | 0 <= i < |sizes| ensures sizes[i] > 0 { assert IsPow2(sizes[i]); }
  }

  /** After a raw record the pointer moves by w words of the field area, rounded up to words: as many words as the
      area has bytes. */
  lemma RawBump(w: nat, sizes: seq<nat>)
    requires w > 0
    ensures var end := FieldsEnd(sizes, |sizes|);
      exists k: nat :: RawRecordBump(w, sizes) == k * w && k % w == 0 && end <= k < end + w
  {
    var end := FieldsEnd(sizes, |sizes|);
    RoundUpBounds(end, w);
    var k := RoundUp(end, w);
    assert RawRecordBump(w, sizes) == k * w && k % w == 0 && end <= k < end + w;
  }

  // ----- one request -----

  lemma WordsOk(w: nat, p: nat, n: nat)
    requires Word(w)
    ensures var r := Words(n); AllInside(r.Regions(w, p), p, r.Next(w, p)) && AllApart(r.Regions(w, p))
  {
    var rs := Words(n).Regions(w, p);
    assert forall i :: 0 <= i < |rs| ==> rs[i] == Region(p + i * w, w);
  }

  function FieldRegion(w: nat, p: nat, sizes: seq<nat>, k: nat): Region
    requires k <= |sizes|
  {
    if k == 0 then Region(p, w) else Region(p + w + FieldOffset(sizes, k - 1), sizes[k - 1])
  }

  lemma FieldsOk(w: nat, p: nat, sizes: seq<nat>)
    requires Word(w) && Fields(sizes).Valid(w)
    ensures var r := Fields(sizes); AllInside(r.Regions(w, p), p, r.Next(w, p)) && AllApart(r.Regions(w, p))
  {
    Pow2Positive(sizes);
    var rs := Fields(sizes).Regions(w, p);
    assert |rs| == |sizes| + 1 && forall k :: 0 <= k < |rs| ==> rs[k] == FieldRegion(w, p, sizes, k);
    forall i, j | 0 <= i < j < |rs| ensures rs[i].Apart(rs[j]) {
      FieldRegionsApart(w, p, sizes, i, j);
    }
    forall k | 0 <= k < |rs| ensures rs[k].Inside(p, p + w + RawRecordBump(w, sizes)) {
      FieldRegionInside(w, p, sizes, k);
    }
  }

  lemma FieldRegionsApart(w: nat, p: nat, sizes: seq<nat>, i: nat, j: nat)
    requires i < j <= |sizes| && forall k :: 0 <= k < |sizes| ==> sizes[k] > 0
    ensures FieldRegion(w, p, sizes, i).Apart(FieldRegion(w, p, sizes, j))
  {
    if i > 0 {
      FieldBefore(sizes, i - 1, j - 1);
      FieldPlaced(sizes, j - 1);
    }
  }

  lemma FieldRegionInside(w: nat, p: nat, sizes: seq<nat>, k: nat)
    requires k <= |sizes| && w > 0 && forall i :: 0 <= i < |sizes| ==> sizes[i] > 0
    ensures FieldRegion(w, p, sizes, k).Inside(p, p + w + RawRecordBump(w, sizes))
  {
    var end := FieldsEnd(sizes, |sizes|);
    if k > 0 { FieldBefore(sizes, k - 1, |sizes|); }
    RoundUpBounds(end, w);
    AtLeastItself(RoundUp(end, w), w);
  }

  lemma AtLeastItself(x: nat, k: nat)
    requires k > 0
    ensures x * k >= x
  {
    assert x * k == x * (k - 1) + x;
  }

  lemma FieldBefore(sizes: seq<nat>, i: nat, j: nat)
    requires i < j <= |sizes| && forall k :: 0 <= k < |sizes| ==> sizes[k] > 0
    ensures FieldOffset(sizes, i) + sizes[i] <= FieldsEnd(sizes, j)
  {
    FieldPlaced(sizes, i);
    FieldsGrow(sizes, i + 1, j);
  }

  lemma NextMultiple(p: nat, a: nat)
    requires a > 0
    ensures (p - p % a + a) % a == 0
  {
    DivMod(p, a);
    assert p - p % a + a == a * (p / a + 1);
    DivModUnique(p - p % a + a, a, p / a + 1, 0);
  }

  lemma MultipleDown(n: nat, a: nat, w: nat)
    requires a > 0 && w > 0 && a % w == 0 && n % a == 0
    ensures n % w == 0
  {
    DivModTimes(n, a);
    MultipleOf(n / a, a, w);
  }

  /** The word after a header that was moved lies at a multiple of the alignment. */
  lemma AlignedAfterHeader(w: nat, p: nat, align: nat)
    requires Word(w) && IsPow2(align) && align > w && p % w == 0
    ensures p <= Or(p, align - w) && (Or(p, align - w) + w) % align == 0 && Or(p, align - w) % w == 0
    ensures Or(p, align - w) < p + align
  {
    assert IsPow2(1) && IsPow2(2) && IsPow2(4) && IsPow2(8);
    hide Or, IsPow2;
    OrGap(p, w, align);
    Pow2Divides(w, align);
    NextMultiple(p, align);
    LessWord(p - p % align + align, w) by { MultipleDown(p - p % align + align, align, w); }
    RemainderGap(p, align, w);
  }

  /** A multiple of w leaves at most a - w as its remainder by a multiple a of w. */
  lemma RemainderGap(p: nat, a: nat, w: nat)
    requires a > 0 && w > 0 && a % w == 0 && p % w == 0
    ensures p % a <= a - w
  {
    DivModTimes(p, a);
    MultipleOf(p / a, a, w);
    DifferenceMultiple(p, p / a * a, w);
    var r := p % a;
    DivMod(r, w);
    DivMod(a, w);
    if r > a - w {
      assert r / w < a / w by { QuotientOrder(r, a, w); }
      Scale(w, r / w, a / w - 1);
    }
  }

  lemma QuotientOrder(r: nat, a: nat, w: nat)
    requires r < a && w > 0 && r % w == 0 && a % w == 0
    ensures r / w < a / w
  {
    DivMod(r, w);
    DivMod(a, w);
    if a / w <= r / w { Scale(w, a / w, r / w); }
  }

  lemma Scale(w: nat, x: int, y: int)
    requires x <= y
    ensures w * x <= w * y
  {
    assert w * (y - x) == w * y - w * x;
    assert w * (y - x) >= 0;
  }

  /** Whatever is requested, the pointer stays a multiple of the word and moves past all that is reserved. */
  lemma RequestOk(w: nat, p: nat, r: Request)
    requires Word(w) && r.Valid(w) && p % w == 0
    ensures p <= r.Next(w, p) && r.Next(w, p) % w == 0
    ensures AllInside(r.Regions(w, p), p, r.Next(w, p)) && AllApart(r.Regions(w, p))
  {
    match r
    case Words(n) =>
      WordsOk(w, p, n);
      WordsBump(w, p, n + 1);
    case Fields(sizes) =>
      FieldsOk(w, p, sizes);
      WordsBump(w, p, 1);
      WordsBump(w, p + w, RoundUp(FieldsEnd(sizes, |sizes|), w));
    case Bytes(tagged, align, len) =>
      if tagged && align > w { AlignedAfterHeader(w, p, align); }
      hide Or, IsPow2;
      WordsBump(w, r.Start(w, p), 1);
      SumMultiple(r.Start(w, p) + w, len, w);
    case StoreCell => WordsBump(w, p, 2);
  }

  lemma WordsBump(w: nat, p: nat, n: nat)
    requires w > 0 && p % w == 0
    ensures (p + n * w) % w == 0
  {
    DivModUnique(w, w, 1, 0);
    MultipleOf(n, w, w);
    SumMultiple(p, n * w, w);
  }

  // ----- any sequence of requests -----

  function After(w: nat, p: nat, rs: seq<Request>): nat {
    if rs == [] then p else rs[|rs| - 1].Next(w, After(w, p, rs[..|rs| - 1]))
  }

  function Reserved(w: nat, p: nat, rs: seq<Request>): seq<Region> {
    if rs == [] then []
    else Reserved(w, p, rs[..|rs| - 1]) + rs[|rs| - 1].Regions(w, After(w, p, rs[..|rs| - 1]))
  }

  /** Over any sequence of requests everything reserved is disjoint and lies between the pointer before and the
      pointer after; the pointer never decreases and stays a multiple of the word. */
  lemma {:induction false} SequenceOk(w: nat, p: nat, rs: seq<Request>)
    requires Word(w) && p % w == 0 && forall i :: 0 <= i < |rs| ==> rs[i].Valid(w)
    ensures p <= After(w, p, rs) && After(w, p, rs) % w == 0
    ensures AllApart(Reserved(w, p, rs)) && AllInside(Reserved(w, p, rs), p, After(w, p, rs))
  {
    if rs != [] {
      var front, last := rs[..|rs| - 1], rs[|rs| - 1];
      SequenceOk(w, p, front);
      var q := After(w, p, front);
      RequestOk(w, q, last);
      ApartAppend(Reserved(w, p, front), last.Regions(w, q), p, q, last.Next(w, q));
    }
  }

  // ----- what the generated code does -----

  /** The request behind an allocation. */
  function RequestFor(op: AllocOp, n: nat): Request {
    match op
    case RECORD(_) => Words(n)
    case SPECIAL => Words(1)
    case RAW_RECORD(_, sizes) => Fields(sizes)
    case RAW_ALLOC(tag, align, len) => Bytes(tag.Some?, align, len)
  }

  /** The primitive or is the bitwise one, on addresses. */
  ghost predicate BitwiseOr(prims: Prims) { forall x: nat, y: nat :: prims.orWord(x, y) == Or(x, y) }

  /** An allocation yields the address after its header and leaves the pointer where the request does. */
  lemma AllocRequests(sem: Semantics, op: AllocOp, ws: seq<Word>, s: SState)
    requires |s.regs| == NUM_REGS && AllocArity(op, |ws|) && s.regs[ALLOC_PTR] >= 0 && BitwiseOr(sem.prims)
    ensures var (w, p: nat) := (sem.target.wordSzB, s.regs[ALLOC_PTR]); var r := RequestFor(op, |ws|);
      var (obj, s') := sem.Alloc(op, ws, s);
      |s'.regs| == NUM_REGS && (w > 0 ==> obj == r.Start(w, p) + w && s'.regs == s.regs[ALLOC_PTR := r.Next(w, p)])
  {}

  // ----- the heap limit -----

  ghost predicate NativeWords(prims: Prims) {
    && (forall x, y :: prims.pure(ADD_WORD, [x, y]) == x + y)
    && forall x, y :: prims.uGreater(x, y) <==> x > y
  }

  /** A limit test fails exactly if the amount, but for the slop, still fits below the limit. */
  lemma LimitFits(sem: Semantics, amt: nat, s: SState)
    requires |s.regs| == NUM_REGS && NativeWords(sem.prims)
    ensures var p, limit, slop := s.regs[ALLOC_PTR], s.regs[LIMIT_PTR], sem.target.allocSlopSzb;
      !sem.Test(LIMIT(amt), [], s) <==> p <= limit && p + amt <= limit + slop
  {}

  // ----- what the generated code writes -----

  ghost predicate SameAt(m: Mem, m': Mem, x: int) { (x in m' <==> x in m) && (x in m ==> m'[x] == m[x]) }

  /** A store changes no byte outside its range, and what it leaves there depends on nothing but the store. */
  ghost predicate LocalStores(prims: Prims) {
    && (forall szb: nat, a, v, mem: Mem, x :: !(a <= x < a + szb) ==> SameAt(mem, prims.store(szb, a, v, mem), x))
    && forall szb: nat, a, v, mem: Mem, x :: a <= x < a + szb ==>
         SameAt(prims.store(szb, a, v, map[]), prims.store(szb, a, v, mem), x)
  }

  lemma SameTrans(a: Mem, b: Mem, c: Mem, x: int)
    requires SameAt(a, b, x) && SameAt(b, c, x)
    ensures SameAt(a, c, x)
  {}

  /** A word, or a field, and where it is stored. */
  datatype Part = Part(lo: int, len: nat, v: Word) {
    predicate Has(x: int) { lo <= x < lo + len }
    function Place(): Region { Region(lo, len) }
  }

  function Places(parts: seq<Part>): seq<Region> {
    seq(|parts|, i requires 0 <= i < |parts| => parts[i].Place())
  }

  function StorePart(prims: Prims, part: Part, mem: Mem): Mem { prims.store(part.len, part.lo, part.v, mem) }

  function StoreAll(prims: Prims, parts: seq<Part>, mem: Mem): Mem {
    if parts == [] then mem
    else StorePart(prims, parts[|parts| - 1], StoreAll(prims, parts[..|parts| - 1], mem))
  }

  /** The memory still has every byte of the part as storing it leaves them. */
  ghost predicate Kept(prims: Prims, part: Part, mem: Mem) {
    forall x :: part.Has(x) ==> SameAt(StorePart(prims, part, map[]), mem, x)
  }

  ghost predicate AllKept(prims: Prims, parts: seq<Part>, mem: Mem) {
    forall i :: 0 <= i < |parts| ==> Kept(prims, parts[i], mem)
  }

  lemma {:induction false} StoreAllFrame(prims: Prims, parts: seq<Part>, mem: Mem, x: int)
    requires LocalStores(prims) && forall i :: 0 <= i < |parts| ==> !parts[i].Has(x)
    ensures SameAt(mem, StoreAll(prims, parts, mem), x)
  {
    if parts != [] {
      var front := parts[..|parts| - 1];
      StoreAllFrame(prims, front, mem, x);
      SameTrans(mem, StoreAll(prims, front, mem), StoreAll(prims, parts, mem), x);
    }
  }

  /** Bytes that parts elsewhere do not cover are kept. */
  lemma KeptAfter(prims: Prims, part: Part, parts: seq<Part>, mem: Mem)
    requires LocalStores(prims) && Kept(prims, part, mem)
    requires forall i :: 0 <= i < |parts| ==> part.Place().Apart(parts[i].Place())
    ensures Kept(prims, part, StoreAll(prims, parts, mem))
  {
    forall x | part.Has(x) ensures SameAt(StorePart(prims, part, map[]), StoreAll(prims, parts, mem), x) {
      forall i | 0 <= i < |parts| ensures !parts[i].Has(x) { assert part.Place().Apart(parts[i].Place()); }
      StoreAllFrame(prims, parts, mem, x);
      SameTrans(StorePart(prims, part, map[]), mem, StoreAll(prims, parts, mem), x);
    }
  }

  /** Parts that do not overlap are all there once all are stored. */
  lemma {:induction false} StoreAllKeeps(prims: Prims, parts: seq<Part>, mem: Mem)
    requires LocalStores(prims) && AllApart(Places(parts))
    ensures AllKept(prims, parts, StoreAll(prims, parts, mem))
  {
    if parts != [] {
      var front, last := parts[..|parts| - 1], parts[|parts| - 1];
      assert AllApart(Places(front)) by {
        assert forall i :: 0 <= i < |front| ==> Places(parts)[i] == Places(front)[i];
      }
      StoreAllKeeps(prims, front, mem);
      var mem1 := StoreAll(prims, front, mem);
      StoreOne(prims, last, mem1);
      forall i | 0 <= i < |front| ensures Kept(prims, parts[i], StoreAll(prims, parts, mem)) {
        assert Places(parts)[i].Apart(Places(parts)[|front|]);
        assert Kept(prims, front[i], mem1);
        KeptAfter(prims, parts[i], [last], mem1);
      }
    }
  }

  lemma StoreOne(prims: Prims, part: Part, mem: Mem)
    ensures StoreAll(prims, [part], mem) == StorePart(prims, part, mem)
  {
    assert [part][..0] == [];
  }

  lemma {:induction false} StoreAllFirst(prims: Prims, part: Part, parts: seq<Part>, mem: Mem)
    ensures StoreAll(prims, [part] + parts, mem) == StoreAll(prims, parts, StorePart(prims, part, mem))
  {
    if parts == [] {
      assert [part] + parts == [part];
      StoreOne(prims, part, mem);
    } else {
      var all := [part] + parts;
      assert all[..|all| - 1] == [part] + parts[..|parts| - 1];
      StoreAllFirst(prims, part, parts[..|parts| - 1], mem);
    }
  }

  /** Words in the words after the one at p. */
  function WordParts(w: nat, p: Word, ws: seq<Word>): seq<Part> {
    seq(|ws|, i requires 0 <= i < |ws| => Part(p + (i + 1) * w, w, ws[i]))
  }

  function FieldParts(base: Word, sizes: seq<nat>, ws: seq<Word>): seq<Part>
    requires |sizes| == |ws|
  {
    seq(|ws|, i requires 0 <= i < |ws| => Part(base + FieldOffset(sizes, i), sizes[i], ws[i]))
  }

  lemma {:induction false} WordsStored(sem: Semantics, p: Word, ws: seq<Word>, n: nat, mem: Mem)
    requires n <= |ws|
    ensures sem.StoreWords(p, ws, n, mem) == StoreAll(sem.prims, WordParts(sem.target.wordSzB, p, ws)[..n], mem)
  {
    if n > 0 {
      var parts := WordParts(sem.target.wordSzB, p, ws);
      assert parts[..n][..n - 1] == parts[..n - 1];
      WordsStored(sem, p, ws, n - 1, mem);
    }
  }

  lemma {:induction false} FieldsStored(sem: Semantics, base: Word, sizes: seq<nat>, ws: seq<Word>, n: nat, mem: Mem)
    requires n <= |ws| == |sizes|
    ensures sem.StoreFields(base, sizes, ws, n, mem) == StoreAll(sem.prims, FieldParts(base, sizes, ws)[..n], mem)
  {
    if n > 0 {
      var parts := FieldParts(base, sizes, ws);
      assert parts[..n][..n - 1] == parts[..n - 1];
      FieldsStored(sem, base, sizes, ws, n - 1, mem);
    }
  }

  /** An allocation, or the recording of an assignment. */
  datatype Act = Allocate(op: AllocOp, ws: seq<Word>) | Record(adr: Word)
  {
    predicate Valid(w: nat) { Request().Valid(w) && (Allocate? ==> AllocArity(op, |ws|)) }

    function Request(): Request {
      match this
      case Allocate(op, ws) => RequestFor(op, |ws|)
      case Record(_) => StoreCell
    }

    function Run(sem: Semantics, s: SState): (s': SState)
      requires |s.regs| == NUM_REGS && Valid(sem.target.wordSzB)
      ensures |s'.regs| == NUM_REGS
    {
      match this
      case Allocate(op, ws) => sem.Alloc(op, ws, s).1
      case Record(adr) => sem.RecordStore(adr, s)
    }

    /** What is to be found where, when the act starts with its pointer at p and the given store list. */
    function Parts(w: nat, p: nat, list: Word): seq<Part>
      requires Valid(w)
    {
      match this
      case Allocate(RECORD(desc), ws) => [Part(p, w, desc)] + WordParts(w, p, ws)
      case Allocate(SPECIAL, ws) => [Part(p, w, ws[0])] + WordParts(w, p, ws[1..])
      case Allocate(RAW_RECORD(desc, sizes), ws) => [Part(p, w, desc)] + FieldParts(p + w, sizes, ws)
      case Allocate(RAW_ALLOC(tag, _, _), _) =>
        if tag.Some? then [Part(Request().Start(w, p), w, tag.value)] else []
      case Record(adr) => [Part(p, w, adr), Part(p + w, w, list)]
    }
  }

  /** The parts lie in the regions of the request, one by one. */
  lemma PartsPlaced(act: Act, w: nat, p: nat, list: Word)
    requires act.Valid(w)
    ensures Places(act.Parts(w, p, list)) <= act.Request().Regions(w, p)
  {
    var rs, qs := Places(act.Parts(w, p, list)), act.Request().Regions(w, p);
    assert |rs| <= |qs| && forall i :: 0 <= i < |rs| ==> rs[i] == qs[i];
  }

  lemma RawRecordStores(sem: Semantics, desc: Word, sizes: seq<nat>, ws: seq<Word>, s: SState)
    requires |s.regs| == NUM_REGS && AllocArity(RAW_RECORD(desc, sizes), |ws|)
    ensures var w, p := sem.target.wordSzB, s.regs[ALLOC_PTR];
      sem.Alloc(RAW_RECORD(desc, sizes), ws, s).1.mem
        == StoreAll(sem.prims, [Part(p, w, desc)] + FieldParts(p + w, sizes, ws), s.mem)
  {
    var w, p := sem.target.wordSzB, s.regs[ALLOC_PTR];
    var parts := FieldParts(p + w, sizes, ws);
    assert parts[..|ws|] == parts;
    FieldsStored(sem, p + w, sizes, ws, |ws|, StorePart(sem.prims, Part(p, w, desc), s.mem));
    StoreAllFirst(sem.prims, Part(p, w, desc), parts, s.mem);
    hide StoreAll, FieldParts;
  }

  lemma CellStores(sem: Semantics, adr: Word, s: SState)
    requires |s.regs| == NUM_REGS && s.regs[ALLOC_PTR] >= 0
    ensures var w, p: nat := sem.target.wordSzB, s.regs[ALLOC_PTR]; var s' := sem.RecordStore(adr, s);
      && s'.mem == StoreAll(sem.prims, [Part(p, w, adr), Part(p + w, w, s.regs[STORE_PTR])], s.mem)
      && s'.regs == s.regs[STORE_PTR := p][ALLOC_PTR := StoreCell.Next(w, p)]
  {
    var w, p := sem.target.wordSzB, s.regs[ALLOC_PTR];
    var a, b := Part(p, w, adr), Part(p + w, w, s.regs[STORE_PTR]);
    StoreAllFirst(sem.prims, a, [b], s.mem);
    StoreOne(sem.prims, b, StorePart(sem.prims, a, s.mem));
    assert [a] + [b] == [a, b];
  }

  lemma AllocStores(sem: Semantics, op: AllocOp, ws: seq<Word>, s: SState)
    requires |s.regs| == NUM_REGS && s.regs[ALLOC_PTR] >= 0 && Allocate(op, ws).Valid(sem.target.wordSzB)
    requires BitwiseOr(sem.prims)
    ensures var w, p: nat := sem.target.wordSzB, s.regs[ALLOC_PTR];
      sem.Alloc(op, ws, s).1.mem == StoreAll(sem.prims, Allocate(op, ws).Parts(w, p, s.regs[STORE_PTR]), s.mem)
  {
    var w, p: nat := sem.target.wordSzB, s.regs[ALLOC_PTR];
    hide StoreAll, WordParts, FieldParts;
    match op
    case RECORD(desc) => RecordStores(sem, desc, ws, s);
    case SPECIAL => RecordStores(sem, ws[0], ws[1..], s);
    case RAW_RECORD(desc, sizes) => RawRecordStores(sem, desc, sizes, ws, s);
    case RAW_ALLOC(tag, _, _) =>
      if tag.Some? {
        StoreOne(sem.prims, Part(RequestFor(op, |ws|).Start(w, p), w, tag.value), s.mem);
      } else {
        NoneStored(sem.prims, s.mem);
      }
  }

  lemma NoneStored(prims: Prims, mem: Mem)
    ensures StoreAll(prims, [], mem) == mem
  {}

  /** Recording also makes the cell the new store list. */
  function RegsAfter(act: Act, regs: seq<Word>, p: nat, next: nat): seq<Word>
    requires |regs| == NUM_REGS
  {
    (if act.Record? then regs[STORE_PTR := p] else regs)[ALLOC_PTR := next]
  }

  /** An act stores exactly its parts, and moves the pointer as its request says. */
  lemma ActStores(sem: Semantics, act: Act, s: SState)
    requires |s.regs| == NUM_REGS && s.regs[ALLOC_PTR] >= 0 && act.Valid(sem.target.wordSzB) && Word(sem.target.wordSzB)
    requires BitwiseOr(sem.prims)
    ensures var w, p: nat := sem.target.wordSzB, s.regs[ALLOC_PTR]; var s' := act.Run(sem, s);
      && s'.mem == StoreAll(sem.prims, act.Parts(w, p, s.regs[STORE_PTR]), s.mem)
      && s'.regs == RegsAfter(act, s.regs, p, act.Request().Next(w, p))
  {
    hide StoreAll, WordParts, FieldParts, Or, BitwiseOr;
    match act
    case Allocate(op, ws) =>
      AllocStores(sem, op, ws, s);
      AllocRequests(sem, op, ws, s);
    case Record(adr) => CellStores(sem, adr, s);
  }

  lemma RecordStores(sem: Semantics, desc: Word, ws: seq<Word>, s: SState)
    requires |s.regs| == NUM_REGS
    ensures var w, p := sem.target.wordSzB, s.regs[ALLOC_PTR];
      sem.Record(desc, ws, s).1.mem == StoreAll(sem.prims, [Part(p, w, desc)] + WordParts(w, p, ws), s.mem)
  {
    var w, p := sem.target.wordSzB, s.regs[ALLOC_PTR];
    var parts := WordParts(w, p, ws);
    assert parts[..|ws|] == parts;
    WordsStored(sem, p, ws, |ws|, StorePart(sem.prims, Part(p, w, desc), s.mem));
    StoreAllFirst(sem.prims, Part(p, w, desc), parts, s.mem);
  }

  /** Every part is written in its own region, between the pointer before and the pointer after; nothing else is
      written. */
  lemma ActWrites(sem: Semantics, act: Act, s: SState)
    requires |s.regs| == NUM_REGS && s.regs[ALLOC_PTR] >= 0 && act.Valid(sem.target.wordSzB) && Word(sem.target.wordSzB)
    requires s.regs[ALLOC_PTR] % sem.target.wordSzB == 0 && BitwiseOr(sem.prims) && LocalStores(sem.prims)
    ensures var w, p: nat := sem.target.wordSzB, s.regs[ALLOC_PTR]; var s' := act.Run(sem, s);
      var parts := act.Parts(w, p, s.regs[STORE_PTR]);
      && Places(parts) <= act.Request().Regions(w, p) && AllApart(Places(parts))
      && s'.regs == RegsAfter(act, s.regs, p, act.Request().Next(w, p))
      && p <= s'.regs[ALLOC_PTR] && s'.regs[ALLOC_PTR] % w == 0
      && AllInside(Places(parts), p, s'.regs[ALLOC_PTR])
      && s'.mem == StoreAll(sem.prims, parts, s.mem) && AllKept(sem.prims, parts, s'.mem)
      && forall x :: !(p <= x < s'.regs[ALLOC_PTR]) ==> SameAt(s.mem, s'.mem, x)
  {
    var w, p: nat := sem.target.wordSzB, s.regs[ALLOC_PTR];
    var parts := act.Parts(w, p, s.regs[STORE_PTR]);
    ActStores(sem, act, s);
    RequestOk(w, p, act.Request());
    PartsPlaced(act, w, p, s.regs[STORE_PTR]);
    var s' := act.Run(sem, s);
    assert s'.regs[ALLOC_PTR] == act.Request().Next(w, p);
    hide *;
    PrefixApart(Places(parts), act.Request().Regions(w, p), p, s'.regs[ALLOC_PTR]);
    StoreAllKeeps(sem.prims, parts, s.mem);
    forall x | !(p <= x < s'.regs[ALLOC_PTR]) ensures SameAt(s.mem, s'.mem, x) {
      OutsideAll(parts, p, s'.regs[ALLOC_PTR], x);
      StoreAllFrame(sem.prims, parts, s.mem, x);
    }
  }

  lemma PrefixApart(rs: seq<Region>, qs: seq<Region>, from: int, to: int)
    requires rs <= qs && AllApart(qs) && AllInside(qs, from, to)
    ensures AllApart(rs) && AllInside(rs, from, to)
  {}

  lemma OutsideAll(parts: seq<Part>, from: int, to: int, x: int)
    requires AllInside(Places(parts), from, to) && !(from <= x < to)
    ensures forall i :: 0 <= i < |parts| ==> !parts[i].Has(x)
  {
    forall i | 0 <= i < |parts| ensures !parts[i].Has(x) { assert Places(parts)[i].Inside(from, to); }
  }

  // ----- any sequence of allocations -----

  predicate AllValid(acts: seq<Act>, w: nat) { forall i :: 0 <= i < |acts| ==> acts[i].Valid(w) }

  lemma ValidSplit(acts: seq<Act>, w: nat)
    requires AllValid(acts, w) && acts != []
    ensures AllValid(acts[..|acts| - 1], w) && acts[|acts| - 1].Valid(w)
  {}

  function RunAll(sem: Semantics, acts: seq<Act>, s: SState): (s': SState)
    requires |s.regs| == NUM_REGS && AllValid(acts, sem.target.wordSzB)
    ensures |s'.regs| == NUM_REGS
  {
    if acts == [] then s
    else (ValidSplit(acts, sem.target.wordSzB); acts[|acts| - 1].Run(sem, RunAll(sem, acts[..|acts| - 1], s)))
  }

  function AddressOf(s: SState): nat
    requires |s.regs| == NUM_REGS
  {
    if s.regs[ALLOC_PTR] >= 0 then s.regs[ALLOC_PTR] else 0
  }

  /** The parts of all acts, each act starting from the state the acts before it leave. */
  function AllParts(sem: Semantics, acts: seq<Act>, s: SState): seq<Part>
    requires |s.regs| == NUM_REGS && AllValid(acts, sem.target.wordSzB)
  {
    if acts == [] then []
    else
      ValidSplit(acts, sem.target.wordSzB);
      var s1 := RunAll(sem, acts[..|acts| - 1], s);
      AllParts(sem, acts[..|acts| - 1], s)
        + acts[|acts| - 1].Parts(sem.target.wordSzB, AddressOf(s1), s1.regs[STORE_PTR])
  }

  /** A load gives the word whose bytes are stored there. */
  ghost predicate LoadsBack(prims: Prims, w: nat) {
    forall a, v, mem: Mem :: Kept(prims, Part(a, w, v), mem) ==> prims.load(a, mem) == v
  }

  /** After any sequence of allocations and recordings every part of every one of them is in memory. */
  lemma {:induction false} PartsKept(sem: Semantics, acts: seq<Act>, s: SState)
    requires |s.regs| == NUM_REGS && s.regs[ALLOC_PTR] >= 0 && Word(sem.target.wordSzB)
    requires AllValid(acts, sem.target.wordSzB) && s.regs[ALLOC_PTR] % sem.target.wordSzB == 0
    requires BitwiseOr(sem.prims) && LocalStores(sem.prims)
    ensures var s', parts := RunAll(sem, acts, s), AllParts(sem, acts, s);
      && s.regs[ALLOC_PTR] <= s'.regs[ALLOC_PTR] && s'.regs[ALLOC_PTR] % sem.target.wordSzB == 0
      && AllKept(sem.prims, parts, s'.mem) && AllInside(Places(parts), s.regs[ALLOC_PTR], s'.regs[ALLOC_PTR])
  {
    RunAllUnfold(sem, acts, s);
    if acts != [] {
      var front, last := acts[..|acts| - 1], acts[|acts| - 1];
      var s1, s' := RunAll(sem, front, s), RunAll(sem, acts, s);
      hide *;
      PartsKept(sem, front, s);
      ActWrites(sem, last, s1);
      var parts, more := AllParts(sem, front, s), last.Parts(sem.target.wordSzB, AddressOf(s1), s1.regs[STORE_PTR]);
      MoreKept(sem.prims, parts, more, s1.mem, s.regs[ALLOC_PTR], s1.regs[ALLOC_PTR], s'.regs[ALLOC_PTR]);
    }
  }

  lemma RunAllUnfold(sem: Semantics, acts: seq<Act>, s: SState)
    requires |s.regs| == NUM_REGS && AllValid(acts, sem.target.wordSzB)
    ensures acts == [] ==> RunAll(sem, acts, s) == s && AllParts(sem, acts, s) == []
    ensures acts != [] ==>
      var front, last := acts[..|acts| - 1], acts[|acts| - 1];
      && AllValid(front, sem.target.wordSzB) && last.Valid(sem.target.wordSzB)
      && var s1 := RunAll(sem, front, s);
      && RunAll(sem, acts, s) == last.Run(sem, s1) && (s1.regs[ALLOC_PTR] >= 0 ==> AddressOf(s1) == s1.regs[ALLOC_PTR])
      && AllParts(sem, acts, s)
           == AllParts(sem, front, s) + last.Parts(sem.target.wordSzB, AddressOf(s1), s1.regs[STORE_PTR])
  {}

  /** Parts stored above others leave them alone. */
  lemma MoreKept(prims: Prims, parts: seq<Part>, more: seq<Part>, mem: Mem, from: int, mid: int, to: int)
    requires LocalStores(prims) && AllKept(prims, parts, mem) && AllKept(prims, more, StoreAll(prims, more, mem))
    requires AllInside(Places(parts), from, mid) && AllInside(Places(more), mid, to) && from <= mid <= to
    ensures AllKept(prims, parts + more, StoreAll(prims, more, mem)) && AllInside(Places(parts + more), from, to)
  {
    var all := parts + more;
    forall i | 0 <= i < |all| ensures Kept(prims, all[i], StoreAll(prims, more, mem)) {
      if i < |parts| {
        assert Places(parts)[i].Inside(from, mid);
        forall j | 0 <= j < |more| ensures parts[i].Place().Apart(more[j].Place()) {
          assert Places(more)[j].Inside(mid, to);
        }
        KeptAfter(prims, parts[i], more, mem);
      }
    }
    forall i | 0 <= i < |all| ensures Places(all)[i].Inside(from, to) {
      if i < |parts| {
        assert Places(parts)[i].Inside(from, mid);
      } else {
        assert Places(more)[i - |parts|].Inside(mid, to);
      }
    }
  }

  /** Every word of every one of them can be loaded. */
  lemma ReadBack(sem: Semantics, acts: seq<Act>, s: SState, i: nat)
    requires |s.regs| == NUM_REGS && s.regs[ALLOC_PTR] >= 0 && Word(sem.target.wordSzB)
    requires AllValid(acts, sem.target.wordSzB) && s.regs[ALLOC_PTR] % sem.target.wordSzB == 0
    requires BitwiseOr(sem.prims) && LocalStores(sem.prims) && LoadsBack(sem.prims, sem.target.wordSzB)
    requires i < |AllParts(sem, acts, s)| && AllParts(sem, acts, s)[i].len == sem.target.wordSzB
    ensures var part := AllParts(sem, acts, s)[i]; sem.prims.load(part.lo, RunAll(sem, acts, s).mem) == part.v
  {
    PartsKept(sem, acts, s);
    var part := AllParts(sem, acts, s)[i];
    assert part == Part(part.lo, sem.target.wordSzB, part.v);
  }
}
