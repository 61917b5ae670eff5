/** Memory for the sections of an object file: one raw buffer, an aligned base inside it, three sections one
    after the other, and allocation within each section. Addresses are numbers. */
module SectionAllocator {
  import opened Bits
  import opened Regions

  function AlignBy(n: nat, align: nat): nat
    requires align > 0
  {
    AndNot(n + (align - 1), align - 1)
  }

  /** The mask form rounds up to a multiple, and no further than the next one. */
  lemma AlignByRounds(n: nat, align: nat)
    requires IsPow2(align)
    ensures AlignBy(n, align) == RoundUp(n, align) && n <= AlignBy(n, align) < n + align
    ensures AlignBy(n, align) % align == 0
  {
    MaskRounds(n, align);
    RoundUpBounds(n, align);
  }

  /** m is the least multiple of align that is not below n. */
  predicate LeastMultiple(n: nat, align: nat, m: nat) { align > 0 && n <= m < n + align && m % align == 0 }

  class Section {
    var data: nat
    var szb: nat
    var paddedSzb: nat
    ghost var given: seq<Region>

    /** The ranges handed out so far are disjoint and lie in the used part of the section. */
    ghost predicate Valid()
      reads this
    {
      szb <= paddedSzb && AllApart(given) && AllInside(given, data, data + szb)
    }

    constructor ()
      ensures Valid() && given == [] && szb == 0 && paddedSzb == 0
    {
      data, szb, paddedSzb, given := 0, 0, 0, [];
    }

    method SetSize(size: nat, align: nat)
      requires Valid() && szb == 0 && IsPow2(align)
      modifies this
      ensures Valid() && szb == 0 && data == old(data) && given == old(given)
      ensures LeastMultiple(size, align, paddedSzb)
    {
      AlignByRounds(size, align);
      paddedSzb := AlignBy(size, align);
    }

    function Top(): nat
      reads this
    {
      data + paddedSzb
    }

    /** The range returned is new, inside the section, and aligned if the section is. */
    method Alloc(nb: nat, align: nat) returns (ptr: nat)
      requires Valid() && IsPow2(align) && AlignBy(szb, align) + AlignBy(nb, align) <= paddedSzb
      modifies this
      ensures Valid() && data == old(data) && paddedSzb == old(paddedSzb) && given == old(given) + [Region(ptr, nb)]
      ensures ptr == data + AlignBy(old(szb), align) && szb == AlignBy(old(szb), align) + AlignBy(nb, align)
      ensures data % align == 0 ==> ptr % align == 0
    {
      AlignByRounds(szb, align);
      AlignByRounds(nb, align);
      ptr := data + AlignBy(szb, align);
      ApartAppend(given, [Region(ptr, nb)], data, data + szb, ptr + AlignBy(nb, align));
      if data % align == 0 { SumMultiple(data, AlignBy(szb, align), align); }
      szb := (ptr - data) + AlignBy(nb, align);
      given := given + [Region(ptr, nb)];
    }
  }

  class MemManager {
    var mem: nat
    var total: nat
    var base: nat
    const baseAlign: nat
    const code: Section
    const roData: Section
    const rwData: Section
    ghost var padAlign: nat

    /** Three distinct sections tile the memory from the base on, inside the raw buffer; the base is aligned,
        and every section starts at a multiple of the padding from it. */
    ghost predicate Valid()
      reads this, code, roData, rwData
    {
      && code != roData && code != rwData && roData != rwData
      && code.Valid() && roData.Valid() && rwData.Valid()
      && code.data == base && roData.data == code.Top() && rwData.data == roData.Top()
      && mem <= base && rwData.Top() <= mem + total
      && IsPow2(baseAlign) && base % baseAlign == 0
      && IsPow2(padAlign) && code.paddedSzb % padAlign == 0 && roData.paddedSzb % padAlign == 0
    }

    /** All ranges handed out, section by section. */
    ghost function Given(): seq<Region>
      reads this, code, roData, rwData
    {
      code.given + roData.given + rwData.given
    }

    constructor (align: nat)
      requires IsPow2(align)
      ensures baseAlign == align && fresh(code) && fresh(roData) && fresh(rwData)
      ensures code != roData && code != rwData && roData != rwData && Fresh()
    {
      mem, total, base, baseAlign, padAlign := 0, 0, 0, align, 1;
      code := new Section();
      roData := new Section();
      rwData := new Section();
    }

    ghost predicate Fresh()
      reads this, code, roData, rwData
    {
      && code.Valid() && roData.Valid() && rwData.Valid()
      && code.given == roData.given == rwData.given == [] && code.szb == roData.szb == rwData.szb == 0
    }

    function Size(): nat
      reads code, roData, rwData
    {
      code.paddedSzb + roData.paddedSzb + rwData.paddedSzb
    }

    /** The raw buffer is obtained at an address of the allocator's choosing. */
    method ReserveAllocationSpace(codeSzb: nat, codeAlign: nat, roDataSzb: nat, roDataAlign: nat, rwDataSzb: nat,
                                  rwDataAlign: nat, buffer: nat)
      requires Fresh() && code != roData && code != rwData && roData != rwData
      requires IsPow2(baseAlign) && IsPow2(codeAlign) && IsPow2(roDataAlign) && IsPow2(rwDataAlign)
      modifies this, code, roData, rwData
      ensures Valid() && Given() == [] && mem == buffer && total == Size() + baseAlign - 1
      ensures base == RoundUp(buffer, baseAlign)
      ensures padAlign in {8, codeAlign, roDataAlign, rwDataAlign}
      ensures padAlign >= 8 && padAlign >= codeAlign && padAlign >= roDataAlign && padAlign >= rwDataAlign
      ensures LeastMultiple(codeSzb, padAlign, code.paddedSzb)
      ensures LeastMultiple(roDataSzb, padAlign, roData.paddedSzb)
      ensures LeastMultiple(rwDataSzb, padAlign, rwData.paddedSzb)
    {
      assert IsPow2(1) && IsPow2(2) && IsPow2(4) && IsPow2(8);
      var maxAlign := 8;
      if codeAlign > maxAlign { maxAlign := codeAlign; }
      if roDataAlign > maxAlign { maxAlign := roDataAlign; }
      if rwDataAlign > maxAlign { maxAlign := rwDataAlign; }
      hide IsPow2, AlignBy, AllApart, AllInside;
      code.SetSize(codeSzb, maxAlign);
      roData.SetSize(roDataSzb, maxAlign);
      rwData.SetSize(rwDataSzb, maxAlign);
      padAlign := maxAlign;
      PlaceSections(buffer);
    }

    /** Pads the raw buffer so that an aligned base fits, and puts the sections one after the other. */
    method PlaceSections(buffer: nat)
      requires Fresh() && code != roData && code != rwData && roData != rwData && IsPow2(baseAlign) && IsPow2(padAlign)
      requires code.paddedSzb % padAlign == 0 && roData.paddedSzb % padAlign == 0
      modifies this, code`data, roData`data, rwData`data
      ensures Valid() && Given() == [] && mem == buffer && total == Size() + baseAlign - 1 && padAlign == old(padAlign)
      ensures base == RoundUp(mem, baseAlign)
      ensures code.paddedSzb == old(code.paddedSzb) && roData.paddedSzb == old(roData.paddedSzb)
      ensures rwData.paddedSzb == old(rwData.paddedSzb)
    {
      assert baseAlign > 0;
      hide IsPow2, AlignBy;
      var totalSize := Size() + baseAlign - 1;
      mem, total := buffer, totalSize;
      AlignByRounds(mem, baseAlign);
      base := AlignBy(mem, baseAlign);
      code.data := base;
      roData.data := code.Top();
      rwData.data := roData.Top();
    }

    method AllocateCodeSection(szb: nat, align: nat) returns (ptr: nat)
      requires Valid() && IsPow2(align) && AlignBy(code.szb, align) + AlignBy(szb, align) <= code.paddedSzb
      modifies code
      ensures Valid() && code.given == old(code.given) + [Region(ptr, szb)]
      ensures align <= padAlign && align <= baseAlign ==> ptr % align == 0
    {
      if align <= baseAlign { MultipleOfSmaller(base, baseAlign, align); }
      ptr := code.Alloc(szb, align);
    }

    method AllocateDataSection(szb: nat, align: nat, readOnly: bool) returns (ptr: nat)
      requires Valid() && IsPow2(align)
      requires var s := if readOnly then roData else rwData; AlignBy(s.szb, align) + AlignBy(szb, align) <= s.paddedSzb
      modifies if readOnly then roData else rwData
      ensures Valid()
      ensures if readOnly then roData.given == old(roData.given) + [Region(ptr, szb)]
        else rwData.given == old(rwData.given) + [Region(ptr, szb)]
      ensures align <= padAlign && align <= baseAlign ==> ptr % align == 0
    {
      if align <= padAlign && align <= baseAlign { DataAligned(align); }
      if readOnly {
        ptr := roData.Alloc(szb, align);
      } else {
        ptr := rwData.Alloc(szb, align);
      }
    }

    /** Sections start at multiples of every power of two up to both alignments. */
    lemma DataAligned(align: nat)
      requires Valid() && IsPow2(align) && align <= padAlign && align <= baseAlign
      ensures code.data % align == 0 && roData.data % align == 0 && rwData.data % align == 0
    {
      assert align > 0;
      hide IsPow2;
      MultipleOfSmaller(base, baseAlign, align);
      MultipleOfSmaller(code.paddedSzb, padAlign, align);
      MultipleOfSmaller(roData.paddedSzb, padAlign, align);
      SumMultiple(base, code.paddedSzb, align);
      SumMultiple(roData.data, roData.paddedSzb, align);
    }

    /** Whatever has been allocated, all ranges are disjoint and inside the raw buffer. */
    lemma AllDisjoint()
      requires Valid()
      ensures AllApart(Given()) && AllInside(Given(), base, base + Size()) && mem <= base
      ensures base + Size() <= mem + total
    {
      Wider(code.given, code.data, code.data + code.szb, code.Top());
      Wider(roData.given, roData.data, roData.data + roData.szb, roData.Top());
      Wider(rwData.given, rwData.data, rwData.data + rwData.szb, rwData.Top());
      ApartAppend(code.given, roData.given, base, roData.data, rwData.data);
      ApartAppend(code.given + roData.given, rwData.given, base, rwData.data, rwData.Top());
    }
  }

  lemma Wider(rs: seq<Region>, from: int, mid: int, to: int)
    requires AllInside(rs, from, mid) && mid <= to
    ensures AllInside(rs, from, to)
  {}

  lemma MultipleOfSmaller(n: nat, a: nat, b: nat)
    requires IsPow2(a) && IsPow2(b) && b <= a && n % a == 0
    ensures n % b == 0
  {
    Pow2Divides(b, a);
    DivMod(n, a);
    MultipleOf(n / a, a, b);
    assert n / a * a == a * (n / a);
  }
}
