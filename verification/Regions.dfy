/** Ranges of addresses, and multiples. */
module Regions {
  import opened Bits

  datatype Region = Region(lo: int, len: nat)
  {
    predicate Inside(from: int, to: int) { from <= lo && lo + len <= to }
    predicate Apart(r: Region) { lo + len <= r.lo || r.lo + r.len <= lo }
  }

  ghost predicate AllApart(rs: seq<Region>) { forall i, j :: 0 <= i < j < |rs| ==> rs[i].Apart(rs[j]) }

  ghost predicate AllInside(rs: seq<Region>, from: int, to: int) {
    forall i :: 0 <= i < |rs| ==> rs[i].Inside(from, to)
  }

  lemma ApartAppend(xs: seq<Region>, ys: seq<Region>, from: int, mid: int, to: int)
    requires AllApart(xs) && AllApart(ys) && AllInside(xs, from, mid) && AllInside(ys, mid, to) && from <= mid <= to
    ensures AllApart(xs + ys) && AllInside(xs + ys, from, to)
  {
    var all := xs + ys;
    forall i, j | 0 <= i < j < |all| ensures all[i].Apart(all[j]) {
      if i < |xs| <= j {
        assert xs[i].Inside(from, mid) && ys[j - |xs|].Inside(mid, to);
      }
    }
  }

  lemma MultipleOf(k: nat, a: nat, w: nat)
    requires w > 0 && a % w == 0
    ensures k * a % w == 0
  {
    DivMod(a, w);
    assert k * a == w * (k * (a / w)) by { assert k * (w * (a / w)) == w * (k * (a / w)); }
    DivModUnique(k * a, w, k * (a / w), 0);
  }

  lemma DifferenceMultiple(x: nat, y: nat, w: nat)
    requires w > 0 && x % w == 0 && y % w == 0 && y <= x
    ensures (x - y) % w == 0
  {
    DivMod(x, w);
    DivMod(y, w);
    assert x - y == w * (x / w - y / w) by { assert w * (x / w - y / w) == w * (x / w) - w * (y / w); }
    DivModUnique(x - y, w, x / w - y / w, 0);
  }

  lemma SumMultiple(x: nat, y: nat, w: nat)
    requires w > 0 && x % w == 0 && y % w == 0
    ensures (x + y) % w == 0
  {
    DivMod(x, w);
    DivMod(y, w);
    assert x + y == w * (x / w + y / w) by { assert w * (x / w + y / w) == w * (x / w) + w * (y / w); }
    DivModUnique(x + y, w, x / w + y / w, 0);
  }

  lemma LessWord(x: nat, w: nat)
    requires w > 0 && x % w == 0 && x >= w
    ensures (x - w) % w == 0
  {
    DivModUnique(w, w, 1, 0);
    DifferenceMultiple(x, w, w);
  }
}
