/** Generating check lines from the output of several runs: lining up blocks of text that runs share, pruning
    the prefixes that may print a block, and merging similar blocks line by line. */
module McaChecks {
  import opened Common

  // ===== lining up blocks =====

  type Blocks = seq<string>

  /** The text that remains when empty blocks are dropped. */
  function Dense(bs: Blocks): Blocks {
    if bs == [] then [] else Dense(bs[..|bs| - 1]) + (if bs[|bs| - 1] == "" then [] else [bs[|bs| - 1]])
  }

  /** The number of non-empty blocks right after a non-empty block. */
  function Pairs(bs: Blocks): nat {
    if |bs| < 2 then 0
    else Pairs(bs[..|bs| - 1]) + (if bs[|bs| - 2] != "" && bs[|bs| - 1] != "" then 1 else 0)
  }

  function TotalPairs(all: seq<Blocks>): nat {
    if all == [] then 0 else TotalPairs(all[..|all| - 1]) + Pairs(all[|all| - 1])
  }

  lemma {:induction false} DenseAppend(s: Blocks, t: Blocks)
    ensures Dense(s + t) == Dense(s) + Dense(t)
    decreases |t|
  {
    if t == [] {
      assert s + t == s;
    } else {
      assert (s + t)[..|s + t| - 1] == s + t[..|t| - 1];
      DenseAppend(s, t[..|t| - 1]);
    }
  }

  lemma {:induction false} PairsAppend(s: Blocks, t: Blocks)
    ensures Pairs(s + t)
      == Pairs(s) + Pairs(t) + (if s != [] && t != [] && s[|s| - 1] != "" && t[0] != "" then 1 else 0)
    decreases |t|
  {
    if t == [] {
      assert s + t == s;
    } else {
      assert (s + t)[..|s + t| - 1] == s + t[..|t| - 1];
      PairsAppend(s, t[..|t| - 1]);
    }
  }

  function Blanks(n: nat): Blocks { seq(n, _ => "") }

  lemma {:induction false} BlanksCount(n: nat)
    ensures Dense(Blanks(n)) == [] && Pairs(Blanks(n)) == 0
  {
    if n > 0 {
      assert Blanks(n)[..n - 1] == Blanks(n - 1);
      BlanksCount(n - 1);
    }
  }

  function Inserted(bs: Blocks, i: nat, n: nat): Blocks
    requires i <= |bs|
  {
    bs[..i] + Blanks(n) + bs[i..]
  }

  /** Blanks between two non-empty blocks lose no text and separate the two. */
  lemma InsertedCounts(bs: Blocks, i: nat, n: nat)
    requires 0 < i < |bs| && n > 0 && bs[i - 1] != "" && bs[i] != ""
    ensures Dense(Inserted(bs, i, n)) == Dense(bs) && Pairs(Inserted(bs, i, n)) == Pairs(bs) - 1
  {
    assert bs == bs[..i] + bs[i..];
    InsertedDense(bs[..i], n, bs[i..]);
    InsertedPairs(bs[..i], n, bs[i..]);
  }

  lemma InsertedDense(s: Blocks, n: nat, t: Blocks)
    ensures Dense(s + Blanks(n) + t) == Dense(s + t)
  {
    hide Dense;
    BlanksCount(n);
    DenseAppend(s, t);
    DenseAppend(s, Blanks(n));
    DenseAppend(s + Blanks(n), t);
    assert Dense(s) + [] == Dense(s);
  }

  lemma InsertedPairs(s: Blocks, n: nat, t: Blocks)
    requires n > 0 && s != [] && t != [] && s[|s| - 1] != "" && t[0] != ""
    ensures Pairs(s + Blanks(n) + t) == Pairs(s + t) - 1
  {
    hide Pairs;
    BlanksCount(n);
    PairsAppend(s, t);
    PairsAppend(s, Blanks(n));
    PairsAppend(s + Blanks(n), t);
    assert (s + Blanks(n))[|s + Blanks(n)| - 1] == "";
  }

  lemma {:induction false} TotalAt(all: seq<Blocks>, k: nat, bs: Blocks)
    requires k < |all|
    ensures TotalPairs(all[k := bs]) == TotalPairs(all) - Pairs(all[k]) + Pairs(bs)
    decreases |all|
  {
    var n := |all| - 1;
    if k < n {
      assert all[k := bs][..n] == all[..n][k := bs];
      TotalAt(all[..n], k, bs);
    } else {
      assert all[k := bs][..n] == all[..n];
    }
  }

  /** The position of a block's first occurrence. */
  function FirstIndex(bs: Blocks, b: string): (i: nat)
    requires b in bs
    ensures i < |bs| && bs[i] == b && forall j :: 0 <= j < i ==> bs[j] != b
  {
    if bs[0] == b then 0
    else
      assert bs == [bs[0]] + bs[1..];
      1 + FirstIndex(bs[1..], b)
  }

  function Farthest(farthest: map<string, nat>, b: string): nat { if b in farthest then farthest[b] else 0 }

  /** No list has a block's first occurrence beyond the index recorded for it. */
  ghost predicate Recorded(bs: Blocks, n: nat, farthest: map<string, nat>)
    requires n <= |bs|
  {
    forall i :: 0 <= i < n ==> RecordedAt(bs, i, farthest)
  }

  ghost predicate RecordedAt(bs: Blocks, i: nat, farthest: map<string, nat>)
    requires i < |bs|
  {
    bs[i] != "" ==> FirstIndex(bs, bs[i]) <= Farthest(farthest, bs[i])
  }

  /** A non-empty block right after another one stands no earlier than recorded for it. */
  ghost predicate Settled(bs: Blocks, n: nat, farthest: map<string, nat>)
    requires n <= |bs|
  {
    forall i :: 0 < i < n && bs[i - 1] != "" && bs[i] != "" ==> i >= Farthest(farthest, bs[i])
  }

  /** Some list has its first instance of the block at that index. */
  ghost predicate AttainedIn(all: seq<Blocks>, b: string, n: nat) {
    b != "" && exists k :: 0 <= k < |all| && b in all[k] && FirstIndex(all[k], b) == n
  }

  /** Some list has its first instance of the block there or farther back. */
  ghost predicate ReachedIn(all: seq<Blocks>, b: string, n: nat) {
    b != "" && exists k :: 0 <= k < |all| && b in all[k] && FirstIndex(all[k], b) >= n
  }

  /** Recorded indices have only grown, and every new one is that of the block's first instance in some list. */
  ghost predicate Attained(all: seq<Blocks>, before: map<string, nat>, farthest: map<string, nat>) {
    forall b :: Farthest(before, b) <= Farthest(farthest, b)
      && (Farthest(farthest, b) == Farthest(before, b) || AttainedIn(all, b, Farthest(farthest, b)))
  }

  ghost predicate Reached(all: seq<Blocks>, before: map<string, nat>, farthest: map<string, nat>) {
    forall b :: Farthest(before, b) <= Farthest(farthest, b)
      && (Farthest(farthest, b) == Farthest(before, b) || ReachedIn(all, b, Farthest(farthest, b)))
  }

  ghost predicate AllRecorded(all: seq<Blocks>, farthest: map<string, nat>) {
    forall k :: 0 <= k < |all| ==> Recorded(all[k], |all[k]|, farthest)
  }

  /** Position i holds the first block that stands too early right after another one. */
  ghost predicate Unsettled(bs: Blocks, i: nat, farthest: map<string, nat>) {
    && 0 < i < |bs| && Settled(bs, i, farthest)
    && bs[i - 1] != "" && bs[i] != "" && i < Farthest(farthest, bs[i])
  }

  /** The block at position i, and with it all that follows, has moved to position n; blanks fill the gap. */
  ghost predicate MovedTo(bs: Blocks, i: nat, n: nat, moved: Blocks) {
    && i < |bs| && i <= n && |moved| == |bs| + (n - i)
    && moved[..i] == bs[..i] && moved[n..] == bs[i..] && forall j :: i <= j < n ==> moved[j] == ""
  }

  lemma InsertedMoves(bs: Blocks, i: nat, n: nat)
    requires i < |bs| && i <= n
    ensures MovedTo(bs, i, n, Inserted(bs, i, n - i))
  {
    assert Inserted(bs, i, n - i)[n..] == bs[i..];
  }

  /** The first block that stands too early has moved exactly to the index recorded for it. */
  ghost predicate Shunted(bs: Blocks, moved: Blocks, farthest: map<string, nat>) {
    exists i: nat :: Unsettled(bs, i, farthest) && MovedTo(bs, i, Farthest(farthest, bs[i]), moved)
  }

  /** One list has changed, and those before it are settled. */
  ghost predicate ShuntedOne(all: seq<Blocks>, all': seq<Blocks>, farthest: map<string, nat>) {
    exists k :: 0 <= k < |all| == |all'| && all' == all[k := all'[k]] && Shunted(all[k], all'[k], farthest)
      && forall j :: 0 <= j < k ==> Settled(all[j], |all[j]|, farthest)
  }

  /** First instances only move back. */
  lemma FirstMovesBack(bs: Blocks, i: nat, n: nat, moved: Blocks, b: string)
    requires MovedTo(bs, i, n, moved) && b in bs && b != ""
    ensures b in moved && FirstIndex(moved, b) >= FirstIndex(bs, b)
  {
    var j := FirstIndex(bs, b);
    if j < i { assert moved[..i][j] == b; } else { assert moved[n..][j - i] == b; }
    var m := FirstIndex(moved, b);
    if m < i { assert bs[..i][m] == b; } else { assert moved[n..][m - n] == bs[i..][m - n] == b; }
  }

  lemma ReachedStays(all: seq<Blocks>, all': seq<Blocks>, k: nat, i: nat, n: nat, b: string, m: nat)
    requires k < |all| == |all'| && all' == all[k := all'[k]] && MovedTo(all[k], i, n, all'[k]) && ReachedIn(all, b, m)
    ensures ReachedIn(all', b, m)
  {
    hide FirstIndex, MovedTo;
    var j :| 0 <= j < |all| && b in all[j] && FirstIndex(all[j], b) >= m;
    if j == k { FirstMovesBack(all[k], i, n, all'[k], b); }
    assert b in all'[j] && FirstIndex(all'[j], b) >= m;
  }

  lemma StillReached(all: seq<Blocks>, all': seq<Blocks>, before: map<string, nat>, f: map<string, nat>)
    requires Reached(all, before, f) && ShuntedOne(all, all', f)
    ensures Reached(all', before, f)
  {
    var k :| 0 <= k < |all| && all' == all[k := all'[k]] && Shunted(all[k], all'[k], f);
    var i: nat :| Unsettled(all[k], i, f) && MovedTo(all[k], i, Farthest(f, all[k][i]), all'[k]);
    var n := Farthest(f, all[k][i]);
    hide Farthest, MovedTo, ReachedIn, ShuntedOne, Unsettled, Shunted;
    forall b
      ensures Farthest(before, b) <= Farthest(f, b)
      ensures Farthest(f, b) == Farthest(before, b) || ReachedIn(all', b, Farthest(f, b))
    {
      if Farthest(f, b) != Farthest(before, b) { ReachedStays(all, all', k, i, n, b, Farthest(f, b)); }
    }
  }

  lemma ReachedMore(all: seq<Blocks>, before: map<string, nat>, f: map<string, nat>, g: map<string, nat>)
    requires Reached(all, before, f) && Attained(all, f, g)
    ensures Reached(all, before, g)
  {
    hide FirstIndex;
    forall b | Farthest(g, b) != Farthest(before, b) ensures ReachedIn(all, b, Farthest(g, b)) {
      if Farthest(g, b) != Farthest(f, b) { assert AttainedIn(all, b, Farthest(g, b)); }
    }
  }

  /** Where no first instance lies beyond the recorded index, reaching it is standing on it. */
  lemma ReachedAttained(all: seq<Blocks>, before: map<string, nat>, f: map<string, nat>)
    requires Reached(all, before, f) && AllRecorded(all, f)
    ensures Attained(all, before, f)
  {
    forall b | Farthest(f, b) != Farthest(before, b) ensures AttainedIn(all, b, Farthest(f, b)) {
      assert ReachedIn(all, b, Farthest(f, b));
      var k :| 0 <= k < |all| && b in all[k] && FirstIndex(all[k], b) >= Farthest(f, b);
      assert Recorded(all[k], |all[k]|, f);
      assert RecordedAt(all[k], FirstIndex(all[k], b), f) && all[k][FirstIndex(all[k], b)] == b;
    }
  }

  class Aligner {
    var all: seq<Blocks>
    var farthest: map<string, nat>

    constructor (blocks: seq<Blocks>)
      ensures all == blocks && farthest == map[]
    {
      all, farthest := blocks, map[];
    }

    /** Records how far back the first instance of each block stands in any list. */
    method Analyse()
      modifies this`farthest
      ensures AllRecorded(all, farthest) && Attained(all, old(farthest), farthest)
    {
      for k := 0 to |all|
        invariant AllRecorded(all[..k], farthest) && Attained(all, old(farthest), farthest)
      {
        ghost var before := farthest;
        hide *;
        Record(all[k]);
        RecordedMore(all, k, old(farthest), before, farthest);
      }
      assert all[..|all|] == all;
    }

    method Record(bs: Blocks)
      modifies this`farthest
      ensures Recorded(bs, |bs|, farthest) && Later(bs, old(farthest), farthest)
    {
      for i := 0 to |bs|
        invariant Recorded(bs, i, farthest) && Later(bs, old(farthest), farthest)
      {
        var block := bs[i];
        ghost var before := farthest;
        if block != "" {
          var index := FirstIndex(bs, block);
          if index > Farthest(farthest, block) { farthest := farthest[block := index]; }
        }
        RecordedOne(bs, i, old(farthest), before, farthest);
      }
    }

    /** Moves back the first block of a list that stands too early, right after another one. */
    method Shunt(bs: Blocks) returns (moved: Blocks, changed: bool)
      ensures !changed ==> moved == bs && Settled(bs, |bs|, farthest)
      ensures changed ==> Shunted(bs, moved, farthest)
      ensures changed ==> Dense(moved) == Dense(bs) && Pairs(moved) == Pairs(bs) - 1
    {
      hide Dense, Pairs, Inserted, MovedTo, Farthest;
      for i := 0 to |bs|
        invariant Settled(bs, i, farthest)
      {
        var block := bs[i];
        if block != "" && i > 0 && bs[i - 1] != "" {
          var n;
          moved, n := MoveBack(bs, i, Farthest(farthest, block));
          if n > 0 {
            InsertedCounts(bs, i, n);
            InsertedMoves(bs, i, i + n);
            assert Unsettled(bs, i, farthest);
            return moved, true;
          }
        }
      }
      moved, changed := bs, false;
    }

    /** One pass: the analysis is done afresh after every change. */
    method Align() returns (changed: bool)
      modifies this
      ensures |all| == |old(all)| && forall k :: 0 <= k < |all| ==> Dense(all[k]) == Dense(old(all)[k])
      ensures AllRecorded(old(all), farthest) && Attained(old(all), old(farthest), farthest)
      ensures changed ==> TotalPairs(all) == TotalPairs(old(all)) - 1 && ShuntedOne(old(all), all, farthest)
      ensures !changed ==> all == old(all) && forall k :: 0 <= k < |all| ==> Settled(all[k], |all[k]|, farthest)
    {
      hide Dense, Pairs, TotalPairs, AllRecorded, Attained, Settled, Shunted;
      Analyse();
      for k := 0 to |all|
        invariant all == old(all) && AllRecorded(all, farthest) && Attained(all, old(farthest), farthest)
        invariant forall j :: 0 <= j < k ==> Settled(all[j], |all[j]|, farthest)
      {
        var moved;
        moved, changed := Shunt(all[k]);
        if changed {
          TotalAt(all, k, moved);
          all := all[k := moved];
          return;
        }
      }
      changed := false;
    }

    /** Inserts empty blocks until the block stands at its target. */
    method MoveBack(bs: Blocks, i: nat, target: nat) returns (moved: Blocks, n: nat)
      requires i < |bs|
      ensures moved == Inserted(bs, i, n) && n == (if i < target then target - i else 0)
    {
      moved := bs;
      var index := i;
      assert Inserted(bs, i, 0) == bs;
      while index < target
        invariant i <= index && (index <= target || index == i) && moved == Inserted(bs, i, index - i)
      {
        ghost var k := index - i;
        moved := moved[..index] + [""] + moved[index..];
        assert moved == Inserted(bs, i, k + 1);
        index := index + 1;
      }
      n := index - i;
    }

    /** Passes until nothing changes. Only empty blocks have been inserted; the index recorded for a block is the
        greatest at which any list has its first instance, unless a greater one was recorded before; and every
        block right after another one stands at that index or farther back. */
    method AlignAll()
      modifies this
      ensures |all| == |old(all)| && forall k :: 0 <= k < |all| ==> Dense(all[k]) == Dense(old(all)[k])
      ensures AllRecorded(all, farthest) && Attained(all, old(farthest), farthest)
      ensures forall k :: 0 <= k < |all| ==> Settled(all[k], |all[k]|, farthest)
    {
      hide Dense, TotalPairs, AllRecorded, Attained, Settled, ShuntedOne, Reached;
      var madeChanges := true;
      NothingReached(all, farthest);
      while madeChanges
        invariant |all| == |old(all)| && forall k :: 0 <= k < |all| ==> Dense(all[k]) == Dense(old(all)[k])
        invariant Reached(all, old(farthest), farthest)
        invariant !madeChanges ==>
          AllRecorded(all, farthest) && forall k :: 0 <= k < |all| ==> Settled(all[k], |all[k]|, farthest)
        decreases TotalPairs(all), madeChanges
      {
        ghost var all0, f0 := all, farthest;
        madeChanges := Align();
        ReachedMore(all0, old(farthest), f0, farthest);
        if madeChanges { StillReached(all0, all, old(farthest), farthest); }
      }
      ReachedAttained(all, old(farthest), farthest);
    }
  }

  lemma NothingReached(all: seq<Blocks>, f: map<string, nat>)
    ensures Reached(all, f, f)
  {}

  /** Recorded indices have only grown, to indices of first instances in bs. */
  ghost predicate Later(bs: Blocks, f: map<string, nat>, g: map<string, nat>) {
    && (forall b :: Farthest(f, b) <= Farthest(g, b))
    && forall b :: Farthest(g, b) == Farthest(f, b) || (b != "" && b in bs && FirstIndex(bs, b) == Farthest(g, b))
  }

  /** The greater of the recorded index and n is recorded for a block. */
  lemma FarthestAfter(f: map<string, nat>, block: string, n: nat, b: string)
    ensures var g := if n > Farthest(f, block) then f[block := n] else f;
      Farthest(g, b) == if b == block && n > Farthest(f, block) then n else Farthest(f, b)
  {}

  lemma RecordedOne(bs: Blocks, i: nat, start: map<string, nat>, f: map<string, nat>, g: map<string, nat>)
    requires i < |bs| && Recorded(bs, i, f) && Later(bs, start, f)
    requires var n := FirstIndex(bs, bs[i]);
      g == if bs[i] != "" && n > Farthest(f, bs[i]) then f[bs[i] := n] else f
    ensures Recorded(bs, i + 1, g) && Later(bs, start, g)
  {
    var block, n := bs[i], FirstIndex(bs, bs[i]);
    hide *;
    LaterOne(bs, block, n, f, g) by {
      forall b ensures Farthest(g, b) == if b == block != "" && n > Farthest(f, block) then n else Farthest(f, b) {
        FarthestAfter(f, block, n, b);
      }
    }
    RecordedNext(bs, i, f, g);
    LaterTrans(bs, start, f, g);
  }

  lemma LaterOne(bs: Blocks, block: string, n: nat, f: map<string, nat>, g: map<string, nat>)
    requires block in bs && n == FirstIndex(bs, block)
    requires forall b ::
      Farthest(g, b) == if b == block != "" && n > Farthest(f, block) then n else Farthest(f, b)
    ensures Later(bs, f, g) && (block != "" ==> n <= Farthest(g, block))
  {
    hide FirstIndex, Farthest;
  }

  lemma RecordedNext(bs: Blocks, i: nat, f: map<string, nat>, g: map<string, nat>)
    requires i < |bs| && Recorded(bs, i, f) && Later(bs, f, g)
    requires bs[i] != "" ==> FirstIndex(bs, bs[i]) <= Farthest(g, bs[i])
    ensures Recorded(bs, i + 1, g)
  {
    hide FirstIndex, Farthest, Later;
    forall j | 0 <= j < i + 1 ensures RecordedAt(bs, j, g) {
      if j < i { StillRecorded(bs, j, bs, f, g); }
    }
  }

  lemma StillRecorded(bs: Blocks, j: nat, other: Blocks, f: map<string, nat>, g: map<string, nat>)
    requires j < |bs| && RecordedAt(bs, j, f) && Later(other, f, g)
    ensures RecordedAt(bs, j, g)
  {
    hide FirstIndex, Farthest;
    assert Farthest(f, bs[j]) <= Farthest(g, bs[j]);
  }

  lemma LaterTrans(bs: Blocks, f: map<string, nat>, g: map<string, nat>, h: map<string, nat>)
    requires Later(bs, f, g) && Later(bs, g, h)
    ensures Later(bs, f, h)
  {
    hide FirstIndex, Farthest;
    forall b
      ensures Farthest(f, b) <= Farthest(h, b)
      ensures Farthest(h, b) == Farthest(f, b) || (b != "" && b in bs && FirstIndex(bs, b) == Farthest(h, b))
    {
      assert Farthest(f, b) <= Farthest(g, b);
    }
  }

  lemma RecordedLater(bs: Blocks, other: Blocks, f: map<string, nat>, g: map<string, nat>)
    requires Recorded(bs, |bs|, f) && Later(other, f, g)
    ensures Recorded(bs, |bs|, g)
  {
    hide RecordedAt, Later;
    forall i | 0 <= i < |bs| ensures RecordedAt(bs, i, g) { StillRecorded(bs, i, other, f, g); }
  }

  lemma RecordedMore(all: seq<Blocks>, k: nat, start: map<string, nat>, f: map<string, nat>, g: map<string, nat>)
    requires k < |all| && AllRecorded(all[..k], f) && Attained(all, start, f)
    requires Recorded(all[k], |all[k]|, g) && Later(all[k], f, g)
    ensures AllRecorded(all[..k + 1], g) && Attained(all, start, g)
  {
    hide FirstIndex, Farthest;
    var front, more := all[..k], all[..k + 1];
    forall j | 0 <= j < |more| ensures Recorded(more[j], |more[j]|, g) {
      if j < k {
        assert Recorded(front[j], |front[j]|, f);
        RecordedLater(more[j], all[k], f, g);
      }
    }
    forall b | Farthest(g, b) != Farthest(start, b) ensures AttainedIn(all, b, Farthest(g, b)) {
      if Farthest(g, b) != Farthest(f, b) { assert b in all[k]; }
    }
  }
}
