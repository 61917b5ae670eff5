/** The generator of the simple case-folding function: a sorted table of mappings becomes a sequence of
    checks, one block of equally spaced mappings with the same shift at a time. */
module CaseFold {
  import opened Common
  import opened Bits

  /** A character and what it folds to. */
  type Mapping = (int, int)

  function Shift(m: Mapping): int { m.1 - m.0 }

  /** The distance between the first two mappings of a block. */
  function Stride(b: seq<Mapping>): int
    requires |b| > 1
  {
    b[1].0 - b[0].0
  }

  /** The mapped value, or the character itself. */
  function Fold(ms: seq<Mapping>, c: int): int {
    if ms == [] then c
    else if ms[|ms| - 1].0 == c then ms[|ms| - 1].1
    else Fold(ms[..|ms| - 1], c)
  }

  predicate Mapped(ms: seq<Mapping>, c: int) { exists i :: 0 <= i < |ms| && ms[i].0 == c }

  predicate Increasing(ms: seq<Mapping>) {
    (ms != [] ==> ms[0].0 >= 0) && forall i, j :: 0 <= i < j < |ms| ==> ms[i].0 < ms[j].0
  }

  lemma {:induction false} FoldIs(ms: seq<Mapping>, c: int)
    requires Increasing(ms)
    ensures !Mapped(ms, c) ==> Fold(ms, c) == c
    ensures forall i :: 0 <= i < |ms| && ms[i].0 == c ==> Fold(ms, c) == ms[i].1
  {
    if ms != [] {
      var front := ms[..|ms| - 1];
      FoldIs(front, c);
      if Mapped(front, c) {
        var i :| 0 <= i < |front| && front[i].0 == c;
        assert ms[i].0 == c;
      }
    }
  }

  // ----- the emitted code -----

  /** One emitted if statement. */
  datatype Check =
    | IfEqual(at: int, to: int)                          // if (C == at) return to
    | IfBelow(bound: int)                                // if (C < bound) return C
    | IfInStride(last: int, stride: int, modulo: int, shift: int)  // if (C <= last && C % stride == modulo) ...
    | IfOdd(last: int)                                   // if (C <= last) return C | 1
    | IfUpTo(last: int, shift: int)                      // if (C <= last) return C + shift

  /** The remainder in C has the sign of the dividend. */
  function CRem(c: int, m: int): int
    requires m > 0
  {
    if c >= 0 then c % m else -(-c % m)
  }

  /** C | 1 in two's complement. */
  function OrOne(c: int): int { if c % 2 == 0 then c + 1 else c }

  function RunCheck(k: Check, c: int): Option<int>
    requires k.IfInStride? ==> k.stride > 0
  {
    match k
    case IfEqual(at, to) => if c == at then Some(to) else None
    case IfBelow(bound) => if c < bound then Some(c) else None
    case IfInStride(last, stride, modulo, shift) =>
      if c <= last && CRem(c, stride) == modulo then Some(c + shift) else None
    case IfOdd(last) => if c <= last then Some(OrOne(c)) else None
    case IfUpTo(last, shift) => if c <= last then Some(c + shift) else None
  }

  predicate Runnable(code: seq<Check>) { forall i :: 0 <= i < |code| && code[i].IfInStride? ==> code[i].stride > 0 }

  /** None if no check returns. */
  function Run(code: seq<Check>, c: int): Option<int>
    requires Runnable(code)
  {
    if code == [] then None
    else
      var before := Run(code[..|code| - 1], c);
      if before.Some? then before else RunCheck(code[|code| - 1], c)
  }

  /** The emitted function ends by returning its argument. */
  function Exec(code: seq<Check>, c: int): int
    requires Runnable(code)
  {
    match Run(code, c) case None => c case Some(v) => v
  }

  lemma RunSnoc(code: seq<Check>, k: Check, c: int)
    requires Runnable(code) && Runnable([k])
    ensures Runnable(code + [k])
    ensures [k][0] == k && Run(code + [k], c) == if Run(code, c).Some? then Run(code, c) else RunCheck(k, c)
  {
    assert (code + [k])[..|code|] == code;
    assert [k][0] == k;
    assert (code + [k])[|code|] == k;
  }

  // ----- blocks -----

  /** Mappings with the same shift, equally spaced. */
  ghost predicate IsBlock(b: seq<Mapping>) {
    && b != [] && b[0].0 >= 0 && (forall i :: 0 <= i < |b| ==> Shift(b[i]) == Shift(b[0]))
    && (|b| > 1 ==> Stride(b) > 0 && forall i :: 0 <= i < |b| ==> b[i].0 == b[0].0 + i * Stride(b))
  }

  function Last(b: seq<Mapping>): int
    requires b != []
  {
    if |b| == 1 then b[0].0 else b[0].0 + Stride(b) * (|b| - 1)
  }

  function BlockCheck(b: seq<Mapping>): Check
    requires b != [] && (|b| > 1 ==> Stride(b) > 0)
  {
    if |b| == 1 then IfEqual(b[0].0, b[0].1)
    else if Stride(b) == 2 && Shift(b[0]) == 1 && b[0].0 % Stride(b) == 0 then IfOdd(Last(b))
    else if Stride(b) == 1 then IfUpTo(Last(b), Shift(b[0]))
    else IfInStride(Last(b), Stride(b), b[0].0 % Stride(b), Shift(b[0]))
  }

  /** A block of one needs no lower bound: the next larger block's check returns what lies before it. */
  function BlockCode(b: seq<Mapping>): seq<Check>
    requires b != [] && (|b| > 1 ==> Stride(b) > 0)
  {
    if |b| == 1 then [BlockCheck(b)] else [IfBelow(b[0].0), BlockCheck(b)]
  }

  lemma InStride(first: int, stride: int, n: nat, c: int)
    requires first >= 0 && stride > 0 && n > 0 && first <= c
    ensures c <= first + stride * (n - 1) && c % stride == first % stride <==>
      exists k: nat :: k < n && c == first + k * stride
  {
    if c <= first + stride * (n - 1) && c % stride == first % stride {
      DivMod(c, stride);
      DivMod(first, stride);
      var k := c / stride - first / stride;
      Distribute(stride, c / stride, first / stride);
      assert c == first + k * stride;
      if k < 0 { Monotone(stride, k, -1); }
      if k >= n { Monotone(stride, n, k); }
      Distribute(stride, n, 1);
    }
    if k: nat :| k < n && c == first + k * stride {
      Monotone(stride, k, n - 1);
      DivMod(first, stride);
      Distribute(stride, first / stride + k, first / stride);
      DivModUnique(c, stride, first / stride + k, first % stride);
    }
  }

  lemma Distribute(s: int, x: int, y: int)
    ensures s * (x - y) == s * x - s * y && (x - y) * s == s * x - s * y
  {}

  lemma Monotone(s: int, x: int, y: int)
    requires s > 0 && x <= y
    ensures s * x <= s * y && x * s <= s * y
  {
    Distribute(s, y, x);
    if x < y { AtLeast(s, y - x); }
  }

  /** At or after the first character of a block of several, its check answers exactly for its members, except
      that the odd form also answers for the characters between them, with themselves. */
  lemma BlockAnswers(b: seq<Mapping>, c: int)
    requires IsBlock(b) && |b| > 1 && b[0].0 <= c
    ensures var r := RunCheck(BlockCheck(b), c);
      && (Mapped(b, c) ==> r == Some(c + Shift(b[0])))
      && (!Mapped(b, c) ==> r.None? || r == Some(c))
      && (c > Last(b) ==> r.None?)
  {
    var first, s := b[0].0, Stride(b);
    InStride(first, s, |b|, c);
    if Mapped(b, c) {
      var i :| 0 <= i < |b| && b[i].0 == c;
      assert c == first + i * s;
    }
    if c <= first + s * (|b| - 1) && c % s == first % s {
      var k: nat :| k < |b| && c == first + k * s;
      assert b[k].0 == c;
    }
  }

  // ----- correctness -----

  /** What the code emitted for a prefix of the table may do: return only right answers, miss no mapping,
      and leave everything past the prefix to the code that follows. */
  ghost predicate Sound(code: seq<Check>, pre: seq<Mapping>) {
    && Runnable(code)
    && forall c :: SoundAt(code, pre, c)
  }

  ghost predicate SoundAt(code: seq<Check>, pre: seq<Mapping>, c: int)
    requires Runnable(code)
  {
    match Run(code, c)
    case None => !Mapped(pre, c)
    case Some(v) => v == Fold(pre, c) && pre != [] && c <= pre[|pre| - 1].0
  }

  lemma MappedAppend(pre: seq<Mapping>, b: seq<Mapping>, c: int)
    requires Increasing(pre + b)
    ensures Increasing(pre) && Mapped(pre + b, c) == (Mapped(pre, c) || Mapped(b, c))
    ensures Mapped(pre, c) || !Mapped(b, c) ==> Fold(pre + b, c) == Fold(pre, c)
    ensures forall i :: 0 <= i < |b| && b[i].0 == c ==> Fold(pre + b, c) == b[i].1
  {
    var all := pre + b;
    assert forall i :: 0 <= i < |pre| ==> all[i] == pre[i];
    assert forall i :: 0 <= i < |b| ==> all[|pre| + i] == b[i];
    FoldIs(all, c);
    FoldIs(pre, c);
    if Mapped(all, c) {
      var i :| 0 <= i < |all| && all[i].0 == c;
      if i < |pre| { assert pre[i].0 == c; } else { assert b[i - |pre|].0 == c; }
    }
    if Mapped(pre, c) {
      var i :| 0 <= i < |pre| && pre[i].0 == c;
      assert all[i].0 == c;
    }
    if Mapped(b, c) {
      var i :| 0 <= i < |b| && b[i].0 == c;
      assert all[|pre| + i].0 == c;
    }
  }

  lemma BlockLast(b: seq<Mapping>)
    requires IsBlock(b)
    ensures Last(b) == b[|b| - 1].0
  {}

  lemma {:induction false} RunAppend(code: seq<Check>, more: seq<Check>, c: int)
    requires Runnable(code) && Runnable(more)
    ensures Runnable(code + more) && Run(code + more, c) == if Run(code, c).Some? then Run(code, c) else Run(more, c)
    decreases |more|
  {
    if more == [] {
      assert code + more == code;
    } else {
      var front := more[..|more| - 1];
      assert Runnable(front) by { assert forall i :: 0 <= i < |front| ==> front[i] == more[i]; }
      RunAppend(code, front, c);
      assert (code + more)[..|code + more| - 1] == code + front;
    }
  }

  /** What the code of one block does by itself. */
  lemma BlockRuns(b: seq<Mapping>, c: int)
    requires IsBlock(b)
    ensures Runnable(BlockCode(b))
    ensures match Run(BlockCode(b), c)
      case None => !Mapped(b, c)
      case Some(v) => v == (if Mapped(b, c) then c + Shift(b[0]) else c) && c <= Last(b)
  {
    var k := BlockCheck(b);
    if |b| == 1 {
      RunOne(k, c);
      assert b[0].0 == c ==> Mapped(b, c);
    } else {
      var low := IfBelow(b[0].0);
      RunOne(low, c);
      assert Runnable([k]) by { assert [k][0] == k; }
      RunSnoc([low], k, c);
      assert BlockCode(b) == [low] + [k];
      BlockAfter(b);
      if c >= b[0].0 {
        BlockAnswers(b, c);
      } else {
        assert !Mapped(b, c);
      }
    }
  }

  lemma RunOne(k: Check, c: int)
    requires k.IfInStride? ==> k.stride > 0
    ensures Runnable([k]) && Run([k], c) == RunCheck(k, c)
  {
    assert [k][0] == k && [k][..0] == [];
  }

  lemma BlockAfter(b: seq<Mapping>)
    requires IsBlock(b) && |b| > 1
    ensures b[0].0 <= Last(b) && forall i :: 0 <= i < |b| ==> b[0].0 <= b[i].0
  {
    forall i | 0 <= i < |b| ensures b[0].0 <= b[i].0 {
      Monotone(Stride(b), 0, i);
    }
    Monotone(Stride(b), 0, |b| - 1);
  }

  /** The code of the next block extends soundness to it. */
  lemma BlockSoundAt(code: seq<Check>, pre: seq<Mapping>, b: seq<Mapping>, c: int)
    requires Runnable(code) && SoundAt(code, pre, c) && IsBlock(b) && Increasing(pre + b)
    ensures Runnable(code + BlockCode(b)) && SoundAt(code + BlockCode(b), pre + b, c)
  {
    MappedAppend(pre, b, c);
    FoldIs(pre, c);
    BlockLast(b);
    BeforeBlock(pre, b);
    BlockRuns(b, c);
    RunAppend(code, BlockCode(b), c);
    if Mapped(b, c) {
      var i :| 0 <= i < |b| && b[i].0 == c;
      assert Shift(b[i]) == Shift(b[0]);
    }
    hide Run, BlockCode, IsBlock, Increasing, Fold, Last, Mapped;
  }

  lemma BeforeBlock(pre: seq<Mapping>, b: seq<Mapping>)
    requires Increasing(pre + b) && b != []
    ensures pre != [] ==> pre[|pre| - 1].0 < b[0].0 <= b[|b| - 1].0
    ensures forall i :: 0 <= i < |b| ==> b[0].0 <= b[i].0
    ensures (pre + b)[|pre + b| - 1] == b[|b| - 1]
  {
    var all, n := pre + b, |pre|;
    assert all[n] == b[0] && all[n + |b| - 1] == b[|b| - 1];
    forall i | 0 <= i < |b| ensures b[0].0 <= b[i].0 {
      assert all[n + i] == b[i];
    }
    if pre != [] { assert all[n - 1] == pre[n - 1]; }
  }

  // ----- grouping -----

  /** A mapping that comes next goes on with a block exactly if it has the block's shift and its distance. */
  lemma GoesOn(b: seq<Mapping>, m: Mapping)
    requires IsBlock(b) && m.0 > b[|b| - 1].0
    ensures IsBlock(b + [m]) <==>
      Shift(m) == Shift(b[0]) && (|b| == 1 || Stride(b) == m.0 - b[|b| - 1].0)
  {
    if Shift(m) == Shift(b[0]) && (|b| == 1 || Stride(b) == m.0 - b[|b| - 1].0) { LongerBlock(b, m); }
    if IsBlock(b + [m]) {
      var more := b + [m];
      assert more[|b|] == m && more[0] == b[0];
      if |b| > 1 {
        assert Stride(more) == Stride(b) && more[|b| - 1] == b[|b| - 1];
        Distribute(Stride(b), |b|, |b| - 1);
      }
    }
  }

  ghost predicate Blocks(bs: seq<seq<Mapping>>) { forall k :: 0 <= k < |bs| ==> IsBlock(bs[k]) }

  /** No block could have taken the first mapping of the next one. */
  ghost predicate Longest(bs: seq<seq<Mapping>>) {
    forall k :: 0 < k < |bs| ==> bs[k] != [] && !IsBlock(bs[k - 1] + [bs[k][0]])
  }

  ghost function Joined(bs: seq<seq<Mapping>>): seq<Mapping> {
    if bs == [] then [] else Joined(bs[..|bs| - 1]) + bs[|bs| - 1]
  }

  ghost function Codes(bs: seq<seq<Mapping>>): seq<Check>
    requires Blocks(bs)
  {
    if bs == [] then [] else Codes(bs[..|bs| - 1]) + BlockCode(bs[|bs| - 1])
  }

  /** The code is that of blocks which make up the table, each as long as possible. */
  ghost predicate GroupedCode(ms: seq<Mapping>, code: seq<Check>) {
    exists bs :: Blocks(bs) && Longest(bs) && Joined(bs) == ms && code == Codes(bs)
  }

  /** The blocks so far, the last of which may still grow. */
  ghost predicate Grouping(ms: seq<Mapping>, done: seq<seq<Mapping>>, block: seq<Mapping>, code: seq<Check>) {
    && Blocks(done) && code == Codes(done) && Joined(done) + block == ms
    && if block == [] then done == [] else IsBlock(block) && Longest(done + [block])
  }

  lemma StartGrouping()
    ensures Grouping([], [], [], [])
  {}

  lemma GroupingOn(ms: seq<Mapping>, done: seq<seq<Mapping>>, block: seq<Mapping>, code: seq<Check>, m: Mapping)
    requires Grouping(ms, done, block, code) && IsBlock(block + [m])
    ensures Grouping(ms + [m], done, block + [m], code)
  {
    hide IsBlock, Codes;
    assert Joined(done) + (block + [m]) == ms + [m];
    var before, after := done + [block], done + [block + [m]];
    forall k | 0 < k < |after| ensures after[k] != [] && !IsBlock(after[k - 1] + [after[k][0]]) {
      if block != [] { assert after[k - 1] == before[k - 1] && after[k][0] == before[k][0]; }
    }
  }

  lemma GroupingNext(ms: seq<Mapping>, done: seq<seq<Mapping>>, block: seq<Mapping>, code: seq<Check>, m: Mapping)
    requires Grouping(ms, done, block, code) && block != [] && !IsBlock(block + [m]) && IsBlock([m])
    ensures Grouping(ms + [m], done + [block], [m], code + BlockCode(block))
  {
    hide IsBlock, BlockCode;
    var done' := done + [block];
    assert done'[..|done|] == done;
    assert Joined(done') + [m] == ms + [m];
    var after := done' + [[m]];
    forall k | 0 < k < |after| ensures after[k] != [] && !IsBlock(after[k - 1] + [after[k][0]]) {
      if k < |done'| { assert after[k] == done'[k] && after[k - 1] == done'[k - 1]; }
    }
  }

  lemma GroupingStep(ms: seq<Mapping>, i: nat, done: seq<seq<Mapping>>, block: seq<Mapping>, code: seq<Check>,
                     block': seq<Mapping>, code': seq<Check>) returns (done': seq<seq<Mapping>>)
    requires i < |ms| && Grouping(ms[..i], done, block, code) && IsBlock(block') && (block != [] ==> IsBlock(block))
    requires if block == [] || IsBlock(block + [ms[i]]) then block' == block + [ms[i]] && code' == code
      else block' == [ms[i]] && code' == code + BlockCode(block)
    ensures Grouping(ms[..i + 1], done', block', code') && block' != []
  {
    hide *;
    assert ms[..i + 1] == ms[..i] + [ms[i]];
    if block == [] || IsBlock(block + [ms[i]]) {
      GroupingOn(ms[..i], done, block, code, ms[i]);
      done' := done;
    } else {
      GroupingNext(ms[..i], done, block, code, ms[i]);
      done' := done + [block];
    }
  }

  lemma GroupingEnds(ms: seq<Mapping>, done: seq<seq<Mapping>>, block: seq<Mapping>, code: seq<Check>)
    requires Grouping(ms, done, block, code) && block != []
    ensures GroupedCode(ms, code + BlockCode(block))
  {
    var bs := done + [block];
    assert bs[..|done|] == done && IsBlock(bs[|done|]);
    assert Blocks(bs) && Longest(bs);
    CodesLast(bs);
    hide IsBlock, BlockCode, Longest;
    assert Joined(bs) == ms;
  }

  /** The code of a block, form by form. */
  lemma BlockForm(b: seq<Mapping>)
    requires IsBlock(b)
    ensures |b| == 1 ==> BlockCode(b) == [IfEqual(b[0].0, b[0].1)]
    ensures |b| > 1 ==>
      var first, last := b[0].0, b[|b| - 1].0;
      var distance, shift := b[1].0 - first, b[0].1 - first;
      BlockCode(b) == [IfBelow(first),
        if distance == 2 && shift == 1 && first % 2 == 0 then IfOdd(last)
        else if distance == 1 then IfUpTo(last, shift)
        else IfInStride(last, distance, first % distance, shift)]
  {
    if |b| > 1 { assert b[|b| - 1].0 == b[0].0 + (|b| - 1) * Stride(b); }
  }

  // ----- the generator -----

  class Generator {
    var body: seq<Check>

    constructor ()
      ensures body == []
    {
      body := [];
    }

    method DumpBlock(b: seq<Mapping>)
      requires IsBlock(b)
      modifies this
      ensures body == old(body) + BlockCode(b)
    {
      if |b| == 1 {
        body := body + [IfEqual(b[0].0, b[0].1)];
        return;
      }
      var first := b[0].0;
      var last := first + Stride(b) * (|b| - 1);
      var modulo := first % Stride(b);
      body := body + [IfBelow(first)];
      var pattern := IfInStride(last, Stride(b), modulo, Shift(b[0]));
      if Stride(b) == 2 && Shift(b[0]) == 1 && modulo == 0 {
        pattern := IfOdd(last);
      } else if Stride(b) == 1 {
        pattern := IfUpTo(last, Shift(b[0]));
      }
      body := body + [pattern];
      assert body == old(body) + BlockCode(b);
    }

    /** Takes the next mapping into the current block if that is still a block; otherwise emits the block and starts
        a new one. */
    method Add(block: seq<Mapping>, m: Mapping) returns (block': seq<Mapping>)
      requires m.0 >= 0 && (block != [] ==> IsBlock(block) && m.0 > block[|block| - 1].0)
      modifies this
      ensures IsBlock(block')
      ensures if block == [] || IsBlock(block + [m]) then block' == block + [m] && body == old(body)
        else block' == [m] && body == old(body) + BlockCode(block)
    {
      SingleBlock(m);
      if |block| == 0 {
        assert block + [m] == [m];
        return [m];
      }
      GoesOn(block, m);
      hide *;
      if Shift(block[0]) != Shift(m) {
        DumpBlock(block);
        return [m];
      }
      if |block| == 1 || Stride(block) == m.0 - block[|block| - 1].0 {
        return block + [m];
      }
      DumpBlock(block);
      block' := [m];
    }

    /** False stands for an exception: the table is empty or not strictly increasing. Otherwise the emitted code is
        that of blocks as long as possible, and the emitted function folds every character as the table says and
        leaves all others alone. */
    method Generate(ms: seq<Mapping>) returns (ok: bool)
      requires body == []
      modifies this
      ensures ok <==> ms != [] && Increasing(ms)
      ensures ok ==> GroupedCode(ms, body)
      ensures ok ==> Runnable(body) && forall c :: Exec(body, c) == Fold(ms, c)
    {
      var block: seq<Mapping> := [];
      var previous := -1;
      ghost var done: seq<seq<Mapping>> := [];
      TakenNone(ms);
      hide *;
      for i := 0 to |ms|
        invariant Taken(ms, i, previous, done, block, body)
      {
        var m := ms[i];
        TakenAllows(ms, i, previous, done, block, body);
        if m.0 <= previous { return false; }
        ghost var before, code := block, body;
        block := Add(block, m);
        done := TakenStep(ms, i, previous, done, before, code, block, body);
        previous := m.0;
      }
      TakenAll(ms, previous, done, block, body);
      if block == [] { return false; }
      DumpBlock(block);
      GroupedSound(ms, body);
      ok := true;
    }
  }

  /** The first i mappings are in order and have been grouped. */
  ghost predicate Taken(ms: seq<Mapping>, i: nat, previous: int, done: seq<seq<Mapping>>, block: seq<Mapping>,
                        code: seq<Check>)
    requires i <= |ms|
  {
    && Increasing(ms[..i]) && previous == (if i == 0 then -1 else ms[i - 1].0)
    && Grouping(ms[..i], done, block, code) && (i > 0 <==> block != [])
  }

  lemma TakenNone(ms: seq<Mapping>)
    ensures Taken(ms, 0, -1, [], [], [])
  {
    StartGrouping();
    NothingYet(ms);
    assert ms[..0] == [];
  }

  lemma TakenAllows(ms: seq<Mapping>, i: nat, previous: int, done: seq<seq<Mapping>>, block: seq<Mapping>,
                    code: seq<Check>)
    requires i < |ms| && Taken(ms, i, previous, done, block, code)
    ensures ms[i].0 <= previous ==> !Increasing(ms)
    ensures ms[i].0 > previous ==> ms[i].0 >= 0 && (block != [] ==> IsBlock(block) && ms[i].0 > block[|block| - 1].0)
  {
    hide Increasing, Grouping, IsBlock;
    if ms[i].0 <= previous {
      NotIncreasing(ms, i);
    } else {
      OneMore(ms, i);
      GroupingLast(ms, i, done, block, code);
    }
  }

  lemma TakenStep(ms: seq<Mapping>, i: nat, previous: int, done: seq<seq<Mapping>>, block: seq<Mapping>,
                  code: seq<Check>, block': seq<Mapping>, code': seq<Check>) returns (done': seq<seq<Mapping>>)
    requires i < |ms| && Taken(ms, i, previous, done, block, code) && ms[i].0 > previous
    requires IsBlock(block') && (block != [] ==> IsBlock(block))
    requires if block == [] || IsBlock(block + [ms[i]]) then block' == block + [ms[i]] && code' == code
      else block' == [ms[i]] && code' == code + BlockCode(block)
    ensures Taken(ms, i + 1, ms[i].0, done', block', code')
  {
    hide Increasing, Grouping, IsBlock, BlockCode;
    OneMore(ms, i);
    done' := GroupingStep(ms, i, done, block, code, block', code');
  }

  lemma TakenAll(ms: seq<Mapping>, previous: int, done: seq<seq<Mapping>>, block: seq<Mapping>, code: seq<Check>)
    requires Taken(ms, |ms|, previous, done, block, code)
    ensures Increasing(ms) && (ms == [] <==> block == [])
    ensures block != [] ==> IsBlock(block) && GroupedCode(ms, code + BlockCode(block))
  {
    assert ms[..|ms|] == ms;
    if block != [] {
      assert IsBlock(block);
      hide *;
      GroupingEnds(ms, done, block, code);
    }
  }

  lemma GroupingLast(ms: seq<Mapping>, i: nat, done: seq<seq<Mapping>>, block: seq<Mapping>, code: seq<Check>)
    requires i < |ms| && Increasing(ms[..i + 1]) && Grouping(ms[..i], done, block, code)
    ensures ms[i].0 >= 0 && (block != [] ==> IsBlock(block) && ms[i].0 > block[|block| - 1].0)
  {
    InOrder(ms, i);
    hide IsBlock, Joined, Codes;
    if block != [] { assert ms[i - 1] == (Joined(done) + block)[i - 1] == block[|block| - 1]; }
  }

  lemma {:induction false} CodesSound(bs: seq<seq<Mapping>>)
    requires Blocks(bs) && Increasing(Joined(bs))
    ensures Sound(Codes(bs), Joined(bs))
  {
    if bs != [] {
      var front, last := bs[..|bs| - 1], bs[|bs| - 1];
      var all, n := Joined(bs), |Joined(front)|;
      assert all == Joined(front) + last && all[..n] == Joined(front) && all[n..|all|] == last && all[..|all|] == all;
      IncreasingFront(all, n);
      CodesSound(front);
      assert IsBlock(last);
      assert |last| > 0;
      hide *;
      NextSound(Codes(front), all, n, |all|);
      CodesLast(bs);
    }
  }

  lemma CodesLast(bs: seq<seq<Mapping>>)
    requires Blocks(bs) && bs != []
    ensures Blocks(bs[..|bs| - 1]) && IsBlock(bs[|bs| - 1])
    ensures Codes(bs) == Codes(bs[..|bs| - 1]) + BlockCode(bs[|bs| - 1])
  {
    hide BlockCode;
  }

  lemma IncreasingFront(ms: seq<Mapping>, n: nat)
    requires Increasing(ms) && n <= |ms|
    ensures Increasing(ms[..n])
  {}

  lemma GroupedSound(ms: seq<Mapping>, code: seq<Check>)
    requires GroupedCode(ms, code) && Increasing(ms)
    ensures Runnable(code) && forall c :: Exec(code, c) == Fold(ms, c)
  {
    var bs :| Blocks(bs) && Longest(bs) && Joined(bs) == ms && code == Codes(bs);
    CodesSound(bs);
    hide *;
    SoundExec(code, ms);
  }

  lemma SingleBlock(m: Mapping)
    ensures m.0 >= 0 ==> IsBlock([m])
  {}

  lemma InOrder(ms: seq<Mapping>, i: nat)
    requires i < |ms| && Increasing(ms[..i + 1])
    ensures Increasing(ms[..i]) && ms[i].0 >= 0 && (i > 0 ==> ms[i - 1].0 < ms[i].0)
  {
    assert ms[..i + 1][i] == ms[i];
    assert forall j :: 0 <= j < i ==> ms[..i][j] == ms[..i + 1][j];
    if i > 0 { assert ms[..i + 1][i - 1] == ms[i - 1] && ms[..i + 1][0].0 < ms[..i + 1][i].0; }
  }

  lemma NothingYet(ms: seq<Mapping>)
    ensures Increasing(ms[..0])
  {}

  lemma NotIncreasing(ms: seq<Mapping>, i: nat)
    requires i < |ms| && ms[i].0 <= (if i == 0 then -1 else ms[i - 1].0)
    ensures !Increasing(ms)
  {}

  lemma SoundExec(code: seq<Check>, ms: seq<Mapping>)
    requires Sound(code, ms) && Increasing(ms)
    ensures Runnable(code) && forall c :: Exec(code, c) == Fold(ms, c)
  {
    forall c ensures Exec(code, c) == Fold(ms, c) {
      assert SoundAt(code, ms, c);
      FoldIs(ms, c);
    }
  }

  lemma OneMore(ms: seq<Mapping>, i: nat)
    requires i < |ms| && Increasing(ms[..i]) && ms[i].0 > (if i == 0 then -1 else ms[i - 1].0)
    ensures Increasing(ms[..i + 1])
  {
    forall j, k | 0 <= j < k < i + 1 ensures ms[j].0 < ms[k].0 {
      assert k < i ==> ms[..i][j].0 < ms[..i][k].0;
      assert j < i - 1 && k == i ==> ms[..i][j].0 < ms[..i][i - 1].0;
    }
    if i > 0 { assert ms[..i][0] == ms[..i + 1][0]; }
  }

  lemma NextSound(code: seq<Check>, ms: seq<Mapping>, lo: nat, hi: nat)
    requires lo < hi <= |ms| && Increasing(ms[..hi]) && Sound(code, ms[..lo]) && IsBlock(ms[lo..hi])
    ensures Sound(code + BlockCode(ms[lo..hi]), ms[..hi])
  {
    assert ms[..hi] == ms[..lo] + ms[lo..hi];
    BlockSoundAt(code, ms[..lo], ms[lo..hi], 0);
    forall c ensures SoundAt(code + BlockCode(ms[lo..hi]), ms[..hi], c) {
      BlockSoundAt(code, ms[..lo], ms[lo..hi], c);
    }
  }

  lemma LongerBlock(b: seq<Mapping>, m: Mapping)
    requires IsBlock(b) && Shift(m) == Shift(b[0]) && m.0 > b[|b| - 1].0
    requires |b| == 1 || Stride(b) == m.0 - b[|b| - 1].0
    ensures IsBlock(b + [m])
  {
    if |b| > 1 {
      Distribute(Stride(b), |b|, |b| - 1);
      assert b[|b| - 1].0 == b[0].0 + (|b| - 1) * Stride(b);
    }
  }
}
