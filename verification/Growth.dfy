/** Code generation only ever adds: finished blocks stay as they are, phis only gain incoming values, and
    every block a statement owns is finished exactly once. */
module Growth {
  import opened Common
  import opened CMRegisters
  import opened TargetIR
  import opened CFG
  import opened CodeBuilder

  /** Block b may still become block c. */
  ghost predicate BlockGrows(b: Block, c: Block) {
    && |b.phis| == |c.phis|
    && (forall i :: 0 <= i < |b.phis| ==> b.phis[i].dst == c.phis[i].dst && b.phis[i].incoming <= c.phis[i].incoming)
    && b.body <= c.body
    && (b.term.Some? ==> b.body == c.body && b.term == c.term)
  }

  ghost predicate BlocksGrow(bs: seq<Block>, cs: seq<Block>) {
    |bs| <= |cs| && forall i :: 0 <= i < |bs| ==> BlockGrows(bs[i], cs[i])
  }

  lemma BlocksGrowTrans(bs: seq<Block>, cs: seq<Block>, ds: seq<Block>)
    requires BlocksGrow(bs, cs) && BlocksGrow(cs, ds)
    ensures BlocksGrow(bs, ds)
  {
    forall i | 0 <= i < |bs| ensures BlockGrows(bs[i], ds[i]) {
      assert BlockGrows(bs[i], cs[i]) && BlockGrows(cs[i], ds[i]);
    }
  }

  ghost predicate SameShape(rs: seq<Option<Operand>>, qs: seq<Option<Operand>>) {
    |rs| == |qs| == NUM_REGS && forall r: RegId :: rs[r].None? <==> qs[r].None?
  }

  /** From st to st' only blocks in own gain code or terminators. */
  ghost predicate Grows(st: Builder, st': Builder, own: set<nat>) {
    && BlocksGrow(st.blocks, st'.blocks)
    && (forall b :: 0 <= b < |st.blocks| && b !in own ==>
          st'.blocks[b].body == st.blocks[b].body && st'.blocks[b].term == st.blocks[b].term)
    && st.next <= st'.next
    && st'.frags == st.frags
    && (st.ovf.Some? ==> st'.ovf == st.ovf)
    && (st.ovf.None? && st'.ovf.Some? ==> st'.ovf.value >= |st.blocks|)
    && SameShape(st.regs, st'.regs)
  }

  lemma GrowsTrans(a: Builder, b: Builder, c: Builder, own: set<nat>, own': set<nat>)
    requires Grows(a, b, own) && Grows(b, c, own')
    requires forall x :: x in own' && x < |a.blocks| ==> x in own
    ensures Grows(a, c, own)
  {
    BlocksGrowTrans(a.blocks, b.blocks, c.blocks);
  }

  ghost predicate Open(st: Builder) { st.Ok() && st.blocks[st.cur].term.None? }

  lemma PutGrows(st: Builder, l: Line)
    requires Open(st) && Continues(st.OpenLine(), l)
    ensures Grows(st, st.Put(l), {st.cur}) && Open(st.Put(l)) && st.Put(l).cur == st.cur
  {}

  lemma SealGrows(st: Builder, term: Term)
    requires Open(st)
    ensures Grows(st, Seal(st, term), {st.cur})
  {}

  lemma AddIncomingGrows(st: Builder, b: nat, args: seq<Operand>)
    requires st.Ok()
    ensures Grows(st, AddIncoming(st, b, args), {}) && AddIncoming(st, b, args).cur == st.cur
    ensures Open(st) ==> Open(AddIncoming(st, b, args))
  {
    var st' := AddIncoming(st, b, args);
    forall i | 0 <= i < |st.blocks| ensures BlockGrows(st.blocks[i], st'.blocks[i]) {}
  }

  lemma AppendGrows(st: Builder, blk: Block)
    requires st.Ok()
    ensures Grows(st, st.(blocks := st.blocks + [blk]), {})
  {}

  // ----- the blocks of a statement -----

  function NumArms(s: Stm): nat
    decreases s
  {
    match s
    case LET(_, _, k) => NumArms(k)
    case ALLOC(_, _, _, k) => NumArms(k)
    case APPLY(_, _) => 0
    case THROW(_, _) => 0
    case GOTO(_, _) => 0
    case SWITCH(_, arms) => NumArmsOf(arms)
    case BRANCH(_, _, a, b) => NumArms(a.body) + NumArms(b.body) + 2
    case ARITH(_, _, _, k) => NumArms(k)
    case SETTER(_, _, k) => NumArms(k)
    case CALLGC(_, _, k) => NumArms(k)
  }

  function NumArmsOf(arms: seq<Arm>): nat
    decreases arms
  {
    if arms == [] then 0
    else
      var last := arms[|arms| - 1];
      assert last.body < last;
      NumArmsOf(arms[..|arms| - 1]) + NumArms(last.body) + 1
  }

  /** The arms of s start the blocks lo, lo+1, ... in the order of the tree. */
  ghost predicate Numbered(s: Stm, lo: nat)
    decreases s
  {
    match s
    case LET(_, _, k) => Numbered(k, lo)
    case ALLOC(_, _, _, k) => Numbered(k, lo)
    case APPLY(_, _) => true
    case THROW(_, _) => true
    case GOTO(_, _) => true
    case SWITCH(_, arms) => NumberedArms(arms, lo)
    case BRANCH(_, _, a, b) =>
      var mid := lo + 1 + NumArms(a.body);
      a.bb == Some(lo) && Numbered(a.body, lo + 1) && b.bb == Some(mid) && Numbered(b.body, mid + 1)
    case ARITH(_, _, _, k) => Numbered(k, lo)
    case SETTER(_, _, k) => Numbered(k, lo)
    case CALLGC(_, _, k) => Numbered(k, lo)
  }

  ghost predicate NumberedArms(arms: seq<Arm>, lo: nat)
    decreases arms
  {
    arms == [] ||
    var last := arms[|arms| - 1];
    assert last.body < last;
    var mid := lo + NumArmsOf(arms[..|arms| - 1]);
    NumberedArms(arms[..|arms| - 1], lo) && last.bb == Some(mid) && Numbered(last.body, mid + 1)
  }

  lemma SimpleArms(s: Stm, lo: nat)
    requires IsSimple(s)
    ensures NumArms(Cont(s)) == NumArms(s) && (Numbered(s, lo) ==> Numbered(Cont(s), lo))
  {}

  /** Creating blocks numbers them, and changes nothing else about the statement. */
  lemma {:induction false} InitNumbers(n: nat, s: Stm)
    ensures var (m, s') := InitStm(n, s);
      m == n + NumArms(s) && NumArms(s') == NumArms(s) && Numbered(s', n)
    decreases s
  {
    match s
    case LET(_, _, k) => InitNumbers(n, k);
    case ALLOC(_, _, _, k) => InitNumbers(n, k);
    case SWITCH(_, arms) => InitNumbersArms(n, arms);
    case BRANCH(_, _, a, b) =>
      InitNumbers(n + 1, a.body);
      InitNumbers(n + 1 + NumArms(a.body) + 1, b.body);
      InitNumbersBranch(n, s);
    case ARITH(_, _, _, k) => InitNumbers(n, k);
    case SETTER(_, _, k) => InitNumbers(n, k);
    case CALLGC(_, _, k) => InitNumbers(n, k);
    case _ =>
  }

  lemma InitNumbersBranch(n: nat, s: Stm)
    requires s.BRANCH?
    requires var (m, a) := InitStm(n + 1, s.onTrue.body);
      m == n + 1 + NumArms(s.onTrue.body) && NumArms(a) == NumArms(s.onTrue.body) && Numbered(a, n + 1)
    requires var k := n + 1 + NumArms(s.onTrue.body); var (m, b) := InitStm(k + 1, s.onFalse.body);
      m == k + 1 + NumArms(s.onFalse.body) && NumArms(b) == NumArms(s.onFalse.body) && Numbered(b, k + 1)
    ensures var (m, s') := InitStm(n, s); m == n + NumArms(s) && NumArms(s') == NumArms(s) && Numbered(s', n)
  {}

  lemma {:induction false} InitNumbersArms(n: nat, arms: seq<Arm>)
    ensures var (m, arms') := InitArms(n, arms);
      m == n + NumArmsOf(arms) && NumArmsOf(arms') == NumArmsOf(arms) && NumberedArms(arms', n)
    decreases arms
  {
    if arms != [] {
      var last := arms[|arms| - 1];
      assert last.body < last;
      InitNumbersArms(n, arms[..|arms| - 1]);
      InitNumbers(n + NumArmsOf(arms[..|arms| - 1]) + 1, last.body);
      var (m, arms') := InitArms(n, arms);
      assert arms'[..|arms'| - 1] == InitArms(n, arms[..|arms| - 1]).1;
    }
  }

  /** The blocks from lo up to hi exist and are untouched. */
  ghost predicate Untouched(st: Builder, lo: nat, hi: nat) {
    lo <= hi <= |st.blocks| && forall b :: lo <= b < hi ==> st.blocks[b] == EMPTY_BLOCK
  }

  ghost predicate Finished(st: Builder, lo: nat, hi: nat) {
    forall b :: lo <= b < hi && b < |st.blocks| ==> st.blocks[b].term.Some?
  }

  function Range(lo: nat, hi: nat): (r: set<nat>)
    ensures forall b :: b in r <==> lo <= b < hi
    decreases hi - lo
  {
    if lo >= hi then {} else {lo} + Range(lo + 1, hi)
  }

  /** Jumps go to fragments that exist, and the overflow block, once made, is finished. */
  ghost predicate Linked(st: Builder) {
    && (forall lab :: lab in st.frags ==> st.frags[lab] < |st.blocks|)
    && (st.ovf.Some? ==> st.ovf.value < |st.blocks| && st.blocks[st.ovf.value].term.Some?)
  }

  lemma LinkedGrows(st: Builder, st': Builder, own: set<nat>)
    requires Linked(st) && Grows(st, st', own) && (st.ovf.None? ==> st'.ovf.None?)
    ensures Linked(st')
  {
    if st.ovf.Some? {
      assert BlockGrows(st.blocks[st.ovf.value], st'.blocks[st.ovf.value]);
    }
  }

  /** Every jump names a fragment of the cluster. */
  ghost predicate JumpsKnown(s: Stm, labels: set<LVar>)
    decreases s
  {
    match s
    case LET(_, _, k) => JumpsKnown(k, labels)
    case ALLOC(op, args, _, k) => AllocArity(op, |args|) && JumpsKnown(k, labels)
    case APPLY(_, _) => true
    case THROW(_, _) => true
    case GOTO(lab, _) => lab in labels
    case SWITCH(_, arms) => JumpsKnownArms(arms, labels)
    case BRANCH(_, _, a, b) => JumpsKnown(a.body, labels) && JumpsKnown(b.body, labels)
    case ARITH(_, _, _, k) => JumpsKnown(k, labels)
    case SETTER(op, args, k) => SetterArity(op, |args|) && JumpsKnown(k, labels)
    case CALLGC(_, _, k) => JumpsKnown(k, labels)
  }

  ghost predicate JumpsKnownArms(arms: seq<Arm>, labels: set<LVar>)
    decreases arms
  {
    arms == [] ||
    var last := arms[|arms| - 1];
    assert last.body < last;
    JumpsKnownArms(arms[..|arms| - 1], labels) && JumpsKnown(last.body, labels)
  }

  lemma {:induction false} ScopedJumps(c: Context, s: Stm, scope: set<LVar>, labels: set<LVar>)
    requires Scoped(c, s, scope) && c.arity.Keys <= labels
    ensures JumpsKnown(s, labels)
    decreases s
  {
    match s
    case LET(_, x, k) => ScopedJumps(c, k, scope + {x}, labels);
    case ALLOC(_, _, x, k) => ScopedJumps(c, k, scope + {x}, labels);
    case SWITCH(_, arms) => ScopedJumpsArms(c, arms, scope, labels);
    case BRANCH(_, _, a, b) => ScopedJumps(c, a.body, scope, labels); ScopedJumps(c, b.body, scope, labels);
    case ARITH(_, _, x, k) => ScopedJumps(c, k, scope + {x}, labels);
    case SETTER(_, _, k) => ScopedJumps(c, k, scope, labels);
    case CALLGC(_, xs, k) => ScopedJumps(c, k, scope + Elems(xs), labels);
    case _ =>
  }

  lemma {:induction false} ScopedJumpsArms(c: Context, arms: seq<Arm>, scope: set<LVar>, labels: set<LVar>)
    requires ScopedArms(c, arms, scope) && c.arity.Keys <= labels
    ensures JumpsKnownArms(arms, labels)
    decreases arms
  {
    if arms != [] {
      var last := arms[|arms| - 1];
      assert last.body < last;
      ScopedJumpsArms(c, arms[..|arms| - 1], scope, labels);
      ScopedJumps(c, last.body, scope, labels);
    }
  }

  /** What generating statement s, whose arms are the blocks from lo, does to the function as a whole. */
  ghost predicate Completes(st: Builder, st': Builder, lo: nat, n: nat) {
    && Grows(st, st', {st.cur} + Range(lo, lo + n))
    && Linked(st')
    && st.cur < |st'.blocks| && st'.blocks[st.cur].term.Some?
    && Finished(st', lo, lo + n)
    && Finished(st', |st.blocks|, |st'.blocks|)
  }

  /** The insertion block is open, the statement's own blocks are still empty. */
  ghost predicate Ready(st: Builder, lo: nat, n: nat) {
    && Open(st) && Linked(st) && Untouched(st, lo, lo + n) && !(lo <= st.cur < lo + n)
  }

  lemma GetOverflowGrows(t: TargetInfo, st: Builder)
    requires st.Ok() && Linked(st) && |t.stkOffset| == NUM_REGS
    ensures var (st', b) := GetOverflowBB(t, st);
      && Grows(st, st', {}) && Linked(st') && st'.cur == st.cur && b < |st'.blocks| && st'.ovf == Some(b)
      && Finished(st', |st.blocks|, |st'.blocks|)
      && st'.regs == st.regs && st'.vMap == st.vMap && (Open(st) ==> Open(st'))
  {
    var st1 := MakeOverflowBB(t, st);
    if st.ovf.None? {
      AppendGrows(st, OverflowBlock(t, st.next));
    }
    assert Grows(st, st1, {});
    var args := CreateArgs(t, st1.regs, STD_FUN);
    AddIncomingGrows(st1, st1.ovf.value, args);
    var st2 := AddIncoming(st1, st1.ovf.value, args);
    GrowsTrans(st, st1, st2, {}, {});
    assert BlockGrows(st1.blocks[st1.ovf.value], st2.blocks[st1.ovf.value]);
    forall b | |st.blocks| <= b < |st2.blocks| ensures st2.blocks[b].term.Some? {
      assert BlockGrows(st1.blocks[b], st2.blocks[b]);
    }
  }

  lemma SplitOnTrapGrows(t: TargetInfo, st: Builder, obit: Operand)
    requires Open(st) && Linked(st) && |t.stkOffset| == NUM_REGS
    ensures var st' := SplitOnTrap(t, st, obit);
      && Grows(st, st', {st.cur}) && Linked(st') && Open(st')
      && st'.cur == |st.blocks| && st'.blocks[st.cur].term.Some?
      && Finished(st', |st.blocks| + 1, |st'.blocks|)
      && st'.regs == st.regs && st'.vMap == st.vMap && st'.blocks[st'.cur] == EMPTY_BLOCK
  {
    var (st1, ok) := NewBB(st);
    AppendGrows(st, EMPTY_BLOCK);
    LinkedGrows(st, st1, {});
    GetOverflowGrows(t, st1);
    var (st2, trap) := GetOverflowBB(t, st1);
    GrowsTrans(st, st1, st2, {}, {});
    SealGrows(st2, CondBr(obit, trap, ok));
    var st3 := Seal(st2, CondBr(obit, trap, ok));
    assert Grows(st, st2, {st.cur});
    GrowsTrans(st, st2, st3, {st.cur}, {st.cur});
    assert BlockGrows(EMPTY_BLOCK, st2.blocks[ok]);
    forall b | |st.blocks| + 1 <= b < |st3.blocks| ensures st3.blocks[b].term.Some? {
      assert st2.blocks[b].term.Some?;
    }
  }

  // ----- statements -----

  lemma UntouchedGrows(st: Builder, st': Builder, own: set<nat>, lo: nat, hi: nat)
    requires Untouched(st, lo, hi) && Grows(st, st', own) && (forall b :: b in own ==> !(lo <= b < hi))
    ensures Untouched(st', lo, hi)
  {
    forall b | lo <= b < hi ensures st'.blocks[b] == EMPTY_BLOCK {
      assert BlockGrows(st.blocks[b], st'.blocks[b]);
      assert b !in own;
    }
  }

  lemma FinishedGrows(st: Builder, st': Builder, own: set<nat>, lo: nat, hi: nat)
    requires Finished(st, lo, hi) && Grows(st, st', own) && hi <= |st.blocks|
    ensures Finished(st', lo, hi)
  {
    forall b | lo <= b < hi ensures st'.blocks[b].term.Some? {
      assert BlockGrows(st.blocks[b], st'.blocks[b]);
    }
  }

  /** Code in the insertion block, then the rest. */
  lemma CompletesAfter(st: Builder, st1: Builder, st': Builder, lo: nat, n: nat)
    requires Grows(st, st1, {st.cur}) && st1.cur == st.cur && |st1.blocks| == |st.blocks| && Completes(st1, st', lo, n)
    ensures Completes(st, st', lo, n)
  {
    assert Grows(st, st1, {st.cur} + Range(lo, lo + n));
    GrowsTrans(st, st1, st', {st.cur} + Range(lo, lo + n), {st1.cur} + Range(lo, lo + n));
  }

  lemma PutReady(st: Builder, l: Line, lo: nat, n: nat)
    requires Ready(st, lo, n) && Continues(st.OpenLine(), l)
    ensures Ready(st.Put(l), lo, n) && Grows(st, st.Put(l), {st.cur})
  {
    PutGrows(st, l);
    UntouchedGrows(st, st.Put(l), {st.cur}, lo, lo + n);
    LinkedGrows(st, st.Put(l), {st.cur});
  }

  /** A statement without arms that seals the insertion block. */
  lemma SealCompletes(st: Builder, st1: Builder, term: Term, lo: nat)
    requires Open(st) && Linked(st) && Open(st1) && st1.cur == st.cur && |st1.blocks| == |st.blocks|
    requires Grows(st, st1, {st.cur}) && st1.ovf == st.ovf
    ensures Completes(st, Seal(st1, term), lo, 0)
  {
    SealGrows(st1, term);
    GrowsTrans(st, st1, Seal(st1, term), {st.cur}, {st.cur});
    LinkedGrows(st, Seal(st1, term), {st.cur});
    assert {st.cur} + Range(lo, lo) == {st.cur};
  }

  lemma JumpCompletes(st: Builder, l: Line, lab: LVar, args: seq<Operand>, lo: nat)
    requires Ready(st, lo, 0) && Continues(st.OpenLine(), l) && lab in st.frags
    ensures Completes(st, SealJump(st.Put(l), lab, args), lo, 0)
  {
    PutReady(st, l, lo, 0);
    var st1 := st.Put(l);
    AddIncomingGrows(st1, st.frags[lab], args);
    var st2 := AddIncoming(st1, st.frags[lab], args);
    GrowsTrans(st, st1, st2, {st.cur}, {});
    SealCompletes(st, st2, Br(st.frags[lab]), lo);
  }

  /** What generating the arms of a branch or switch does, the insertion block being finished already. */
  ghost predicate CompletesArms(st: Builder, st': Builder, lo: nat, n: nat) {
    && Grows(st, st', Range(lo, lo + n))
    && Linked(st')
    && Finished(st', lo, lo + n)
    && Finished(st', |st.blocks|, |st'.blocks|)
  }

  lemma CompletesArmsTrans(st: Builder, st1: Builder, st2: Builder, lo: nat, n: nat, k: nat)
    requires CompletesArms(st, st1, lo, n) && CompletesArms(st1, st2, lo + n, k) && lo + n <= |st.blocks|
    ensures CompletesArms(st, st2, lo, n + k)
  {
    assert Grows(st, st1, Range(lo, lo + n + k));
    GrowsTrans(st, st1, st2, Range(lo, lo + n + k), Range(lo + n, lo + n + k));
    FinishedGrows(st1, st2, Range(lo + n, lo + n + k), lo, lo + n);
    FinishedGrows(st1, st2, Range(lo + n, lo + n + k), |st.blocks|, |st1.blocks|);
  }

  lemma {:induction false} GenArmCompletes(t: TargetInfo, clusters: map<LVar, FragKind>, st: Builder,
                                           saved: seq<Option<Operand>>, arm: Arm, lo: nat)
    requires st.Ok() && Linked(st) && |t.stkOffset| == NUM_REGS && SameShape(st.regs, saved)
    requires arm.bb == Some(lo) && Numbered(arm.body, lo + 1) && JumpsKnown(arm.body, st.frags.Keys)
    requires Untouched(st, lo, lo + 1 + NumArms(arm.body))
    ensures CompletesArms(st, GenStm(t, clusters, SetInsertPoint(st.(regs := saved), arm.bb), arm.body), lo,
      NumArms(arm.body) + 1)
    decreases arm
  {
    hide Grows, Untouched, Linked, Finished, Completes, CompletesArms, Ready, GenStm, Numbered, JumpsKnown, NumArms;
    var st1 := SetInsertPoint(st.(regs := saved), arm.bb);
    ArmReady(st, saved, arm.bb, lo, NumArms(arm.body));
    GenStmCompletes(t, clusters, st1, arm.body, lo + 1);
    ArmCompletes(st, st1, GenStm(t, clusters, st1, arm.body), lo, NumArms(arm.body));
  }

  lemma ArmReady(st: Builder, saved: seq<Option<Operand>>, bb: Option<nat>, lo: nat, n: nat)
    requires st.Ok() && Linked(st) && Untouched(st, lo, lo + 1 + n) && |saved| == NUM_REGS && bb == Some(lo)
    ensures st.(regs := saved).Ok() && SetInsertPoint(st.(regs := saved), bb) == st.(regs := saved, cur := lo)
    ensures Ready(st.(regs := saved, cur := lo), lo + 1, n)
  {
    assert st.blocks[lo] == EMPTY_BLOCK;
  }

  lemma ArmCompletes(st: Builder, st1: Builder, st': Builder, lo: nat, n: nat)
    requires st1.blocks == st.blocks && st1 == st.(regs := st1.regs, cur := lo) && SameShape(st.regs, st1.regs)
    requires Completes(st1, st', lo + 1, n)
    ensures CompletesArms(st, st', lo, n + 1)
  {
    assert {lo} + Range(lo + 1, lo + 1 + n) == Range(lo, lo + 1 + n);
    forall b | lo <= b < lo + n + 1 && b < |st'.blocks| ensures st'.blocks[b].term.Some? {
      if b == lo { assert st'.blocks[lo].term.Some?; }
    }
  }

  lemma {:induction false} GenArmsCompletes(t: TargetInfo, clusters: map<LVar, FragKind>, st: Builder,
                                            saved: seq<Option<Operand>>, arms: seq<Arm>, lo: nat)
    requires st.Ok() && Linked(st) && |t.stkOffset| == NUM_REGS && SameShape(st.regs, saved)
    requires NumberedArms(arms, lo) && JumpsKnownArms(arms, st.frags.Keys)
    requires Untouched(st, lo, lo + NumArmsOf(arms))
    ensures CompletesArms(st, GenArms(t, clusters, st, saved, arms), lo, NumArmsOf(arms))
    decreases arms, 0
  {
    hide Grows, Untouched, Linked, Finished, CompletesArms, GenStm, SameShape, Numbered, JumpsKnown, NumArms;
    if arms != [] {
      var front, last := arms[..|arms| - 1], arms[|arms| - 1];
      assert last.body < last;
      var n, k := NumArmsOf(front), NumArms(last.body) + 1;
      UntouchedPart(st, lo, lo + n, lo + n + k);
      SameLength(st.regs, saved);
      GenArmsCompletes(t, clusters, st, saved, front, lo);
      var st1 := GenArms(t, clusters, st, saved, front);
      ArmsKeep(st, st1, lo, n, lo + n, lo + n + k);
      ShapeTrans(st, st1, saved);
      GenArmCompletes(t, clusters, st1, saved, last, lo + n);
      UntouchedIn(st, lo, lo + n);
      CompletesArmsTrans(st, st1, GenArms(t, clusters, st, saved, arms), lo, n, k);
    } else {
      NoArms(st, lo);
    }
  }

  lemma SameLength(rs: seq<Option<Operand>>, qs: seq<Option<Operand>>)
    requires SameShape(rs, qs)
    ensures |rs| == |qs| == NUM_REGS
  {}

  lemma ShapeTrans(st: Builder, st1: Builder, saved: seq<Option<Operand>>)
    requires SameShape(st.regs, st1.regs) && SameShape(st.regs, saved)
    ensures SameShape(st1.regs, saved) && |saved| == NUM_REGS
  {}

  lemma UntouchedIn(st: Builder, lo: nat, hi: nat)
    requires Untouched(st, lo, hi)
    ensures lo <= hi <= |st.blocks|
  {}

  lemma NoArms(st: Builder, lo: nat)
    requires st.Ok() && Linked(st)
    ensures CompletesArms(st, st, lo, 0)
  {
    forall i | 0 <= i < |st.blocks| ensures BlockGrows(st.blocks[i], st.blocks[i]) {}
  }

  /** Sealing the insertion block and then generating the arms completes a statement. */
  lemma CompletesWithArms(st: Builder, st1: Builder, st': Builder, lo: nat, n: nat)
    requires Grows(st, st1, {st.cur}) && st.cur < |st1.blocks| && st1.blocks[st.cur].term.Some?
    requires Finished(st1, |st.blocks|, |st1.blocks|) && CompletesArms(st1, st', lo, n)
    ensures Completes(st, st', lo, n)
  {
    assert Grows(st, st1, {st.cur} + Range(lo, lo + n));
    GrowsTrans(st, st1, st', {st.cur} + Range(lo, lo + n), Range(lo, lo + n));
    FinishedGrows(st1, st', Range(lo, lo + n), |st.blocks|, |st1.blocks|);
    assert BlockGrows(st1.blocks[st.cur], st'.blocks[st.cur]);
  }

  lemma SealSwitchGrows(st: Builder, v: Operand, arms: seq<Arm>)
    requires Open(st) && Linked(st)
    ensures var st' := SealSwitch(st, v, arms);
      && Grows(st, st', {st.cur}) && Linked(st') && st'.regs == st.regs
      && st'.blocks[st.cur].term.Some? && Finished(st', |st.blocks|, |st'.blocks|) && st'.cur == st.cur
  {
    var blk := EMPTY_BLOCK.(term := Some(Unreachable));
    var st1 := st.(blocks := st.blocks + [blk]);
    AppendGrows(st, blk);
    SealGrows(st1, Switch(v, |st.blocks|, ArmBBs(arms)));
    assert Grows(st, st1, {st.cur});
    GrowsTrans(st, st1, SealSwitch(st, v, arms), {st.cur}, {st.cur});
    LinkedGrows(st, SealSwitch(st, v, arms), {st.cur});
  }

  lemma {:induction false} SwitchCompletes(t: TargetInfo, clusters: map<LVar, FragKind>, st: Builder, s: Stm, lo: nat)
    requires s.SWITCH? && Ready(st, lo, NumArmsOf(s.arms)) && NumberedArms(s.arms, lo)
    requires JumpsKnownArms(s.arms, st.frags.Keys)
    requires |t.stkOffset| == NUM_REGS
    ensures Completes(st, GenArms(t, clusters, SwitchHead(t, st, s), st.regs, s.arms), lo, NumArmsOf(s.arms))
    decreases s, 1
  {
    var arms, n := s.arms, NumArmsOf(s.arms);
    SwitchHeadGrows(t, st, s, lo, n);
    var st2 := SwitchHead(t, st, s);
    GenArmsCompletes(t, clusters, st2, st.regs, arms, lo);
    CompletesWithArms(st, st2, GenArms(t, clusters, st2, st.regs, arms), lo, n);
  }

  lemma SwitchHeadGrows(t: TargetInfo, st: Builder, s: Stm, lo: nat, n: nat)
    requires s.SWITCH? && Ready(st, lo, n) && |t.stkOffset| == NUM_REGS
    ensures var st' := SwitchHead(t, st, s);
      && Grows(st, st', {st.cur}) && Linked(st') && Untouched(st', lo, lo + n) && SameShape(st'.regs, st.regs)
      && st'.blocks[st.cur].term.Some? && Finished(st', |st.blocks|, |st'.blocks|)
  {
    var (l1, v) := GenExp(t, st.OpenLine(), s.scrut);
    var (l, v32) := Emit(l1, Trunc32, [v]);
    hide GenExp;
    PutReady(st, l, lo, n);
    var st1 := st.Put(l);
    SealSwitchGrows(st1, v32, s.arms);
    var st2 := SealSwitch(st1, v32, s.arms);
    UntouchedGrows(st1, st2, {st.cur}, lo, lo + n);
    GrowsTrans(st, st1, st2, {st.cur}, {st.cur});
  }

  lemma {:induction false} BranchCompletes(t: TargetInfo, clusters: map<LVar, FragKind>, st: Builder, s: Stm, lo: nat)
    requires s.BRANCH? && Ready(st, lo, NumArms(s)) && Numbered(s, lo) && JumpsKnown(s, st.frags.Keys)
    requires |t.stkOffset| == NUM_REGS
    ensures var st1 := BranchHead(t, st, s);
      var st2 := GenStm(t, clusters, SetInsertPoint(st1, s.onTrue.bb), s.onTrue.body);
      Completes(st, GenStm(t, clusters, SetInsertPoint(st2.(regs := st1.regs), s.onFalse.bb), s.onFalse.body), lo,
        NumArms(s))
    decreases s, 0
  {
    hide Grows, Untouched, Linked, Finished, Completes, CompletesArms, Ready, SameShape, GenStm, BranchHead;
    var a, b := s.onTrue, s.onFalse;
    var n, k := NumArms(a.body) + 1, NumArms(b.body) + 1;
    ReadyOpen(st, lo, n + k);
    BranchHeadGrows(t, st, s, lo, n + k);
    var st1 := BranchHead(t, st, s);
    UntouchedPart(st1, lo, lo + n, lo + n + k);
    assert st1.(regs := st1.regs) == st1;
    GenArmCompletes(t, clusters, st1, st1.regs, a, lo);
    var st2 := GenStm(t, clusters, SetInsertPoint(st1, a.bb), a.body);
    ArmsKeep(st1, st2, lo, n, lo + n, lo + n + k);
    GenArmCompletes(t, clusters, st2, st1.regs, b, lo + n);
    var st' := GenStm(t, clusters, SetInsertPoint(st2.(regs := st1.regs), b.bb), b.body);
    CompletesArmsTrans(st1, st2, st', lo, n, k);
    CompletesWithArms(st, st1, st', lo, n + k);
  }

  lemma BranchHeadGrows(t: TargetInfo, st: Builder, s: Stm, lo: nat, n: nat)
    requires s.BRANCH? && Ready(st, lo, n) && |t.stkOffset| == NUM_REGS
    ensures var st' := BranchHead(t, st, s);
      && Grows(st, st', {st.cur}) && Linked(st') && Untouched(st', lo, lo + n) && SameShape(st'.regs, st'.regs)
      && st'.frags == st.frags
      && st.cur < |st'.blocks| && st'.blocks[st.cur].term.Some? && Finished(st', |st.blocks|, |st'.blocks|)
      && lo + n <= |st'.blocks|
  {
    var (l1, os) := GenExps(t, st.OpenLine(), s.args);
    var (l, c) := GenTest(t, l1, s.test, os);
    hide GenExps, GenTest;
    PutReady(st, l, lo, n);
    SealReady(st, st.Put(l), CondBr(c, ArmBB(s.onTrue), ArmBB(s.onFalse)), lo, n);
  }

  lemma ReadyOpen(st: Builder, lo: nat, n: nat)
    requires Ready(st, lo, n)
    ensures Open(st) && Linked(st) && Untouched(st, lo, lo + n) && lo + n <= |st.blocks|
  {}

  lemma UntouchedPart(st: Builder, lo: nat, mid: nat, hi: nat)
    requires Untouched(st, lo, hi) && lo <= mid <= hi
    ensures Untouched(st, lo, mid) && Untouched(st, mid, hi)
  {}

  lemma SealReady(st: Builder, st0: Builder, term: Term, lo: nat, n: nat)
    requires Ready(st, lo, n) && Ready(st0, lo, n) && Grows(st, st0, {st.cur}) && st0.cur == st.cur
    requires |st0.blocks| == |st.blocks|
    requires st0.ovf == st.ovf
    ensures var st1 := Seal(st0, term);
      && Grows(st, st1, {st.cur}) && Linked(st1) && Untouched(st1, lo, lo + n) && st1.Ok()
      && st.cur < |st1.blocks| && st1.blocks[st.cur].term.Some? && Finished(st1, |st.blocks|, |st1.blocks|)
      && st1.frags == st.frags
  {
    SealGrows(st0, term);
    var st1 := Seal(st0, term);
    GrowsTrans(st, st0, st1, {st.cur}, {st.cur});
    LinkedGrows(st, st1, {st.cur});
    UntouchedGrows(st0, st1, {st.cur}, lo, lo + n);
  }

  /** After one arm the blocks of the next are still untouched and the registers have kept their places. */
  lemma ArmsKeep(st: Builder, st': Builder, lo: nat, n: nat, lo': nat, hi': nat)
    requires CompletesArms(st, st', lo, n) && lo + n <= lo' && Untouched(st, lo', hi') && st.Ok()
    ensures Untouched(st', lo', hi') && Linked(st') && SameShape(st.regs, st'.regs) && SameShape(st'.regs, st.regs)
    ensures st'.frags == st.frags
  {
    UntouchedGrows(st, st', Range(lo, lo + n), lo', hi');
  }

  lemma {:induction false} TrapCompletes(t: TargetInfo, clusters: map<LVar, FragKind>, st: Builder, s: Stm, lo: nat)
    requires s.ARITH? && s.arith.TRAP?
    requires Ready(st, lo, NumArms(s.k)) && Numbered(s.k, lo) && JumpsKnown(s.k, st.frags.Keys)
    requires |t.stkOffset| == NUM_REGS
    ensures Completes(st, GenStm(t, clusters, TrapHead(t, st, s), s.k), lo, NumArms(s.k))
    decreases s, 1
  {
    hide Grows, Untouched, Linked, Finished, Completes, Ready, GenStm, Numbered, JumpsKnown, TrapHead;
    var n := NumArms(s.k);
    TrapHeadReady(t, st, s, lo, n);
    ReadyOpen(st, lo, n);
    GenStmCompletes(t, clusters, TrapHead(t, st, s), s.k, lo);
    CompletesAfterSplit(st, TrapHead(t, st, s), GenStm(t, clusters, TrapHead(t, st, s), s.k), lo, n);
  }

  lemma TrapHeadReady(t: TargetInfo, st: Builder, s: Stm, lo: nat, n: nat)
    requires s.ARITH? && s.arith.TRAP? && Ready(st, lo, n) && |t.stkOffset| == NUM_REGS
    ensures var st2 := TrapHead(t, st, s);
      && Ready(st2, lo, n) && Grows(st, st2, {st.cur}) && st2.cur == |st.blocks| && st2.frags == st.frags
      && st.cur < |st2.blocks| && st2.blocks[st.cur].term.Some? && Finished(st2, |st.blocks| + 1, |st2.blocks|)
  {
    var (l1, os) := GenExps(t, st.OpenLine(), s.args);
    var (l2, res, obit) := GenTrap(l1, s.arith.op, os);
    hide GenExps, GenTrap, SplitOnTrap;
    PutReady(st, Bind(l2, s.x, res), lo, n);
    SplitReady(t, st, st.Put(Bind(l2, s.x, res)), obit, lo, n);
  }

  lemma SplitReady(t: TargetInfo, st: Builder, st1: Builder, obit: Operand, lo: nat, n: nat)
    requires Ready(st, lo, n) && Ready(st1, lo, n) && |t.stkOffset| == NUM_REGS
    requires Grows(st, st1, {st.cur}) && st1.cur == st.cur && |st1.blocks| == |st.blocks|
    ensures var st2 := SplitOnTrap(t, st1, obit);
      && Ready(st2, lo, n) && Grows(st, st2, {st.cur}) && st2.cur == |st.blocks| && st2.frags == st.frags
      && st.cur < |st2.blocks| && st2.blocks[st.cur].term.Some? && Finished(st2, |st.blocks| + 1, |st2.blocks|)
  {
    SplitOnTrapGrows(t, st1, obit);
    var st2 := SplitOnTrap(t, st1, obit);
    GrowsTrans(st, st1, st2, {st.cur}, {st.cur});
    UntouchedGrows(st1, st2, {st.cur}, lo, lo + n);
  }

  lemma CompletesAfterSplit(st: Builder, st2: Builder, st': Builder, lo: nat, n: nat)
    requires Grows(st, st2, {st.cur}) && st2.cur == |st.blocks| && lo + n <= |st.blocks|
    requires st.cur < |st2.blocks| && st2.blocks[st.cur].term.Some? && Finished(st2, |st.blocks| + 1, |st2.blocks|)
    requires Completes(st2, st', lo, n)
    ensures Completes(st, st', lo, n)
  {
    var own := {st.cur} + Range(lo, lo + n);
    assert Grows(st, st2, own);
    GrowsTrans(st, st2, st', own, {st2.cur} + Range(lo, lo + n));
    FinishedGrows(st2, st', {st2.cur} + Range(lo, lo + n), |st.blocks| + 1, |st2.blocks|);
    assert BlockGrows(st2.blocks[st.cur], st'.blocks[st.cur]);
  }

  /** Generating a statement finishes the insertion block and every block the statement owns or creates,
      and leaves the code of all other blocks alone. */
  lemma {:induction false} GenStmCompletes(t: TargetInfo, clusters: map<LVar, FragKind>, st: Builder, s: Stm, lo: nat)
    requires Ready(st, lo, NumArms(s)) && Numbered(s, lo) && JumpsKnown(s, st.frags.Keys) && |t.stkOffset| == NUM_REGS
    ensures Completes(st, GenStm(t, clusters, st, s), lo, NumArms(s))
    decreases s, 2
  {
    var l, n := st.OpenLine(), NumArms(s);
    if IsSimple(s) {
      var l1 := GenSimple(t, l, s);
      PutReady(st, l1, lo, n);
      assert Cont(s) < s;
      GenStmCompletes(t, clusters, st.Put(l1), Cont(s), lo);
      CompletesAfter(st, st.Put(l1), GenStm(t, clusters, st.Put(l1), Cont(s)), lo, n);
    } else {
      match s
      case ARITH(op, args, x, k) =>
        TrapCompletes(t, clusters, st, s, lo);
      case APPLY(fn, args) =>
        var l1 := GenCall(t, l, fn, CalleeKind(clusters, fn), args);
        PutReady(st, l1, lo, 0);
        SealCompletes(st, st.Put(l1), RetVoid, lo);
      case THROW(fn, args) =>
        var l1 := GenCall(t, l, fn, STD_CONT, args);
        PutReady(st, l1, lo, 0);
        SealCompletes(st, st.Put(l1), RetVoid, lo);
      case GOTO(lab, args) =>
        var (l1, os) := GenExps(t, l, args);
        JumpCompletes(st, l1, lab, CreateArgs(t, l.regs, INTERNAL) + os, lo);
      case SWITCH(e, arms) =>
        SwitchCompletes(t, clusters, st, s, lo);
      case BRANCH(op, args, a, b) =>
        BranchCompletes(t, clusters, st, s, lo);
    }
  }
}
