/** When the source has no meaning: only where a switch's argument names no arm. */
module SwitchRange {
  import opened Common
  import opened CMRegisters
  import opened TargetIR
  import opened CFG
  import opened Creation
  import opened WholeRuns

  /** Evaluating the statement comes to a switch whose argument is not the number of an arm. */
  ghost predicate OutOfRange(sem: Semantics, s: SState, stm: Stm)
    requires |s.regs| == NUM_REGS
    decreases stm
  {
    match stm
    case LET(e, x, k) => OutOfRange(sem, s.(env := s.env[x := sem.Exp(e, s)]), k)
    case ALLOC(op, args, x, k) =>
      AllocArity(op, |args|) &&
      var (obj, s1) := sem.Alloc(op, sem.Exps(args, s), s);
      OutOfRange(sem, s1.(env := s1.env[x := obj]), k)
    case APPLY(_, _) => false
    case THROW(_, _) => false
    case GOTO(_, _) => false
    case SWITCH(e, arms) =>
      var v := sem.Exp(e, s);
      if 0 <= v < |arms| then OutOfRange(sem, s, arms[v].body) else true
    case BRANCH(op, args, t, f) => if sem.Test(op, sem.Exps(args, s), s) then OutOfRange(sem, s, t.body)
      else OutOfRange(sem, s, f.body)
    case ARITH(op, args, x, k) =>
      (match op
       case TRAP(o) =>
         var (v, trapped) := sem.prims.arith(o, sem.Exps(args, s));
         !trapped && OutOfRange(sem, s.(env := s.env[x := v]), k)
       case NOTRAP(o) => OutOfRange(sem, s.(env := s.env[x := sem.prims.pure(o, sem.Exps(args, s))]), k))
    case SETTER(op, args, k) => SetterArity(op, |args|) && OutOfRange(sem, sem.Set(op, sem.Exps(args, s), s), k)
    case CALLGC(roots, newRoots, k) =>
      var r := sem.prims.gc(s.regs, sem.Exps(roots, s), s.mem);
      |r.regs| == NUM_REGS && |r.roots| >= |newRoots|
        && OutOfRange(sem, SState(BindAll(s.env, newRoots, r.roots, |newRoots|), r.regs, r.mem), k)
  }

  /** A jump carries all registers. */
  ghost predicate FullRegs(o: Outcome) { o.Jump? ==> |o.regs| == NUM_REGS }

  lemma {:induction false} RunSticks(sem: Semantics, c: Context, s: SState, stm: Stm, scope: set<LVar>)
    requires Scoped(c, stm, scope) && ValidPrims(sem.prims) && sem.target == c.target && |s.regs| == NUM_REGS
    ensures sem.Run(s, stm) == Stuck <==> OutOfRange(sem, s, stm)
    ensures FullRegs(sem.Run(s, stm))
    decreases stm
  {
    match stm
    case LET(e, x, k) => RunSticks(sem, c, s.(env := s.env[x := sem.Exp(e, s)]), k, scope + {x});
    case ALLOC(op, args, x, k) =>
      var (obj, s1) := sem.Alloc(op, sem.Exps(args, s), s);
      RunSticks(sem, c, s1.(env := s1.env[x := obj]), k, scope + {x});
    case SWITCH(e, arms) =>
      var v := sem.Exp(e, s);
      if 0 <= v < |arms| {
        ScopedArmAt(c, arms, scope, v);
        RunSticks(sem, c, s, arms[v].body, scope);
      }
    case BRANCH(_, _, a, b) =>
      RunSticks(sem, c, s, a.body, scope);
      RunSticks(sem, c, s, b.body, scope);
    case ARITH(op, args, x, k) =>
      match op {
        case TRAP(o) =>
          RunSticks(sem, c, s.(env := s.env[x := sem.prims.arith(o, sem.Exps(args, s)).0]), k, scope + {x});
        case NOTRAP(o) =>
          RunSticks(sem, c, s.(env := s.env[x := sem.prims.pure(o, sem.Exps(args, s))]), k, scope + {x});
      }
    case SETTER(op, args, k) => RunSticks(sem, c, sem.Set(op, sem.Exps(args, s), s), k, scope);
    case CALLGC(roots, xs, k) =>
      var r := sem.prims.gc(s.regs, sem.Exps(roots, s), s.mem);
      RunSticks(sem, c, SState(BindAll(s.env, xs, r.roots, |xs|), r.regs, r.mem), k, scope + Elems(xs));
    case _ =>
  }

  /** The run of a fragment on these arguments comes to such a switch. */
  ghost predicate FragOutOfRange(sem: Semantics, f: Frag, args: seq<Word>, regs: seq<Word>, mem: Mem) {
    |args| == |f.params| && |regs| == NUM_REGS
      && OutOfRange(sem, SState(BindAll(map[], f.params, args, |args|), regs, mem), f.body.body)
  }

  lemma EnterSticks(sem: Semantics, c: Context, f: Frag, args: seq<Word>, regs: seq<Word>, mem: Mem)
    requires WellScopedFrag(c, f) && ValidPrims(sem.prims) && sem.target == c.target && |args| == |f.params|
    requires |regs| == NUM_REGS
    ensures sem.Enter(f, args, regs, mem) == Stuck <==> FragOutOfRange(sem, f, args, regs, mem)
    ensures FullRegs(sem.Enter(f, args, regs, mem)) && JumpFits(c, sem.Enter(f, args, regs, mem))
  {
    RunSticks(sem, c, SState(BindAll(map[], f.params, args, |args|), regs, mem), f.body.body, Elems(f.params));
    EnterJumpFits(sem, c, f, args, regs, mem);
  }

  /** The fragment a jump goes to comes to such a switch. */
  ghost predicate JumpOutOfRange(sem: Semantics, cl: Cluster, o: Outcome) {
    exists i :: 0 < i < |cl.frags| && o.Jump? && cl.frags[i].lab == o.lab
      && FragOutOfRange(sem, cl.frags[i], o.args, o.regs, o.mem)
  }

  /** One of the first n jumps goes to a fragment that comes to such a switch. */
  ghost predicate OutOfRangeWithin(sem: Semantics, cl: Cluster, o: Outcome, n: nat) {
    n > 0 && (OutOfRangeWithin(sem, cl, o, n - 1) || JumpOutOfRange(sem, cl, sem.RunCluster(cl, o, n - 1)))
  }

  /** The source gets stuck exactly where a fragment it enters comes to a switch out of range. */
  lemma {:induction false} ClusterSticks(sem: Semantics, c: Context, cl: Cluster, o: Outcome, n: nat)
    requires WellScoped(c, cl) && ValidPrims(sem.prims) && sem.target == c.target && JumpFits(c, o) && FullRegs(o)
    requires o != Stuck
    ensures sem.RunCluster(cl, o, n) == Stuck <==> OutOfRangeWithin(sem, cl, o, n)
    ensures JumpFits(c, sem.RunCluster(cl, o, n)) && FullRegs(sem.RunCluster(cl, o, n))
    decreases n
  {
    hide *;
    if n == 0 {
      RunNone(sem, cl, o);
      NoneWithin(sem, cl, o);
    } else {
      ClusterSticks(sem, c, cl, o, n - 1);
      RunClusterSnoc(sem, cl, o, n - 1);
      JumpSticks(sem, c, cl, sem.RunCluster(cl, o, n - 1));
      OneMoreWithin(sem, cl, o, n);
    }
  }

  lemma NoneWithin(sem: Semantics, cl: Cluster, o: Outcome)
    ensures !OutOfRangeWithin(sem, cl, o, 0)
  {}

  lemma OneMoreWithin(sem: Semantics, cl: Cluster, o: Outcome, n: nat)
    requires n > 0
    ensures OutOfRangeWithin(sem, cl, o, n) <==>
      OutOfRangeWithin(sem, cl, o, n - 1) || JumpOutOfRange(sem, cl, sem.RunCluster(cl, o, n - 1))
  {
    hide JumpOutOfRange;
  }

  lemma JumpSticks(sem: Semantics, c: Context, cl: Cluster, o: Outcome)
    requires WellScoped(c, cl) && ValidPrims(sem.prims) && sem.target == c.target && JumpFits(c, o) && FullRegs(o)
    ensures var o' := sem.RunCluster(cl, o, 1);
      (o' == Stuck <==> o == Stuck || JumpOutOfRange(sem, cl, o)) && JumpFits(c, o') && FullRegs(o')
  {
    assert o.Jump? ==> |o.regs| == NUM_REGS;
    if o.Jump? {
      var i := Target(c, cl, o);
      OneJump(sem, cl, o);
      hide *;
      TargetSticks(sem, c, cl, o, i);
      EnterSticks(sem, c, cl.frags[i], o.args, o.regs, o.mem);
    } else {
      RunStays(sem, cl, o);
    }
  }

  /** The internal fragment a fitting jump goes to. */
  lemma Target(c: Context, cl: Cluster, o: Outcome) returns (i: nat)
    requires WellScoped(c, cl) && o.Jump? && JumpFits(c, o)
    ensures 0 < i < |cl.frags| && cl.frags[i].lab == o.lab && FindFrag(cl.frags, o.lab) == Some(i)
    ensures |o.args| == |cl.frags[i].params| && WellScopedFrag(c, cl.frags[i])
  {
    FindFragFinds(cl.frags, o.lab);
    var j :| 0 < j < |cl.frags| && cl.frags[j].lab == o.lab && c.arity[o.lab] == |cl.frags[j].params|;
    assert cl.frags[j].kind == INTERNAL;
    i := FindFrag(cl.frags, o.lab).value;
    assert i == j;
  }

  lemma TargetSticks(sem: Semantics, c: Context, cl: Cluster, o: Outcome, i: nat)
    requires WellScoped(c, cl) && o.Jump? && 0 < i < |cl.frags| && cl.frags[i].lab == o.lab
    ensures JumpOutOfRange(sem, cl, o) <==> FragOutOfRange(sem, cl.frags[i], o.args, o.regs, o.mem)
  {
    hide FragOutOfRange, WellScopedFrag;
  }
}
