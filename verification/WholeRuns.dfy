/** Whole runs of a cluster's function: whatever the source does, jump after jump, the function does. */
module WholeRuns {
  import opened Common
  import opened CMRegisters
  import opened TargetIR
  import opened CFG
  import opened CodeBuilder
  import opened StraightLine
  import opened Growth
  import opened Phis
  import opened Control
  import opened Correctness
  import opened Creation
  import opened ClusterCorrectness

  // ----- the state after block creation -----

  lemma {:induction false} InitFragsRegs(t: TargetInfo, fs: seq<Frag>)
    requires |t.stkOffset| == NUM_REGS
    ensures var (st, fs') := InitFrags(t, InitialBuilder(), fs);
      st.regs == InitialBuilder().regs && st.cur == 0 && st.vMap == map[]
      && (fs != [] ==> fs'[0].body.bb == Some(0) && 0 < |st.blocks|)
  {
    if fs != [] {
      InitFragsRegs(t, fs[..|fs| - 1]);
    }
  }

  lemma CreatedReceives(c: Context, cl: Cluster, st: Builder, fs: seq<Frag>)
    requires WellScoped(c, cl) && Created(c, st, cl.frags, fs)
    ensures Receives(c, st)
  {
    forall lab | lab in c.arity
      ensures lab in st.frags && st.frags[lab] < |st.blocks|
        && |st.blocks[st.frags[lab]].phis| == |MachineRegs(c.target)| + c.arity[lab]
        && DistinctPhis(st.blocks[st.frags[lab]].phis)
    {
      var i :| 0 < i < |cl.frags| && cl.frags[i].lab == lab && c.arity[lab] == |cl.frags[i].params|;
      assert CreatedFrag(c, st, cl.frags[i], fs[i]);
    }
  }

  /** Block creation prepares every well-scoped cluster. */
  lemma InitPrepares(c: Context, cl: Cluster)
    requires WellScoped(c, cl)
    ensures var (st, fs) := InitFrags(c.target, InitialBuilder(), cl.frags);
      Prepared(c, cl, st, fs) && Created(c, st, cl.frags, fs) && ArmBB(fs[0].body) == 0
  {
    var (st, fs) := InitFrags(c.target, InitialBuilder(), cl.frags);
    UniqueLabels(c, cl);
    InitFragsCreate(c, cl.frags);
    InitFragsRegs(c.target, cl.frags);
    hide InitFrags, WellScoped;
    CreatedReceives(c, cl, st, fs);
    CreatedPends(c, st, cl.frags, fs);
  }

  lemma UniqueLabels(c: Context, cl: Cluster)
    requires WellScoped(c, cl)
    ensures forall i, j :: 0 <= i < j < |cl.frags| ==> cl.frags[i].lab != cl.frags[j].lab
    ensures |cl.frags| > 0 && |c.target.stkOffset| == NUM_REGS
  {}

  lemma CreatedPends(c: Context, st: Builder, fs0: seq<Frag>, fs: seq<Frag>)
    requires Created(c, st, fs0, fs) && Receives(c, st) && st.Ok() && |c.target.stkOffset| == NUM_REGS
    requires st.regs == InitialBuilder().regs
    ensures Pending(c, st, fs0, fs, 0)
  {}

  // ----- jumps find their fragments -----

  lemma {:induction false} FindFragFinds(fs: seq<Frag>, lab: LVar)
    ensures var r := FindFrag(fs, lab);
      && (r.Some? ==> r.value < |fs| && fs[r.value].lab == lab && fs[r.value].kind == INTERNAL)
      && (r.None? ==> forall i :: 0 <= i < |fs| ==> fs[i].lab != lab || fs[i].kind != INTERNAL)
  {
    if fs != [] { FindFragFinds(fs[..|fs| - 1], lab); }
  }

  /** Every jump of a fragment goes to a known label with the right number of arguments. */
  ghost predicate JumpFits(c: Context, o: Outcome) {
    o.Jump? ==> o.lab in c.arity && |o.args| == c.arity[o.lab]
  }

  lemma {:induction false} RunJumpFits(sem: Semantics, c: Context, s: Stm, scope: set<LVar>, src: SState)
    requires Scoped(c, s, scope) && |src.regs| == NUM_REGS
    ensures JumpFits(c, sem.Run(src, s))
    decreases s
  {
    match s
    case LET(e, x, k) => RunJumpFits(sem, c, k, scope + {x}, src.(env := src.env[x := sem.Exp(e, src)]));
    case ALLOC(op, args, x, k) =>
      var (obj, s1) := sem.Alloc(op, sem.Exps(args, src), src);
      RunJumpFits(sem, c, k, scope + {x}, s1.(env := s1.env[x := obj]));
    case SWITCH(e, arms) =>
      var v := sem.Exp(e, src);
      if 0 <= v < |arms| {
        ScopedArmAt(c, arms, scope, v);
        RunJumpFits(sem, c, arms[v].body, scope, src);
      }
    case BRANCH(_, _, a, b) =>
      RunJumpFits(sem, c, a.body, scope, src);
      RunJumpFits(sem, c, b.body, scope, src);
    case ARITH(op, args, x, k) =>
      match op {
        case TRAP(o) =>
          RunJumpFits(sem, c, k, scope + {x}, src.(env := src.env[x := sem.prims.arith(o, sem.Exps(args, src)).0]));
        case NOTRAP(o) =>
          RunJumpFits(sem, c, k, scope + {x}, src.(env := src.env[x := sem.prims.pure(o, sem.Exps(args, src))]));
      }
    case SETTER(op, args, k) => RunJumpFits(sem, c, k, scope, sem.Set(op, sem.Exps(args, src), src));
    case CALLGC(roots, xs, k) =>
      var r := sem.prims.gc(src.regs, sem.Exps(roots, src), src.mem);
      if |r.regs| == NUM_REGS && |r.roots| >= |xs| {
        RunJumpFits(sem, c, k, scope + Elems(xs), SState(BindAll(src.env, xs, r.roots, |xs|), r.regs, r.mem));
      }
    case _ =>
  }

  lemma {:induction false} ScopedArmAt(c: Context, arms: seq<Arm>, scope: set<LVar>, i: nat)
    requires ScopedArms(c, arms, scope) && i < |arms|
    ensures Scoped(c, arms[i].body, scope)
    decreases arms
  {
    ScopedArmsUnfold(c, arms, scope);
    if i < |arms| - 1 { ScopedArmAt(c, arms[..|arms| - 1], scope, i); }
  }

  lemma EnterJumpFits(sem: Semantics, c: Context, f: Frag, args: seq<Word>, regs: seq<Word>, mem: Mem)
    requires WellScopedFrag(c, f)
    ensures JumpFits(c, sem.Enter(f, args, regs, mem))
  {
    if |args| == |f.params| && |regs| == NUM_REGS {
      RunJumpFits(sem, c, f.body.body, Elems(f.params), SState(BindAll(map[], f.params, args, |args|), regs, mem));
    }
  }

  // ----- runs -----

  /** The target gets to r, and is not there before n steps unless it has already left the function. */
  ghost predicate Advances(m: Machine, n: nat, ts: TState, r: Result) {
    exists k: nat :: k >= n && m.Steps(k, ts) == r
  }

  /** Once control has left, it has left for good. */
  lemma {:induction false} StaysOut(m: Machine, k: nat, j: nat, ts: TState)
    requires k <= j && !m.Steps(k, ts).Running?
    ensures m.Steps(j, ts) == m.Steps(k, ts)
  {
    m.StepsCompose(k, j - k, ts);
  }

  lemma AdvancesLeads(m: Machine, n: nat, a: TState, b: TState, r: Result)
    requires Advances(m, n, a, Running(b)) && Leads(m, b, r)
    ensures Advances(m, n + 1, a, r)
  {
    var j: nat :| j >= n && m.Steps(j, a) == Running(b);
    var k: nat :| k > 0 && m.Steps(k, b) == r;
    m.StepsCompose(j, k, a);
    assert m.Steps(j + k, a) == r;
  }

  lemma AdvancesOut(m: Machine, n: nat, a: TState, r: Result)
    requires Advances(m, n, a, r) && !r.Running?
    ensures Advances(m, n + 1, a, r)
  {
    var j: nat :| j >= n && m.Steps(j, a) == r;
    StaysOut(m, j, j + 1, a);
  }

  /** One more jump of the source, seen from its end. */
  lemma {:induction false} RunClusterSnoc(sem: Semantics, cl: Cluster, o: Outcome, n: nat)
    ensures sem.RunCluster(cl, o, n + 1) == sem.RunCluster(cl, sem.RunCluster(cl, o, n), 1)
    decreases n
  {
    if n > 0 && o.Jump? {
      match FindFrag(cl.frags, o.lab)
      case None =>
      case Some(i) =>
        if i < |cl.frags| { RunClusterSnoc(sem, cl, sem.Enter(cl.frags[i], o.args, o.regs, o.mem), n - 1); }
    }
  }

  lemma {:induction false} OneJump(sem: Semantics, cl: Cluster, o: Outcome)
    requires o.Jump?
    ensures sem.RunCluster(cl, o, 1) ==
      match FindFrag(cl.frags, o.lab)
      case None => Stuck
      case Some(i) => if i < |cl.frags| then sem.Enter(cl.frags[i], o.args, o.regs, o.mem) else Stuck
  {
    if FindFrag(cl.frags, o.lab).Some? && FindFrag(cl.frags, o.lab).value < |cl.frags| {
      var i := FindFrag(cl.frags, o.lab).value;
      var o' := sem.Enter(cl.frags[i], o.args, o.regs, o.mem);
      assert sem.RunCluster(cl, o', 0) == o';
    }
  }

  /** The function generated for a cluster. */
  ghost predicate Compiled(sem: Semantics, c: Context, cl: Cluster, m: Machine) {
    && WellScoped(c, cl) && Same(sem, c, m) && Setting(m)
    && m.blocks == GenCluster(c.target, c.clusters, cl).blocks
  }

  /** The function is entered as the convention prescribes. */
  ghost predicate Called(cl: Cluster, m: Machine, args: seq<Word>, regs: seq<Word>, mem: Mem, ts: TState)
    requires |cl.frags| > 0
  {
    && |args| == |cl.frags[0].params| && CalledWith(m, cl.frags[0].kind, args, regs)
    && SlotsHold(m, regs, ts.frame) && RuntimeIn(m, ts.frame) && ts.mem == mem && ts.block == 0 && ts.ix == 0
  }

  function CreatedFrags(t: TargetInfo, cl: Cluster): map<LVar, nat>
    requires |t.stkOffset| == NUM_REGS
  {
    InitFrags(t, InitialBuilder(), cl.frags).0.frags
  }

  lemma JumpLands(sem: Semantics, c: Context, cl: Cluster, m: Machine, o: Outcome, ts: TState) returns (r: Result)
    requires Compiled(sem, c, cl, m) && o.Jump? && JumpFits(c, o)
    requires Agrees(m, CreatedFrags(c.target, cl), o, Running(ts))
    ensures Leads(m, ts, r) && Agrees(m, CreatedFrags(c.target, cl), sem.RunCluster(cl, o, 1), r)
    ensures JumpFits(c, sem.RunCluster(cl, o, 1))
  {
    var (st, fs) := InitFrags(c.target, InitialBuilder(), cl.frags);
    InitPrepares(c, cl);
    var i := JumpTarget(c, cl, st, fs, o);
    OneJump(sem, cl, o);
    EnterJumpFits(sem, c, cl.frags[i], o.args, o.regs, o.mem);
    hide Leads, Agrees, Prepared, WellScoped, Created, CreatedFrag, Same, Setting, InitFrags, JumpFits, WellScopedFrag,
      FindFrag;
    r := InternalFragSim(sem, c, cl, m, st, fs, i, o.args, o.regs, o.mem, ts);
  }

  /** A jump that fits finds the one internal fragment with its label. */
  lemma JumpTarget(c: Context, cl: Cluster, st: Builder, fs: seq<Frag>, o: Outcome) returns (i: nat)
    requires WellScoped(c, cl) && Created(c, st, cl.frags, fs) && o.Jump? && JumpFits(c, o)
    ensures 0 < i < |cl.frags| && FindFrag(cl.frags, o.lab) == Some(i) && |fs| == |cl.frags|
    ensures |o.args| == |cl.frags[i].params| == |fs[i].params| && WellScopedFrag(c, cl.frags[i])
    ensures o.lab in st.frags && st.frags[o.lab] == ArmBB(fs[i].body)
  {
    FindFragFinds(cl.frags, o.lab);
    var j :| 0 < j < |cl.frags| && cl.frags[j].lab == o.lab && c.arity[o.lab] == |cl.frags[j].params|;
    assert cl.frags[j].kind == INTERNAL;
    i := FindFrag(cl.frags, o.lab).value;
    assert CreatedFrag(c, st, cl.frags[i], fs[i]);
  }

  lemma EntryLands(sem: Semantics, c: Context, cl: Cluster, m: Machine, args: seq<Word>, regs: seq<Word>, mem: Mem,
                   ts: TState)
    returns (r: Result)
    requires Compiled(sem, c, cl, m) && Called(cl, m, args, regs, mem, ts)
    ensures var o := sem.Enter(cl.frags[0], args, regs, mem);
      JumpFits(c, o) && Leads(m, ts, r) && Agrees(m, CreatedFrags(c.target, cl), o, r)
  {
    var (st, fs) := InitFrags(c.target, InitialBuilder(), cl.frags);
    InitPrepares(c, cl);
    assert CreatedFrag(c, st, cl.frags[0], fs[0]);
    EnterJumpFits(sem, c, cl.frags[0], args, regs, mem);
    hide Leads, Agrees, Prepared, WellScoped, Created, CreatedFrag, Same, Setting, InitFrags, CalledWith, SlotsHold,
      RuntimeIn;
    r := EntryFragSim(sem, c, cl, m, st, fs, args, regs, mem, ts);
  }

  /** For every number of jumps the source makes, the target gets to the corresponding place. */
  lemma {:induction false} ClusterSim(sem: Semantics, c: Context, cl: Cluster, m: Machine, args: seq<Word>,
                                      regs: seq<Word>, mem: Mem, ts: TState, n: nat)
    returns (r: Result)
    requires Compiled(sem, c, cl, m) && Called(cl, m, args, regs, mem, ts)
    ensures var o := sem.RunCluster(cl, sem.Enter(cl.frags[0], args, regs, mem), n);
      JumpFits(c, o) && (o != Stuck ==> Advances(m, n + 1, ts, r) && Agrees(m, CreatedFrags(c.target, cl), o, r))
    decreases n
  {
    CompiledSome(sem, c, cl, m);
    hide *;
    var o0 := sem.Enter(cl.frags[0], args, regs, mem);
    if n == 0 {
      RunNone(sem, cl, o0);
      r := EntryLands(sem, c, cl, m, args, regs, mem, ts);
      LeadsAdvances(m, ts, r);
    } else {
      var r1 := ClusterSim(sem, c, cl, m, args, regs, mem, ts, n - 1);
      RunClusterSnoc(sem, cl, o0, n - 1);
      r := NextSim(sem, c, cl, m, sem.RunCluster(cl, o0, n - 1), n, ts, r1);
    }
  }

  /** One more jump, if there is one. */
  lemma NextSim(sem: Semantics, c: Context, cl: Cluster, m: Machine, o: Outcome, n: nat, ts: TState, r: Result)
    returns (r': Result)
    requires Compiled(sem, c, cl, m) && JumpFits(c, o) && |cl.frags| > 0 && |c.target.stkOffset| == NUM_REGS
    requires o != Stuck ==> Advances(m, n, ts, r) && Agrees(m, CreatedFrags(c.target, cl), o, r)
    ensures var o' := sem.RunCluster(cl, o, 1);
      JumpFits(c, o') && (o' != Stuck ==> Advances(m, n + 1, ts, r') && Agrees(m, CreatedFrags(c.target, cl), o', r'))
  {
    hide *;
    if o.Jump? {
      AgreesHow(m, CreatedFrags(c.target, cl), o, r);
      r' := JumpLands(sem, c, cl, m, o, r.state);
      AdvancesLeads(m, n, ts, r.state, r');
    } else {
      RunStays(sem, cl, o);
      r' := r;
      if o != Stuck {
        AgreesHow(m, CreatedFrags(c.target, cl), o, r);
        AdvancesOut(m, n, ts, r);
      }
    }
  }

  lemma CompiledSome(sem: Semantics, c: Context, cl: Cluster, m: Machine)
    requires Compiled(sem, c, cl, m)
    ensures |cl.frags| > 0 && |c.target.stkOffset| == NUM_REGS
  {}

  lemma RunNone(sem: Semantics, cl: Cluster, o: Outcome)
    ensures sem.RunCluster(cl, o, 0) == o
  {}

  lemma RunStays(sem: Semantics, cl: Cluster, o: Outcome)
    requires !o.Jump?
    ensures sem.RunCluster(cl, o, 1) == o
  {}

  /** Only a jump leaves the function running. */
  lemma AgreesHow(m: Machine, frags: map<LVar, nat>, o: Outcome, r: Result)
    requires Agrees(m, frags, o, r) && o != Stuck
    ensures o.Jump? <==> r.Running?
  {}

  lemma LeadsAdvances(m: Machine, ts: TState, r: Result)
    requires Leads(m, ts, r)
    ensures Advances(m, 1, ts, r)
  {}

  /** The function never goes wrong unless the source does. */
  lemma NeverWrong(sem: Semantics, c: Context, cl: Cluster, m: Machine, args: seq<Word>, regs: seq<Word>, mem: Mem,
                   ts: TState, k: nat)
    requires Compiled(sem, c, cl, m) && Called(cl, m, args, regs, mem, ts)
    requires forall n: nat :: sem.RunCluster(cl, sem.Enter(cl.frags[0], args, regs, mem), n) != Stuck
    ensures m.Steps(k, ts) != Wrong
  {
    var o := sem.RunCluster(cl, sem.Enter(cl.frags[0], args, regs, mem), k);
    var r := ClusterSim(sem, c, cl, m, args, regs, mem, ts, k);
    var j: nat :| j >= k && m.Steps(j, ts) == r;
    assert r != Wrong;
    if m.Steps(k, ts) == Wrong { StaysOut(m, k, j, ts); }
  }

  /** The source leaves the cluster exactly when the function exits, and then both leave in the same way: the
      same callee or handler, with the same registers, arguments and heap. */
  lemma SameExit(sem: Semantics, c: Context, cl: Cluster, m: Machine, args: seq<Word>, regs: seq<Word>, mem: Mem,
                 ts: TState, n: nat, k: nat)
    requires Compiled(sem, c, cl, m) && Called(cl, m, args, regs, mem, ts)
    requires var o := sem.RunCluster(cl, sem.Enter(cl.frags[0], args, regs, mem), n); o.Call? || o.Overflow?
    requires m.Steps(k, ts).Exited?
    ensures Agrees(m, CreatedFrags(c.target, cl), sem.RunCluster(cl, sem.Enter(cl.frags[0], args, regs, mem), n),
      m.Steps(k, ts))
  {
    var r := ClusterSim(sem, c, cl, m, args, regs, mem, ts, n);
    var j: nat :| j >= n + 1 && m.Steps(j, ts) == r;
    assert r.Exited?;
    if k <= j { StaysOut(m, k, j, ts); } else { StaysOut(m, j, k, ts); }
  }

  lemma ExitsTogether(sem: Semantics, c: Context, cl: Cluster, m: Machine, args: seq<Word>, regs: seq<Word>, mem: Mem,
                      ts: TState)
    requires Compiled(sem, c, cl, m) && Called(cl, m, args, regs, mem, ts)
    requires forall n: nat :: sem.RunCluster(cl, sem.Enter(cl.frags[0], args, regs, mem), n) != Stuck
    ensures (exists k: nat :: m.Steps(k, ts).Exited?) <==>
      (exists n: nat :: !sem.RunCluster(cl, sem.Enter(cl.frags[0], args, regs, mem), n).Jump?)
  {
    var o0 := sem.Enter(cl.frags[0], args, regs, mem);
    if exists n: nat :: !sem.RunCluster(cl, o0, n).Jump? {
      var n: nat :| !sem.RunCluster(cl, o0, n).Jump?;
      var r := ClusterSim(sem, c, cl, m, args, regs, mem, ts, n);
      var j: nat :| j >= n + 1 && m.Steps(j, ts) == r;
    }
    if exists k: nat :: m.Steps(k, ts).Exited? {
      var k: nat :| m.Steps(k, ts).Exited?;
      var r := ClusterSim(sem, c, cl, m, args, regs, mem, ts, k);
      var j: nat :| j >= k + 1 && m.Steps(j, ts) == r;
      StaysOut(m, k, j, ts);
      assert r.Exited?;
    }
  }
}
