/** The CFG intermediate representation: clusters of fragments whose bodies are trees of statements,
    their meaning, and what it takes for a cluster to be well scoped. */
module CFG {
  import opened Common
  import opened Bits
  import opened CMRegisters
  import opened TargetIR

  datatype FragKind = STD_FUN | STD_CONT | KNOWN_FUN | INTERNAL

  datatype LookerOp = GET_HDLR | GET_VAR | LOOK(op: nat)

  datatype Exp =
    | VAR(x: LVar)
    | LABEL(lab: LVar)
    | NUM(n: Word)
    | LOOKER(look: LookerOp, args: seq<Exp>)
    | PURE(op: nat, args: seq<Exp>)
    | SELECT(ix: nat, arg: Exp)

  datatype AllocOp =
    | RECORD(desc: Word)
    | SPECIAL
    | RAW_RECORD(desc: Word, fields: seq<nat>)             // field sizes in bytes
    | RAW_ALLOC(tag: Option<Word>, align: nat, len: nat)

  datatype SetterOp = UPDATE | ASSIGN | RAW(op: nat) | SET_HDLR | SET_VAR

  /** Addition, subtraction and multiplication trap on overflow; the others do not. */
  datatype ArithOp = TRAP(op: nat) | NOTRAP(op: nat)

  datatype BranchOp = COMPARE(op: nat) | LIMIT(amt: nat)

  /** A statement that starts a basic block carries the block it was given. */
  datatype Arm = Arm(bb: Option<nat>, body: Stm)

  datatype Stm =
    | LET(exp: Exp, x: LVar, k: Stm)
    | ALLOC(alloc: AllocOp, args: seq<Exp>, x: LVar, k: Stm)
    | APPLY(fn: Exp, args: seq<Exp>)
    | THROW(fn: Exp, args: seq<Exp>)
    | GOTO(lab: LVar, args: seq<Exp>)
    | SWITCH(scrut: Exp, arms: seq<Arm>)
    | BRANCH(test: BranchOp, args: seq<Exp>, onTrue: Arm, onFalse: Arm)
    | ARITH(arith: ArithOp, args: seq<Exp>, x: LVar, k: Stm)
    | SETTER(setter: SetterOp, args: seq<Exp>, k: Stm)
    | CALLGC(roots: seq<Exp>, newRoots: seq<LVar>, k: Stm)

  datatype Frag = Frag(kind: FragKind, lab: LVar, params: seq<LVar>, body: Arm)

  /** The first fragment is the entry. */
  datatype Cluster = Cluster(frags: seq<Frag>)

  // ----- field layout of raw records -----

  /** The offset just past the first n fields, each placed at a multiple of its size. */
  function FieldsEnd(sizes: seq<nat>, n: nat): nat
    requires n <= |sizes|
    decreases n, 0
  {
    if n == 0 then 0 else FieldOffset(sizes, n - 1) + sizes[n - 1]
  }

  function FieldOffset(sizes: seq<nat>, i: nat): nat
    requires i < |sizes|
    decreases i, 1
  {
    if sizes[i] == 0 then FieldsEnd(sizes, i) else RoundUp(FieldsEnd(sizes, i), sizes[i])
  }

  /** The bytes by which a raw record's allocation moves past the object's first field: the field
      area, rounded to words, is passed to an address computation that counts in words. */
  function RawRecordBump(wordSzB: nat, sizes: seq<nat>): nat {
    if wordSzB == 0 then 0 else RoundUp(FieldsEnd(sizes, |sizes|), wordSzB) * wordSzB
  }

  // ----- meaning -----

  /** Where a raw object's descriptor goes: a tagged object whose alignment exceeds the word starts one
      word before an aligned address. */
  function Aligned(prims: Prims, wordSzB: nat, op: AllocOp, p: Word): Word
    requires op.RAW_ALLOC?
  {
    if op.tag.Some? && op.align > wordSzB then prims.orWord(p, op.align - wordSzB) else p
  }

  function Tagged(prims: Prims, wordSzB: nat, op: AllocOp, q: Word, mem: Mem): Mem
    requires op.RAW_ALLOC?
  {
    if op.tag.Some? then prims.store(wordSzB, q, op.tag.value, mem) else mem
  }

  /** The state of a fragment's evaluation: variables, the five CMachine registers, the heap. */
  datatype SState = SState(env: map<LVar, Word>, regs: seq<Word>, mem: Mem)

  datatype Outcome =
    | Jump(lab: LVar, args: seq<Word>, regs: seq<Word>, mem: Mem)
    | Call(fn: Word, kind: FragKind, args: seq<Word>, regs: seq<Word>, mem: Mem)
    | Overflow(regs: seq<Word>, mem: Mem)
    | Stuck

  /** What a fragment's meaning depends on besides its own text. */
  datatype Semantics = Semantics(prims: Prims, target: TargetInfo, clusters: map<LVar, FragKind>) {

    function Exp(e: Exp, s: SState): Word
      requires |s.regs| == NUM_REGS
      decreases e
    {
      match e
      case VAR(x) => if x in s.env then s.env[x] else 0
      case LABEL(l) => prims.address(l)
      case NUM(n) => n
      case LOOKER(op, args) => Looker(op, Exps(args, s), s)
      case PURE(o, args) => prims.pure(o, Exps(args, s))
      case SELECT(i, a) => prims.load(Exp(a, s) + i * target.wordSzB, s.mem)
    }

    function Looker(op: LookerOp, ws: seq<Word>, s: SState): Word
      requires |s.regs| == NUM_REGS
    {
      match op
      case GET_HDLR => s.regs[EXN_HNDLR]
      case GET_VAR => s.regs[VAR_PTR]
      case LOOK(o) => prims.look(o, ws, s.mem)
    }

    function Exps(es: seq<Exp>, s: SState): (ws: seq<Word>)
      requires |s.regs| == NUM_REGS
      ensures |ws| == |es|
      decreases es
    {
      if es == [] then [] else Exps(es[..|es| - 1], s) + [Exp(es[|es| - 1], s)]
    }

    /** Stores the first n words of ws in the words that follow the one at p. */
    function StoreWords(p: Word, ws: seq<Word>, n: nat, mem: Mem): Mem
      requires n <= |ws|
    {
      if n == 0 then mem
      else prims.store(target.wordSzB, p + n * target.wordSzB, ws[n - 1], StoreWords(p, ws, n - 1, mem))
    }

    /** Stores the first n fields of a raw record whose fields start at base. */
    function StoreFields(base: Word, sizes: seq<nat>, ws: seq<Word>, n: nat, mem: Mem): Mem
      requires n <= |ws| && |ws| == |sizes|
    {
      if n == 0 then mem
      else prims.store(sizes[n - 1], base + FieldOffset(sizes, n - 1), ws[n - 1],
        StoreFields(base, sizes, ws, n - 1, mem))
    }

    /** A tagged object: its descriptor word, then its words; returns the address of the first word. */
    function Record(desc: Word, ws: seq<Word>, s: SState): (Word, SState)
      requires |s.regs| == NUM_REGS
    {
      var p, w := s.regs[ALLOC_PTR], target.wordSzB;
      (p + w, s.(mem := StoreWords(p, ws, |ws|, prims.store(w, p, desc, s.mem)),
                 regs := s.regs[ALLOC_PTR := p + (|ws| + 1) * w]))
    }

    /** The object an allocation yields and the state it leaves. The bump after a raw record is the one
        the generated code makes. */
    function Alloc(op: AllocOp, ws: seq<Word>, s: SState): (Word, SState)
      requires |s.regs| == NUM_REGS && AllocArity(op, |ws|)
    {
      var p, w := s.regs[ALLOC_PTR], target.wordSzB;
      match op
      case RECORD(desc) => Record(desc, ws, s)
      case SPECIAL => Record(ws[0], ws[1..], s)
      case RAW_RECORD(desc, sizes) =>
        (p + w, s.(mem := StoreFields(p + w, sizes, ws, |ws|, prims.store(w, p, desc, s.mem)),
                   regs := s.regs[ALLOC_PTR := p + w + RawRecordBump(w, sizes)]))
      case RAW_ALLOC(tag, align, len) =>
        var q := Aligned(prims, w, op, p);
        (q + w, s.(mem := Tagged(prims, w, op, q, s.mem), regs := s.regs[ALLOC_PTR := q + (len + w)]))
    }

    /** Records an assignment on the store list: a two-word cell holding the address and the old list. */
    function RecordStore(adr: Word, s: SState): SState
      requires |s.regs| == NUM_REGS
    {
      var p, w := s.regs[ALLOC_PTR], target.wordSzB;
      var mem := prims.store(w, p + w, s.regs[STORE_PTR], prims.store(w, p, adr, s.mem));
      s.(mem := mem, regs := s.regs[STORE_PTR := p][ALLOC_PTR := p + 2 * w])
    }

    function Set(op: SetterOp, ws: seq<Word>, s: SState): (s': SState)
      requires |s.regs| == NUM_REGS && SetterArity(op, |ws|)
      ensures |s'.regs| == NUM_REGS
    {
      match op
      case UPDATE =>
        var adr := ws[0] + target.wordSzB * ws[1];
        var s1 := RecordStore(adr, s);
        s1.(mem := prims.store(target.wordSzB, adr, ws[2], s1.mem))
      case ASSIGN =>
        var s1 := RecordStore(ws[0], s);
        s1.(mem := prims.store(target.wordSzB, ws[0], ws[1], s1.mem))
      case RAW(o) => s.(mem := prims.poke(o, ws, s.mem))
      case SET_HDLR => s.(regs := s.regs[EXN_HNDLR := ws[0]])
      case SET_VAR => s.(regs := s.regs[VAR_PTR := ws[0]])
    }

    /** A heap-limit test allows for the slop only when the request exceeds it. */
    function Test(op: BranchOp, ws: seq<Word>, s: SState): bool
      requires |s.regs| == NUM_REGS
    {
      match op
      case COMPARE(o) => prims.pure(o, ws) != 0
      case LIMIT(amt) =>
        if amt > target.allocSlopSzb
        then prims.uGreater(prims.pure(ADD_WORD, [s.regs[ALLOC_PTR], amt - target.allocSlopSzb]), s.regs[LIMIT_PTR])
        else prims.uGreater(s.regs[ALLOC_PTR], s.regs[LIMIT_PTR])
    }

    /** Evaluates a fragment's body up to the point where control leaves the fragment. */
    function Run(s: SState, stm: Stm): Outcome
      requires |s.regs| == NUM_REGS
      decreases stm
    {
      match stm
      case LET(e, x, k) => Run(s.(env := s.env[x := Exp(e, s)]), k)
      case ALLOC(op, args, x, k) =>
        if !AllocArity(op, |args|) then Stuck
        else
          var (obj, s1) := Alloc(op, Exps(args, s), s);
          Run(s1.(env := s1.env[x := obj]), k)
      case APPLY(fn, args) => Call(Exp(fn, s), CalleeKind(clusters, fn), Exps(args, s), s.regs, s.mem)
      case THROW(fn, args) => Call(Exp(fn, s), STD_CONT, Exps(args, s), s.regs, s.mem)
      case GOTO(lab, args) => Jump(lab, Exps(args, s), s.regs, s.mem)
      case SWITCH(e, arms) =>
        var v := Exp(e, s);
        if 0 <= v < |arms| then Run(s, arms[v].body) else Stuck
      case BRANCH(op, args, t, f) => if Test(op, Exps(args, s), s) then Run(s, t.body) else Run(s, f.body)
      case ARITH(op, args, x, k) =>
        (match op
         case TRAP(o) =>
           var (v, trapped) := prims.arith(o, Exps(args, s));
           if trapped then Overflow(s.regs, s.mem) else Run(s.(env := s.env[x := v]), k)
         case NOTRAP(o) => Run(s.(env := s.env[x := prims.pure(o, Exps(args, s))]), k))
      case SETTER(op, args, k) =>
        if !SetterArity(op, |args|) then Stuck else Run(Set(op, Exps(args, s), s), k)
      case CALLGC(roots, newRoots, k) =>
        var r := prims.gc(s.regs, Exps(roots, s), s.mem);
        if |r.regs| != NUM_REGS || |r.roots| < |newRoots| then Stuck
        else Run(SState(BindAll(s.env, newRoots, r.roots, |newRoots|), r.regs, r.mem), k)
    }

    /** Runs a fragment from its start. */
    function Enter(f: Frag, args: seq<Word>, regs: seq<Word>, mem: Mem): Outcome {
      if |args| == |f.params| && |regs| == NUM_REGS
      then Run(SState(BindAll(map[], f.params, args, |args|), regs, mem), f.body.body)
      else Stuck
    }

    /** Follows at most n jumps between the fragments of a cluster. */
    function RunCluster(cl: Cluster, o: Outcome, n: nat): Outcome
      decreases n
    {
      if n == 0 || !o.Jump? then o
      else
        match FindFrag(cl.frags, o.lab)
        case None => Stuck
        case Some(i) => if i < |cl.frags| then RunCluster(cl, Enter(cl.frags[i], o.args, o.regs, o.mem), n - 1)
          else Stuck
    }
  }

  /** The position of the internal fragment with the given label. */
  function FindFrag(fs: seq<Frag>, lab: LVar): Option<nat> {
    if fs == [] then None
    else if fs[|fs| - 1].lab == lab && fs[|fs| - 1].kind == INTERNAL then Some(|fs| - 1)
    else FindFrag(fs[..|fs| - 1], lab)
  }

  /** A known callee's own kind decides the convention; an unknown one is called as a function. */
  function CalleeKind(clusters: map<LVar, FragKind>, fn: Exp): FragKind {
    if fn.LABEL? && fn.lab in clusters then clusters[fn.lab] else STD_FUN
  }

  /** The native addition of the limit test, as a primitive. */
  const ADD_WORD: nat := 0

  function BindAll(env: map<LVar, Word>, xs: seq<LVar>, ws: seq<Word>, n: nat): map<LVar, Word>
    requires n <= |xs| && n <= |ws|
  {
    if n == 0 then env else BindAll(env, xs, ws, n - 1)[xs[n - 1] := ws[n - 1]]
  }

  predicate AllocArity(op: AllocOp, n: nat) {
    match op
    case RECORD(_) => true
    case SPECIAL => n == 2
    case RAW_RECORD(_, sizes) => n == |sizes| && forall i :: 0 <= i < n ==> IsPow2(sizes[i])
    case RAW_ALLOC(_, _, _) => true
  }

  predicate SetterArity(op: SetterOp, n: nat) {
    match op
    case UPDATE => n == 3
    case ASSIGN => n == 2
    case RAW(_) => true
    case SET_HDLR => n == 1
    case SET_VAR => n == 1
  }

  // ----- static well-formedness -----

  function Elems(xs: seq<LVar>): set<LVar> { set x | x in xs }

  function Binders(s: Stm): set<LVar>
    decreases s
  {
    match s
    case LET(_, x, k) => {x} + Binders(k)
    case ALLOC(_, _, x, k) => {x} + Binders(k)
    case APPLY(_, _) => {}
    case THROW(_, _) => {}
    case GOTO(_, _) => {}
    case SWITCH(_, arms) => ArmBinders(arms)
    case BRANCH(_, _, t, f) => Binders(t.body) + Binders(f.body)
    case ARITH(_, _, x, k) => {x} + Binders(k)
    case SETTER(_, _, k) => Binders(k)
    case CALLGC(_, xs, k) => Elems(xs) + Binders(k)
  }

  function ArmBinders(arms: seq<Arm>): set<LVar>
    decreases arms
  {
    if arms == [] then {}
    else
      var last := arms[|arms| - 1];
      assert last.body < last;
      ArmBinders(arms[..|arms| - 1]) + Binders(last.body)
  }

  /** No variable is bound twice, not even in different arms. */
  ghost predicate UniqueBinders(s: Stm)
    decreases s
  {
    match s
    case LET(_, x, k) => x !in Binders(k) && UniqueBinders(k)
    case ALLOC(_, _, x, k) => x !in Binders(k) && UniqueBinders(k)
    case APPLY(_, _) => true
    case THROW(_, _) => true
    case GOTO(_, _) => true
    case SWITCH(_, arms) => UniqueArmBinders(arms)
    case BRANCH(_, _, t, f) => Binders(t.body) !! Binders(f.body) && UniqueBinders(t.body) && UniqueBinders(f.body)
    case ARITH(_, _, x, k) => x !in Binders(k) && UniqueBinders(k)
    case SETTER(_, _, k) => UniqueBinders(k)
    case CALLGC(_, xs, k) => NoDup(xs) && (forall x :: x in xs ==> x !in Binders(k)) && UniqueBinders(k)
  }

  ghost predicate UniqueArmBinders(arms: seq<Arm>)
    decreases arms
  {
    arms == [] ||
    var last := arms[|arms| - 1];
    assert last.body < last;
    UniqueArmBinders(arms[..|arms| - 1]) && UniqueBinders(last.body)
      && ArmBinders(arms[..|arms| - 1]) !! Binders(last.body)
  }

  ghost predicate ScopedExp(e: Exp, scope: set<LVar>)
    decreases e
  {
    match e
    case VAR(x) => x in scope
    case LABEL(_) => true
    case NUM(_) => true
    case LOOKER(_, args) => ScopedExps(args, scope)
    case PURE(_, args) => ScopedExps(args, scope)
    case SELECT(_, a) => ScopedExp(a, scope)
  }

  ghost predicate ScopedExps(es: seq<Exp>, scope: set<LVar>)
    decreases es
  {
    es == [] || (ScopedExps(es[..|es| - 1], scope) && ScopedExp(es[|es| - 1], scope))
  }

  /** What a statement may assume about its cluster and its module. */
  datatype Context = Context(target: TargetInfo, clusters: map<LVar, FragKind>, arity: map<LVar, nat>)

  /** The generator's own assertions, as a check on the text: variables are bound where they are used,
      jumps go to internal fragments with the right number of arguments, calls of labels go to known
      clusters, a collection passes the convention's roots. */
  ghost predicate Scoped(c: Context, s: Stm, scope: set<LVar>)
    decreases s
  {
    match s
    case LET(e, x, k) => ScopedExp(e, scope) && Scoped(c, k, scope + {x})
    case ALLOC(op, args, x, k) => AllocArity(op, |args|) && ScopedExps(args, scope) && Scoped(c, k, scope + {x})
    case APPLY(fn, args) => ScopedCallee(c, fn, scope) && ScopedExps(args, scope)
    case THROW(fn, args) => ScopedCallee(c, fn, scope) && ScopedExps(args, scope)
    case GOTO(lab, args) => lab in c.arity && c.arity[lab] == |args| && ScopedExps(args, scope)
    case SWITCH(e, arms) => |arms| < 0x8000_0000 && ScopedExp(e, scope) && ScopedArms(c, arms, scope)
    case BRANCH(_, args, t, f) => ScopedExps(args, scope) && Scoped(c, t.body, scope) && Scoped(c, f.body, scope)
    case ARITH(_, args, x, k) => ScopedExps(args, scope) && Scoped(c, k, scope + {x})
    case SETTER(op, args, k) => SetterArity(op, |args|) && ScopedExps(args, scope) && Scoped(c, k, scope)
    case CALLGC(roots, xs, k) =>
      && |roots| == c.target.NumGCRoots() && |xs| <= |roots|
      && ScopedExps(roots, scope) && Scoped(c, k, scope + Elems(xs))
  }

  ghost predicate ScopedArms(c: Context, arms: seq<Arm>, scope: set<LVar>)
    decreases arms
  {
    arms == [] ||
    var last := arms[|arms| - 1];
    assert last.body < last;
    ScopedArms(c, arms[..|arms| - 1], scope) && Scoped(c, last.body, scope)
  }

  ghost predicate ScopedCallee(c: Context, fn: Exp, scope: set<LVar>) {
    if fn.LABEL? then fn.lab in c.clusters else ScopedExp(fn, scope)
  }
}
