/** What the code generator does to the function under construction, as functions on its state. */
module CodeBuilder {
  import opened Common
  import opened CMRegisters
  import opened TargetIR
  import opened CFG

  /** The blocks so far, the next unused SSA name, the insertion block, the variables' values, the
      registers' values (None for a register in a stack slot), the shared overflow block, and the
      blocks of the cluster's fragments. */
  datatype Builder = Builder(
    blocks: seq<Block>,
    next: nat,
    cur: nat,
    vMap: map<LVar, Operand>,
    regs: seq<Option<Operand>>,
    ovf: Option<nat>,
    frags: map<LVar, nat>)
  {
    predicate Ok() { cur < |blocks| && |regs| == NUM_REGS }

    function OpenLine(): Line
      requires Ok()
    {
      Line(blocks[cur].body, next, vMap, regs)
    }

    /** The state after straight-line code at the insertion point. */
    function Put(l: Line): (r: Builder)
      requires Ok() && |l.regs| == NUM_REGS
      ensures r.Ok() && r.OpenLine() == l
    {
      this.(blocks := blocks[cur := blocks[cur].(body := l.code)], next := l.next, vMap := l.vMap, regs := l.regs)
    }
  }

  /** The part of the state that straight-line code touches: the open block's code, the next unused
      name, and what variables and registers stand for. */
  datatype Line = Line(code: seq<Instr>, next: nat, vMap: map<LVar, Operand>, regs: seq<Option<Operand>>)

  /** Code is only appended, names only used up, and a register stays where it lives. */
  ghost predicate Continues(l: Line, l': Line) {
    && l.code <= l'.code && l.next <= l'.next
    && |l.regs| == |l'.regs| == NUM_REGS
    && (forall r: RegId :: l.regs[r].None? <==> l'.regs[r].None?)
  }

  /** Code that changes neither variables nor registers. */
  ghost predicate Computes(l: Line, l': Line) {
    Continues(l, l') && l'.vMap == l.vMap && l'.regs == l.regs
  }

  const EMPTY_BLOCK := Block([], [], None)

  // ----- the instruction builder -----

  function NewBB(st: Builder): (Builder, nat) {
    (st.(blocks := st.blocks + [EMPTY_BLOCK]), |st.blocks|)
  }

  function SetBlock(st: Builder, b: nat, blk: Block): (r: Builder)
    requires b < |st.blocks|
  {
    st.(blocks := st.blocks[b := blk])
  }

  function Emit(l: Line, op: Oper, args: seq<Operand>): (r: (Line, Operand))
    requires |l.regs| == NUM_REGS
    ensures Computes(l, r.0)
  {
    (l.(code := l.code + [Instr(l.next, op, args)], next := l.next + 1), Id(l.next))
  }

  function Seal(st: Builder, term: Term): Builder
    requires st.Ok()
  {
    SetBlock(st, st.cur, st.blocks[st.cur].(term := Some(term)))
  }

  /** Moves the insertion point; a block that was never created leaves it where it is. */
  function SetInsertPoint(st: Builder, bb: Option<nat>): (r: Builder)
    requires st.Ok()
    ensures r.Ok()
  {
    if bb.Some? && bb.value < |st.blocks| then st.(cur := bb.value) else st
  }

  /** The first phis of a block take the given operands when control comes from block pred. */
  function AddToPhis(phis: seq<Phi>, pred: nat, args: seq<Operand>): (r: seq<Phi>)
    ensures |r| == |phis|
  {
    seq(|phis|, i requires 0 <= i < |phis| =>
      if i < |args| then phis[i].(incoming := phis[i].incoming + [(pred, args[i])]) else phis[i])
  }

  /** Phis of block b take args when control comes from the insertion block. */
  function AddIncoming(st: Builder, b: nat, args: seq<Operand>): (r: Builder)
    ensures |r.blocks| == |st.blocks| && r.cur == st.cur && r.regs == st.regs
  {
    if b < |st.blocks| then SetBlock(st, b, st.blocks[b].(phis := AddToPhis(st.blocks[b].phis, st.cur, args))) else st
  }

  // ----- registers, variables, conventions -----

  function MlReg(t: TargetInfo, l: Line, r: RegId): (res: (Line, Operand))
    requires |l.regs| == NUM_REGS && |t.stkOffset| == NUM_REGS
    ensures Computes(l, res.0)
  {
    match l.regs[r]
    case Some(v) => (l, v)
    case None => Emit(l, LoadSlot(t.stkOffset[r]), [])
  }

  function SetMLReg(t: TargetInfo, l: Line, r: RegId, v: Operand): (res: Line)
    requires |l.regs| == NUM_REGS && |t.stkOffset| == NUM_REGS
    ensures Continues(l, res) && res.vMap == l.vMap
  {
    match l.regs[r]
    case Some(_) => l.(regs := l.regs[r := Some(v)])
    case None => Emit(l, StoreSlot(t.stkOffset[r]), [v]).0
  }

  /** An existing binding is kept. */
  function Insert(vMap: map<LVar, Operand>, x: LVar, v: Operand): map<LVar, Operand> {
    if x in vMap then vMap else vMap[x := v]
  }

  function LookupVal(vMap: map<LVar, Operand>, x: LVar): Operand {
    if x in vMap then vMap[x] else Null
  }

  /** Continuations leave the first two argument registers unused. */
  function NumUnused(kind: FragKind): nat { if kind == STD_CONT then 2 else 0 }

  function RegOperand(o: Option<Operand>): Operand { if o.Some? then o.value else Null }

  function CreateArgs(t: TargetInfo, regs: seq<Option<Operand>>, kind: FragKind): (args: seq<Operand>)
    requires |regs| == NUM_REGS && |t.stkOffset| == NUM_REGS
    ensures |args| == |MachineRegs(t)| + (if kind == STD_CONT then 2 else 0)
  {
    var hw := MachineRegs(t);
    seq(|hw|, k requires 0 <= k < |hw| => RegOperand(regs[hw[k]])) + seq(NumUnused(kind), _ => Undef)
  }

  /** Registers below n, taken from the function's leading arguments. */
  function StdEntryRegs(t: TargetInfo, regs: seq<Option<Operand>>, n: nat): (rs: seq<Option<Operand>>)
    requires |regs| == NUM_REGS && |t.stkOffset| == NUM_REGS && n <= NUM_REGS
    ensures |rs| == NUM_REGS
  {
    if n == 0 then regs
    else StdEntryRegs(t, regs, n - 1)[n - 1 := if t.IsMachineReg(n - 1) then Some(Arg(MachineIx(t, n - 1))) else None]
  }

  /** The first n machine registers, taken from the fragment's leading phis. */
  function FragEntryRegs(t: TargetInfo, regs: seq<Option<Operand>>, phis: seq<Phi>, n: nat): (rs: seq<Option<Operand>>)
    requires |regs| == NUM_REGS && |t.stkOffset| == NUM_REGS && n <= |MachineRegs(t)| && n <= |phis|
    ensures |rs| == NUM_REGS
  {
    if n == 0 then regs
    else FragEntryRegs(t, regs, phis, n - 1)[MachineRegs(t)[n - 1] := Some(Id(phis[n - 1].dst))]
  }

  function BindParams(xs: seq<LVar>, os: seq<Operand>, n: nat): map<LVar, Operand>
    requires n <= |xs| && n <= |os|
  {
    if n == 0 then map[] else Insert(BindParams(xs, os, n - 1), xs[n - 1], os[n - 1])
  }

  // ----- straight-line code -----

  function GenExp(t: TargetInfo, l: Line, e: Exp): (r: (Line, Operand))
    requires |l.regs| == NUM_REGS && |t.stkOffset| == NUM_REGS
    ensures Computes(l, r.0)
    decreases e
  {
    match e
    case VAR(x) => (l, LookupVal(l.vMap, x))
    case LABEL(lab) => (l, Label(lab))
    case NUM(n) => (l, Const(n))
    case LOOKER(op, args) =>
      var (l1, os) := GenExps(t, l, args);
      GenLooker(t, l1, op, os)
    case PURE(o, args) =>
      var (l1, os) := GenExps(t, l, args);
      Emit(l1, Pure(o), os)
    case SELECT(i, a) =>
      var (l1, o) := GenExp(t, l, a);
      GenSelect(l1, i * t.wordSzB, o)
  }

  function GenLooker(t: TargetInfo, l: Line, op: LookerOp, os: seq<Operand>): (r: (Line, Operand))
    requires |l.regs| == NUM_REGS && |t.stkOffset| == NUM_REGS
    ensures Computes(l, r.0)
  {
    match op
    case GET_HDLR => MlReg(t, l, EXN_HNDLR)
    case GET_VAR => MlReg(t, l, VAR_PTR)
    case LOOK(o) => Emit(l, Look(o), os)
  }

  function GenSelect(l: Line, off: nat, o: Operand): (r: (Line, Operand))
    requires |l.regs| == NUM_REGS
    ensures Computes(l, r.0)
  {
    var (l1, adr) := Emit(l, Gep(off), [o]);
    Emit(l1, Load, [adr])
  }

  function GenExps(t: TargetInfo, l: Line, es: seq<Exp>): (r: (Line, seq<Operand>))
    requires |l.regs| == NUM_REGS && |t.stkOffset| == NUM_REGS
    ensures Computes(l, r.0) && |r.1| == |es|
    decreases es
  {
    if es == [] then (l, [])
    else
      var (l1, os) := GenExps(t, l, es[..|es| - 1]);
      var (l2, o) := GenExp(t, l1, es[|es| - 1]);
      (l2, os + [o])
  }

  /** Stores the first n operands in the words after the one at ptr. */
  function GenStoreWords(t: TargetInfo, l: Line, ptr: Operand, os: seq<Operand>, n: nat): (r: Line)
    requires |l.regs| == NUM_REGS && n <= |os|
    ensures Continues(l, r)
  {
    if n == 0 then l
    else
      var l1 := GenStoreWords(t, l, ptr, os, n - 1);
      var (l2, adr) := Emit(l1, Gep(n * t.wordSzB), [ptr]);
      Emit(l2, Store(t.wordSzB), [adr, os[n - 1]]).0
  }

  function AllocRecord(t: TargetInfo, l: Line, desc: Operand, os: seq<Operand>): (r: (Line, Operand))
    requires |l.regs| == NUM_REGS && |t.stkOffset| == NUM_REGS
    ensures Continues(l, r.0)
  {
    var (l1, ptr) := MlReg(t, l, ALLOC_PTR);
    var l2 := Emit(l1, Store(t.wordSzB), [ptr, desc]).0;
    var l3 := GenStoreWords(t, l2, ptr, os, |os|);
    var (l4, obj) := Emit(l3, Gep(t.wordSzB), [ptr]);
    var (l5, top) := Emit(l4, Gep((|os| + 1) * t.wordSzB), [ptr]);
    (SetMLReg(t, l5, ALLOC_PTR, top), obj)
  }

  function GenFields(l: Line, obj: Operand, sizes: seq<nat>, os: seq<Operand>, n: nat): (r: Line)
    requires |l.regs| == NUM_REGS && n <= |os| && |os| == |sizes|
    ensures Continues(l, r)
  {
    if n == 0 then l
    else
      var l1 := GenFields(l, obj, sizes, os, n - 1);
      var (l2, adr) := Emit(l1, Gep(FieldOffset(sizes, n - 1)), [obj]);
      Emit(l2, Store(sizes[n - 1]), [adr, os[n - 1]]).0
  }

  /** A tagged object with a large alignment starts one word before an aligned address. */
  function GenAlign(t: TargetInfo, l: Line, op: AllocOp, ptr: Operand): (r: (Line, Operand))
    requires op.RAW_ALLOC? && |l.regs| == NUM_REGS
    ensures Continues(l, r.0)
  {
    if op.tag.Some? && op.align > t.wordSzB then Emit(l, OrWord, [ptr, Const(op.align - t.wordSzB)]) else (l, ptr)
  }

  function GenTag(t: TargetInfo, l: Line, op: AllocOp, ptr: Operand): (r: Line)
    requires op.RAW_ALLOC? && |l.regs| == NUM_REGS
    ensures Continues(l, r)
  {
    if op.tag.Some? then Emit(l, Store(t.wordSzB), [ptr, Const(op.tag.value)]).0 else l
  }

  function GenAlloc(t: TargetInfo, l: Line, op: AllocOp, os: seq<Operand>): (r: (Line, Operand))
    requires |l.regs| == NUM_REGS && |t.stkOffset| == NUM_REGS && AllocArity(op, |os|)
    ensures Continues(l, r.0)
  {
    match op
    case RECORD(desc) => AllocRecord(t, l, Const(desc), os)
    case SPECIAL => AllocRecord(t, l, os[0], [os[1]])
    case RAW_RECORD(desc, sizes) =>
      var (l1, ptr) := MlReg(t, l, ALLOC_PTR);
      var l2 := Emit(l1, Store(t.wordSzB), [ptr, Const(desc)]).0;
      var (l3, obj) := Emit(l2, Gep(t.wordSzB), [ptr]);
      var l4 := GenFields(l3, obj, sizes, os, |os|);
      var (l5, top) := Emit(l4, Gep(RawRecordBump(t.wordSzB, sizes)), [obj]);
      (SetMLReg(t, l5, ALLOC_PTR, top), obj)
    case RAW_ALLOC(tag, align, len) =>
      var (l1, p) := MlReg(t, l, ALLOC_PTR);
      var (l2, ptr) := GenAlign(t, l1, op, p);
      var l3 := GenTag(t, l2, op, ptr);
      var (l4, obj) := Emit(l3, Gep(t.wordSzB), [ptr]);
      var (l5, top) := Emit(l4, Gep(len + t.wordSzB), [ptr]);
      (SetMLReg(t, l5, ALLOC_PTR, top), obj)
  }

  function GenRecordStore(t: TargetInfo, l: Line, adr: Operand): (r: Line)
    requires |l.regs| == NUM_REGS && |t.stkOffset| == NUM_REGS
    ensures Continues(l, r)
  {
    var (l1, ptr) := MlReg(t, l, ALLOC_PTR);
    var (l2, list) := MlReg(t, l1, STORE_PTR);
    var (l3, head) := Emit(l2, Gep(0), [ptr]);
    var l4 := Emit(l3, Store(t.wordSzB), [head, adr]).0;
    var (l5, link) := Emit(l4, Gep(t.wordSzB), [ptr]);
    var l6 := Emit(l5, Store(t.wordSzB), [link, list]).0;
    var l7 := SetMLReg(t, l6, STORE_PTR, ptr);
    var (l8, top) := Emit(l7, Gep(2 * t.wordSzB), [ptr]);
    SetMLReg(t, l8, ALLOC_PTR, top)
  }

  function GenSetter(t: TargetInfo, l: Line, op: SetterOp, os: seq<Operand>): (r: Line)
    requires |l.regs| == NUM_REGS && |t.stkOffset| == NUM_REGS && SetterArity(op, |os|)
    ensures Continues(l, r)
  {
    match op
    case UPDATE =>
      var (l1, adr) := Emit(l, GepDyn(t.wordSzB), [os[0], os[1]]);
      var l2 := GenRecordStore(t, l1, adr);
      Emit(l2, Store(t.wordSzB), [adr, os[2]]).0
    case ASSIGN =>
      var l1 := GenRecordStore(t, l, os[0]);
      Emit(l1, Store(t.wordSzB), [os[0], os[1]]).0
    case RAW(o) => Emit(l, Poke(o), os).0
    case SET_HDLR => SetMLReg(t, l, EXN_HNDLR, os[0])
    case SET_VAR => SetMLReg(t, l, VAR_PTR, os[0])
  }

  function GenTest(t: TargetInfo, l: Line, op: BranchOp, os: seq<Operand>): (r: (Line, Operand))
    requires |l.regs| == NUM_REGS && |t.stkOffset| == NUM_REGS
    ensures Continues(l, r.0)
  {
    match op
    case COMPARE(o) => Emit(l, Pure(o), os)
    case LIMIT(amt) =>
      var (l1, ptr) := MlReg(t, l, ALLOC_PTR);
      var (l2, top) := if amt > t.allocSlopSzb then Emit(l1, Pure(ADD_WORD), [ptr, Const(amt - t.allocSlopSzb)])
        else (l1, ptr);
      var (l3, lim) := MlReg(t, l2, LIMIT_PTR);
      Emit(l3, UGreater, [top, lim])
  }

  /** Registers below n, taken back from the structure a collection returns. */
  function GenGCRegs(t: TargetInfo, l: Line, call: Operand, n: nat): (r: Line)
    requires |l.regs| == NUM_REGS && |t.stkOffset| == NUM_REGS && n <= NUM_REGS
    ensures Continues(l, r)
  {
    if n == 0 then l
    else
      var l1 := GenGCRegs(t, l, call, n - 1);
      if t.IsMachineReg(n - 1) then
        var (l2, v) := Emit(l1, Extract(MachineIx(t, n - 1)), [call]);
        SetMLReg(t, l2, n - 1, v)
      else l1
  }

  function GenGCRoots(t: TargetInfo, l: Line, call: Operand, xs: seq<LVar>, n: nat): (r: Line)
    requires |l.regs| == NUM_REGS && |t.stkOffset| == NUM_REGS && n <= |xs|
    ensures Continues(l, r)
  {
    if n == 0 then l
    else
      var l1 := GenGCRoots(t, l, call, xs, n - 1);
      var (l2, v) := Emit(l1, Extract(|MachineRegs(t)| + n - 1), [call]);
      l2.(vMap := Insert(l2.vMap, xs[n - 1], v))
  }

  function GenCallGC(t: TargetInfo, l: Line, args: seq<Operand>, xs: seq<LVar>): (r: Line)
    requires |l.regs| == NUM_REGS && |t.stkOffset| == NUM_REGS
    ensures Continues(l, r)
  {
    var (l1, fn) := Emit(l, LoadSlot(t.callGCOffset), []);
    var (l2, call) := Emit(l1, CallGC, [fn] + args);
    GenGCRoots(t, GenGCRegs(t, l2, call, NUM_REGS), call, xs, |xs|)
  }

  function GenTrap(l: Line, op: nat, os: seq<Operand>): (r: (Line, Operand, Operand))
    requires |l.regs| == NUM_REGS
    ensures Computes(l, r.0)
  {
    var (l1, pair) := Emit(l, Arith(op), os);
    var (l2, res) := Emit(l1, Extract(0), [pair]);
    var (l3, obit) := Emit(l2, Extract(1), [pair]);
    (l3, res, obit)
  }

  function GenCall(t: TargetInfo, l: Line, fn: Exp, kind: FragKind, args: seq<Exp>): (r: Line)
    requires |l.regs| == NUM_REGS && |t.stkOffset| == NUM_REGS
    ensures Computes(l, r)
  {
    var (l1, f) := GenExp(t, l, fn);
    var (l2, os) := GenExps(t, l1, args);
    Emit(l2, TailCall, [f] + CreateArgs(t, l1.regs, kind) + os).0
  }

  function Bind(l: Line, x: LVar, o: Operand): Line { l.(vMap := Insert(l.vMap, x, o)) }

  /** Statements whose code is straight-line and followed by one continuation. */
  predicate IsSimple(s: Stm) {
    match s
    case LET(_, _, _) => true
    case ALLOC(op, args, _, _) => AllocArity(op, |args|)
    case ARITH(op, _, _, _) => op.NOTRAP?
    case SETTER(op, args, _) => SetterArity(op, |args|)
    case CALLGC(_, _, _) => true
    case _ => false
  }

  function Cont(s: Stm): Stm
    requires IsSimple(s)
  {
    match s
    case LET(_, _, k) => k
    case ALLOC(_, _, _, k) => k
    case ARITH(_, _, _, k) => k
    case SETTER(_, _, k) => k
    case CALLGC(_, _, k) => k
  }

  /** The variables a simple statement binds for its continuation. */
  function Bound(s: Stm): set<LVar>
    requires IsSimple(s)
  {
    match s
    case LET(_, x, _) => {x}
    case ALLOC(_, _, x, _) => {x}
    case ARITH(_, _, x, _) => {x}
    case SETTER(_, _, _) => {}
    case CALLGC(_, xs, _) => Elems(xs)
  }

  function GenSimple(t: TargetInfo, l: Line, s: Stm): (r: Line)
    requires IsSimple(s) && |l.regs| == NUM_REGS && |t.stkOffset| == NUM_REGS
    ensures Continues(l, r)
  {
    match s
    case LET(e, x, _) =>
      var (l1, o) := GenExp(t, l, e);
      Bind(l1, x, o)
    case ALLOC(op, args, x, _) =>
      var (l1, os) := GenExps(t, l, args);
      var (l2, o) := GenAlloc(t, l1, op, os);
      Bind(l2, x, o)
    case ARITH(op, args, x, _) =>
      var (l1, os) := GenExps(t, l, args);
      var (l2, o) := Emit(l1, Pure(op.op), os);
      Bind(l2, x, o)
    case SETTER(op, args, _) =>
      var (l1, os) := GenExps(t, l, args);
      GenSetter(t, l1, op, os)
    case CALLGC(roots, xs, _) =>
      var (l1, os) := GenExps(t, l, roots);
      GenCallGC(t, l1, CreateArgs(t, l.regs, STD_FUN) + os, xs)
  }

  // ----- the overflow block -----

  /** A block whose phis receive the machine registers and pass them to the overflow handler. */
  function OverflowBlock(t: TargetInfo, next: nat): Block
    requires |t.stkOffset| == NUM_REGS
  {
    var n := |MachineRegs(t)|;
    Block(seq(n, i requires 0 <= i < n => Phi(next + i, [])),
          [Instr(next + n, LoadSlot(t.raiseOvflwOffset), []),
           Instr(next + n + 1, CallRaise, [Id(next + n)] + seq(n, i requires 0 <= i < n => Id(next + i)))],
          Some(RetVoid))
  }

  function MakeOverflowBB(t: TargetInfo, st: Builder): (r: Builder)
    requires st.Ok() && |t.stkOffset| == NUM_REGS
    ensures r.Ok() && r.ovf.Some?
  {
    if st.ovf.Some? then st
    else st.(blocks := st.blocks + [OverflowBlock(t, st.next)],
             next := st.next + |MachineRegs(t)| + 2,
             ovf := Some(|st.blocks|))
  }

  /** The shared overflow block, whose phis now also accept control from the insertion block. */
  function GetOverflowBB(t: TargetInfo, st: Builder): (r: (Builder, nat))
    requires st.Ok() && |t.stkOffset| == NUM_REGS
    ensures r.0.Ok()
  {
    var st1 := MakeOverflowBB(t, st);
    var args := CreateArgs(t, st1.regs, STD_FUN);
    (AddIncoming(st1, st1.ovf.value, args), st1.ovf.value)
  }

  /** A trapping operation ends the block and continues in a fresh one. */
  function SplitOnTrap(t: TargetInfo, st: Builder, obit: Operand): (r: Builder)
    requires st.Ok() && |t.stkOffset| == NUM_REGS
    ensures r.Ok()
  {
    var (st1, ok) := NewBB(st);
    var (st2, trap) := GetOverflowBB(t, st1);
    SetInsertPoint(Seal(st2, CondBr(obit, trap, ok)), Some(ok))
  }

  // ----- statements -----

  function ArmBB(a: Arm): nat { if a.bb.Some? then a.bb.value else 0 }

  function ArmBBs(arms: seq<Arm>): seq<nat> { seq(|arms|, i requires 0 <= i < |arms| => ArmBB(arms[i])) }

  /** The default target of a switch is a block that cannot be reached. */
  function SealSwitch(st: Builder, v: Operand, arms: seq<Arm>): (r: Builder)
    requires st.Ok()
    ensures r.Ok()
  {
    var st1 := st.(blocks := st.blocks + [EMPTY_BLOCK.(term := Some(Unreachable))]);
    Seal(st1, Switch(v, |st.blocks|, ArmBBs(arms)))
  }

  /** The jump's arguments become the values of the fragment's phis for this edge. */
  function SealJump(st: Builder, lab: LVar, args: seq<Operand>): (r: Builder)
    requires st.Ok()
    ensures r.Ok()
  {
    if lab in st.frags then Seal(AddIncoming(st, st.frags[lab], args), Br(st.frags[lab])) else st
  }

  /** The state in which a switch's arms are generated. */
  function SwitchHead(t: TargetInfo, st: Builder, s: Stm): (r: Builder)
    requires s.SWITCH? && st.Ok() && |t.stkOffset| == NUM_REGS
    ensures r.Ok()
  {
    var (l1, v) := GenExp(t, st.OpenLine(), s.scrut);
    var (l2, v32) := Emit(l1, Trunc32, [v]);
    SealSwitch(st.Put(l2), v32, s.arms)
  }

  /** The state in which a branch's arms are generated. */
  function BranchHead(t: TargetInfo, st: Builder, s: Stm): (r: Builder)
    requires s.BRANCH? && st.Ok() && |t.stkOffset| == NUM_REGS
    ensures r.Ok()
  {
    var (l1, os) := GenExps(t, st.OpenLine(), s.args);
    var (l2, c) := GenTest(t, l1, s.test, os);
    Seal(st.Put(l2), CondBr(c, ArmBB(s.onTrue), ArmBB(s.onFalse)))
  }

  /** The state in which the continuation of a trapping operation is generated. */
  function TrapHead(t: TargetInfo, st: Builder, s: Stm): (r: Builder)
    requires s.ARITH? && s.arith.TRAP? && st.Ok() && |t.stkOffset| == NUM_REGS
    ensures r.Ok()
  {
    var (l1, os) := GenExps(t, st.OpenLine(), s.args);
    var (l2, res, obit) := GenTrap(l1, s.arith.op, os);
    SplitOnTrap(t, st.Put(Bind(l2, s.x, res)), obit)
  }

  function GenStm(t: TargetInfo, clusters: map<LVar, FragKind>, st: Builder, s: Stm): (r: Builder)
    requires st.Ok() && |t.stkOffset| == NUM_REGS
    ensures r.Ok()
    decreases s
  {
    var l := st.OpenLine();
    match s
    case LET(_, _, k) => GenStm(t, clusters, st.Put(GenSimple(t, l, s)), k)
    case ALLOC(_, _, _, k) => if IsSimple(s) then GenStm(t, clusters, st.Put(GenSimple(t, l, s)), k) else st
    case SETTER(_, _, k) => if IsSimple(s) then GenStm(t, clusters, st.Put(GenSimple(t, l, s)), k) else st
    case CALLGC(_, _, k) => GenStm(t, clusters, st.Put(GenSimple(t, l, s)), k)
    case ARITH(op, args, x, k) =>
      (match op
       case NOTRAP(_) => GenStm(t, clusters, st.Put(GenSimple(t, l, s)), k)
       case TRAP(_) => GenStm(t, clusters, TrapHead(t, st, s), k))
    case APPLY(fn, args) => Seal(st.Put(GenCall(t, l, fn, CalleeKind(clusters, fn), args)), RetVoid)
    case THROW(fn, args) => Seal(st.Put(GenCall(t, l, fn, STD_CONT, args)), RetVoid)
    case GOTO(lab, args) =>
      var (l1, os) := GenExps(t, l, args);
      SealJump(st.Put(l1), lab, CreateArgs(t, l.regs, INTERNAL) + os)
    case SWITCH(e, arms) =>
      GenArms(t, clusters, SwitchHead(t, st, s), l.regs, arms)
    case BRANCH(op, args, a, b) =>
      var st1 := BranchHead(t, st, s);
      var st2 := GenStm(t, clusters, SetInsertPoint(st1, a.bb), a.body);
      GenStm(t, clusters, SetInsertPoint(st2.(regs := st1.regs), b.bb), b.body)
  }

  /** Each arm starts from the registers as they were before the switch. */
  function GenArms(t: TargetInfo, clusters: map<LVar, FragKind>, st: Builder, saved: seq<Option<Operand>>,
                   arms: seq<Arm>): (r: Builder)
    requires st.Ok() && |t.stkOffset| == NUM_REGS && |saved| == NUM_REGS
    ensures r.Ok()
    decreases arms
  {
    if arms == [] then st
    else
      var last := arms[|arms| - 1];
      assert last.body < last;
      var st1 := GenArms(t, clusters, st, saved, arms[..|arms| - 1]);
      GenStm(t, clusters, SetInsertPoint(st1.(regs := saved), last.bb), last.body)
  }

  /** A simple statement is its straight-line code followed by its continuation. */
  lemma GenStmSimple(t: TargetInfo, clusters: map<LVar, FragKind>, st: Builder, s: Stm)
    requires IsSimple(s) && st.Ok() && |t.stkOffset| == NUM_REGS
    ensures Cont(s) < s
    ensures GenStm(t, clusters, st, s) == GenStm(t, clusters, st.Put(GenSimple(t, st.OpenLine(), s)), Cont(s))
  {}

  lemma GenStmBranch(t: TargetInfo, clusters: map<LVar, FragKind>, st: Builder, s: Stm)
    requires s.BRANCH? && st.Ok() && |t.stkOffset| == NUM_REGS
    ensures var st1 := BranchHead(t, st, s);
      var st2 := GenStm(t, clusters, SetInsertPoint(st1, s.onTrue.bb), s.onTrue.body);
      GenStm(t, clusters, st, s)
        == GenStm(t, clusters, SetInsertPoint(st2.(regs := st1.regs), s.onFalse.bb), s.onFalse.body)
  {}

  // ----- block creation -----

  /** Gives every arm of a statement its block, numbering from n in the order of the tree. */
  function InitStm(n: nat, s: Stm): (r: (nat, Stm))
    ensures r.0 >= n
    decreases s
  {
    match s
    case LET(e, x, k) => var (m, k') := InitStm(n, k); (m, LET(e, x, k'))
    case ALLOC(op, args, x, k) => var (m, k') := InitStm(n, k); (m, ALLOC(op, args, x, k'))
    case APPLY(_, _) => (n, s)
    case THROW(_, _) => (n, s)
    case GOTO(_, _) => (n, s)
    case SWITCH(e, arms) => var (m, arms') := InitArms(n, arms); (m, SWITCH(e, arms'))
    case BRANCH(op, args, a, b) =>
      var (m, a') := InitStm(n + 1, a.body);
      var (m', b') := InitStm(m + 1, b.body);
      (m', BRANCH(op, args, Arm(Some(n), a'), Arm(Some(m), b')))
    case ARITH(op, args, x, k) => var (m, k') := InitStm(n, k); (m, ARITH(op, args, x, k'))
    case SETTER(op, args, k) => var (m, k') := InitStm(n, k); (m, SETTER(op, args, k'))
    case CALLGC(roots, xs, k) => var (m, k') := InitStm(n, k); (m, CALLGC(roots, xs, k'))
  }

  function InitArms(n: nat, arms: seq<Arm>): (r: (nat, seq<Arm>))
    ensures r.0 >= n && |r.1| == |arms|
    decreases arms
  {
    if arms == [] then (n, [])
    else
      var last := arms[|arms| - 1];
      assert last.body < last;
      var (m, arms') := InitArms(n, arms[..|arms| - 1]);
      var (m', body') := InitStm(m + 1, last.body);
      (m', arms' + [Arm(Some(m), body')])
  }

  function EmptyBlocks(n: nat): seq<Block> { seq(n, _ => EMPTY_BLOCK) }

  /** A fragment's blocks; an internal fragment's first block gets a phi for every machine register
      and every parameter. */
  function InitFrag(t: TargetInfo, st: Builder, f: Frag): (r: (Builder, Frag))
    requires |t.stkOffset| == NUM_REGS
    ensures |r.0.blocks| > |st.blocks| && r.0.cur == st.cur && r.0.regs == st.regs
  {
    var b := |st.blocks|;
    var (m, body') := InitStm(b + 1, f.body.body);
    var n := if f.kind == INTERNAL then |MachineRegs(t)| + |f.params| else 0;
    var entry := EMPTY_BLOCK.(phis := seq(n, i requires 0 <= i < n => Phi(st.next + i, [])));
    (st.(blocks := st.blocks + [entry] + EmptyBlocks(m - b - 1),
         next := st.next + n,
         frags := if f.lab in st.frags then st.frags else st.frags[f.lab := b]),
     f.(body := Arm(Some(b), body')))
  }

  function InitFrags(t: TargetInfo, st: Builder, fs: seq<Frag>): (r: (Builder, seq<Frag>))
    requires |t.stkOffset| == NUM_REGS
    ensures |r.1| == |fs| && |r.0.blocks| >= |st.blocks| + |fs| && r.0.cur == st.cur && r.0.regs == st.regs
  {
    if fs == [] then (st, [])
    else
      var (st1, fs') := InitFrags(t, st, fs[..|fs| - 1]);
      var (st2, f') := InitFrag(t, st1, fs[|fs| - 1]);
      (st2, fs' + [f'])
  }

  // ----- fragments and clusters -----

  function EntryParams(t: TargetInfo, f: Frag): seq<Operand>
    requires |t.stkOffset| == NUM_REGS
  {
    seq(|f.params|, i requires 0 <= i < |f.params| => Arg(|MachineRegs(t)| + NumUnused(f.kind) + i))
  }

  function PhiParams(t: TargetInfo, phis: seq<Phi>, n: nat): seq<Operand>
    requires |t.stkOffset| == NUM_REGS && |phis| >= |MachineRegs(t)| + n
  {
    seq(n, i requires 0 <= i < n => Id(phis[|MachineRegs(t)| + i].dst))
  }

  function SetupFrag(t: TargetInfo, st: Builder, f: Frag, isEntry: bool): (r: Builder)
    requires st.Ok() && |t.stkOffset| == NUM_REGS
    ensures r.Ok()
  {
    var st1 := SetInsertPoint(st.(vMap := map[]), f.body.bb);
    var phis := st1.blocks[st1.cur].phis;
    if isEntry then
      st1.(regs := StdEntryRegs(t, st1.regs, NUM_REGS),
           vMap := BindParams(f.params, EntryParams(t, f), |f.params|))
    else if |phis| >= |MachineRegs(t)| + |f.params| then
      st1.(regs := FragEntryRegs(t, st1.regs, phis, |MachineRegs(t)|),
           vMap := BindParams(f.params, PhiParams(t, phis, |f.params|), |f.params|))
    else st1
  }

  function GenFrag(t: TargetInfo, clusters: map<LVar, FragKind>, st: Builder, f: Frag, isEntry: bool): (r: Builder)
    requires st.Ok() && |t.stkOffset| == NUM_REGS
    ensures r.Ok()
  {
    GenStm(t, clusters, SetupFrag(t, st, f, isEntry), f.body.body)
  }

  function GenFrags(t: TargetInfo, clusters: map<LVar, FragKind>, st: Builder, fs: seq<Frag>, n: nat): (r: Builder)
    requires st.Ok() && |t.stkOffset| == NUM_REGS && n <= |fs|
    ensures r.Ok()
  {
    if n == 0 then st
    else GenFrag(t, clusters, GenFrags(t, clusters, st, fs, n - 1), fs[n - 1], n == 1)
  }

  function InitialBuilder(): Builder {
    Builder([], 0, 0, map[], seq(NUM_REGS, _ => None), None, map[])
  }

  function GenCluster(t: TargetInfo, clusters: map<LVar, FragKind>, c: Cluster): Builder
    requires |t.stkOffset| == NUM_REGS && |c.frags| > 0
  {
    var (st, fs) := InitFrags(t, InitialBuilder(), c.frags);
    GenFrags(t, clusters, st, fs, |fs|)
  }
}
