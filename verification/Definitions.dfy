/** Straight-line code defines every name it uses before using it, and defines every name once. */
module Definitions {
  import opened Common
  import opened CMRegisters
  import opened TargetIR
  import opened CFG
  import opened CodeBuilder
  import opened Simulation

  /** An operand that is present and, if it is an SSA name, one of the given names. */
  predicate Defined(o: Operand, names: set<nat>) {
    o != Null && (o.Id? ==> o.id in names)
  }

  predicate AllDefined(os: seq<Operand>, names: set<nat>) {
    forall i :: 0 <= i < |os| ==> Defined(os[i], names)
  }

  function Dsts(code: seq<Instr>): set<nat> {
    if code == [] then {} else Dsts(code[..|code| - 1]) + {code[|code| - 1].dst}
  }

  /** Each instruction uses only the given names and those of earlier instructions. */
  predicate GoodCode(names: set<nat>, code: seq<Instr>) {
    code == [] ||
    (GoodCode(names, code[..|code| - 1]) && AllDefined(code[|code| - 1].args, names + Dsts(code[..|code| - 1])))
  }

  /** The names available at the end of a line whose block starts with the given names. */
  function Avail(names: set<nat>, l: Line): set<nat> { names + Dsts(l.code) }

  /** Machine registers have available values, stack registers none. */
  ghost predicate RegsOk(t: TargetInfo, regs: seq<Option<Operand>>, names: set<nat>) {
    && |regs| == NUM_REGS && |t.stkOffset| == NUM_REGS
    && forall r: RegId :: if t.IsMachineReg(r) then regs[r].Some? && Defined(regs[r].value, names) else regs[r].None?
  }

  ghost predicate VarsOk(vMap: map<LVar, Operand>, scope: set<LVar>, names: set<nat>) {
    forall x :: x in scope ==> x in vMap && Defined(vMap[x], names)
  }

  ghost predicate LineOk(t: TargetInfo, names: set<nat>, scope: set<LVar>, l: Line) {
    GoodCode(names, l.code) && RegsOk(t, l.regs, Avail(names, l)) && VarsOk(l.vMap, scope, Avail(names, l))
  }

  /** From l to l' names are handed out one after the other, one for each instruction. */
  ghost predicate Fresh(l: Line, l': Line) {
    && l.code <= l'.code && l'.next == l.next + (|l'.code| - |l.code|)
    && forall k :: |l.code| <= k < |l'.code| ==> l'.code[k].dst == l.next + (k - |l.code|)
  }

  /** What every piece of straight-line code establishes. */
  ghost predicate Adds(t: TargetInfo, names: set<nat>, scope: set<LVar>, l: Line, l': Line) {
    LineOk(t, names, scope, l') && Fresh(l, l') && Avail(names, l) <= Avail(names, l')
  }

  lemma AddsRefl(t: TargetInfo, names: set<nat>, scope: set<LVar>, l: Line)
    requires LineOk(t, names, scope, l)
    ensures Adds(t, names, scope, l, l)
  {}

  lemma AddsOk(t: TargetInfo, names: set<nat>, scope: set<LVar>, l: Line, l': Line)
    requires Adds(t, names, scope, l, l')
    ensures LineOk(t, names, scope, l') && |l'.regs| == NUM_REGS == |t.stkOffset|
  {}

  /** One instruction. */
  lemma EmitAdds(t: TargetInfo, names: set<nat>, scope: set<LVar>, l0: Line, l: Line, op: Oper, args: seq<Operand>)
    requires Adds(t, names, scope, l0, l) && |l.regs| == NUM_REGS && AllDefined(args, Avail(names, l))
    ensures var (l', o) := Emit(l, op, args);
      Adds(t, names, scope, l0, l') && Defined(o, Avail(names, l')) && Avail(names, l) <= Avail(names, l')
  {
    var l' := Emit(l, op, args).0;
    assert l'.code[..|l'.code| - 1] == l.code;
    assert Avail(names, l') == Avail(names, l) + {l.next};
  }

  lemma MlRegAdds(t: TargetInfo, names: set<nat>, scope: set<LVar>, l0: Line, l: Line, r: RegId)
    requires Adds(t, names, scope, l0, l) && |l.regs| == NUM_REGS == |t.stkOffset|
    ensures var (l', o) := MlReg(t, l, r);
      Adds(t, names, scope, l0, l') && Defined(o, Avail(names, l')) && Avail(names, l) <= Avail(names, l')
  {
    hide Emit, GoodCode, Dsts, Avail, Fresh;
    if l.regs[r].None? { EmitAdds(t, names, scope, l0, l, LoadSlot(t.stkOffset[r]), []); }
  }

  lemma SetMLRegAdds(t: TargetInfo, names: set<nat>, scope: set<LVar>, l0: Line, l: Line, r: RegId, o: Operand)
    requires Adds(t, names, scope, l0, l) && |l.regs| == NUM_REGS == |t.stkOffset| && Defined(o, Avail(names, l))
    ensures Adds(t, names, scope, l0, SetMLReg(t, l, r, o)) && Avail(names, l) <= Avail(names, SetMLReg(t, l, r, o))
  {
    if l.regs[r].None? { EmitAdds(t, names, scope, l0, l, StoreSlot(t.stkOffset[r]), [o]); }
  }

  /** Binding a variable to an available operand. */
  lemma BindAdds(t: TargetInfo, names: set<nat>, scope: set<LVar>, l0: Line, l: Line, x: LVar, o: Operand)
    requires Adds(t, names, scope, l0, l) && Defined(o, Avail(names, l)) && x !in l.vMap
    ensures Adds(t, names, scope + {x}, l0, Bind(l, x, o)) && Avail(names, Bind(l, x, o)) == Avail(names, l)
  {}

  // ----- expressions -----

  lemma {:induction false} ExpAdds(t: TargetInfo, names: set<nat>, scope: set<LVar>, l0: Line, l: Line, e: Exp)
    requires Adds(t, names, scope, l0, l) && |l.regs| == NUM_REGS == |t.stkOffset| && ScopedExp(e, scope)
    ensures var (l', o) := GenExp(t, l, e);
      Adds(t, names, scope, l0, l') && Defined(o, Avail(names, l')) && Avail(names, l) <= Avail(names, l')
    decreases e
  {
    hide Emit, GoodCode, Dsts, Avail, Fresh, RegsOk;
    match e
    case VAR(x) => assert VarsOk(l.vMap, scope, Avail(names, l));
    case LABEL(_) =>
    case NUM(_) =>
    case LOOKER(op, args) =>
      ExpsAdds(t, names, scope, l0, l, args);
      var (l1, os) := GenExps(t, l, args);
      LookerAdds(t, names, scope, l0, l1, op, os);
    case PURE(o, args) =>
      ExpsAdds(t, names, scope, l0, l, args);
      var (l1, os) := GenExps(t, l, args);
      EmitAdds(t, names, scope, l0, l1, Pure(o), os);
    case SELECT(i, a) =>
      ExpAdds(t, names, scope, l0, l, a);
      var (l1, o) := GenExp(t, l, a);
      SelectAdds(t, names, scope, l0, l1, i * t.wordSzB, o);
  }

  lemma LookerAdds(t: TargetInfo, names: set<nat>, scope: set<LVar>, l0: Line, l: Line, op: LookerOp, os: seq<Operand>)
    requires Adds(t, names, scope, l0, l) && |l.regs| == NUM_REGS == |t.stkOffset| && AllDefined(os, Avail(names, l))
    ensures var (l', o) := GenLooker(t, l, op, os);
      Adds(t, names, scope, l0, l') && Defined(o, Avail(names, l')) && Avail(names, l) <= Avail(names, l')
  {
    hide Emit, Adds, MlReg, Avail;
    match op
    case GET_HDLR => MlRegAdds(t, names, scope, l0, l, EXN_HNDLR);
    case GET_VAR => MlRegAdds(t, names, scope, l0, l, VAR_PTR);
    case LOOK(o) => EmitAdds(t, names, scope, l0, l, Look(o), os);
  }

  lemma SelectAdds(t: TargetInfo, names: set<nat>, scope: set<LVar>, l0: Line, l: Line, off: nat, o: Operand)
    requires Adds(t, names, scope, l0, l) && |l.regs| == NUM_REGS && Defined(o, Avail(names, l))
    ensures var (l', r) := GenSelect(l, off, o);
      Adds(t, names, scope, l0, l') && Defined(r, Avail(names, l')) && Avail(names, l) <= Avail(names, l')
  {
    hide Emit, Adds, Avail;
    EmitAdds(t, names, scope, l0, l, Gep(off), [o]);
    var (l1, adr) := Emit(l, Gep(off), [o]);
    EmitAdds(t, names, scope, l0, l1, Load, [adr]);
  }

  lemma {:induction false} ExpsAdds(t: TargetInfo, names: set<nat>, scope: set<LVar>, l0: Line, l: Line, es: seq<Exp>)
    requires Adds(t, names, scope, l0, l) && |l.regs| == NUM_REGS == |t.stkOffset| && ScopedExps(es, scope)
    ensures var (l', os) := GenExps(t, l, es);
      Adds(t, names, scope, l0, l') && AllDefined(os, Avail(names, l')) && Avail(names, l) <= Avail(names, l')
    decreases es
  {
    hide Adds, Avail;
    if es != [] {
      ExpsAdds(t, names, scope, l0, l, es[..|es| - 1]);
      var (l1, os) := GenExps(t, l, es[..|es| - 1]);
      ExpAdds(t, names, scope, l0, l1, es[|es| - 1]);
    }
  }

  // ----- allocation and assignment -----

  lemma {:induction false} StoreWordsAdds(t: TargetInfo, names: set<nat>, scope: set<LVar>, l0: Line, l: Line,
                                          ptr: Operand, os: seq<Operand>, n: nat)
    requires Adds(t, names, scope, l0, l) && |l.regs| == NUM_REGS && n <= |os| && Defined(ptr, Avail(names, l))
    requires AllDefined(os, Avail(names, l))
    ensures var l' := GenStoreWords(t, l, ptr, os, n);
      Adds(t, names, scope, l0, l') && Avail(names, l) <= Avail(names, l')
  {
    hide Emit, Adds, Avail;
    if n > 0 {
      StoreWordsAdds(t, names, scope, l0, l, ptr, os, n - 1);
      var l1 := GenStoreWords(t, l, ptr, os, n - 1);
      EmitAdds(t, names, scope, l0, l1, Gep(n * t.wordSzB), [ptr]);
      var (l2, adr) := Emit(l1, Gep(n * t.wordSzB), [ptr]);
      EmitAdds(t, names, scope, l0, l2, Store(t.wordSzB), [adr, os[n - 1]]);
    }
  }

  lemma AllocRecordAdds(t: TargetInfo, names: set<nat>, scope: set<LVar>, l0: Line, l: Line, desc: Operand,
                        os: seq<Operand>)
    requires Adds(t, names, scope, l0, l) && |l.regs| == NUM_REGS == |t.stkOffset|
    requires Defined(desc, Avail(names, l)) && AllDefined(os, Avail(names, l))
    ensures var (l', o) := AllocRecord(t, l, desc, os); Adds(t, names, scope, l0, l') && Defined(o, Avail(names, l'))
  {
    hide Emit, Adds, Avail, MlReg, SetMLReg, GenStoreWords;
    MlRegAdds(t, names, scope, l0, l, ALLOC_PTR);
    var (l1, ptr) := MlReg(t, l, ALLOC_PTR);
    EmitAdds(t, names, scope, l0, l1, Store(t.wordSzB), [ptr, desc]);
    var l2 := Emit(l1, Store(t.wordSzB), [ptr, desc]).0;
    StoreWordsAdds(t, names, scope, l0, l2, ptr, os, |os|);
    var l3 := GenStoreWords(t, l2, ptr, os, |os|);
    EmitAdds(t, names, scope, l0, l3, Gep(t.wordSzB), [ptr]);
    var (l4, obj) := Emit(l3, Gep(t.wordSzB), [ptr]);
    EmitAdds(t, names, scope, l0, l4, Gep((|os| + 1) * t.wordSzB), [ptr]);
    var (l5, top) := Emit(l4, Gep((|os| + 1) * t.wordSzB), [ptr]);
    SetMLRegAdds(t, names, scope, l0, l5, ALLOC_PTR, top);
  }

  lemma {:induction false} FieldsAdds(t: TargetInfo, names: set<nat>, scope: set<LVar>, l0: Line, l: Line,
                                      obj: Operand, sizes: seq<nat>, os: seq<Operand>, n: nat)
    requires Adds(t, names, scope, l0, l) && |l.regs| == NUM_REGS && n <= |os| == |sizes|
    requires Defined(obj, Avail(names, l)) && AllDefined(os, Avail(names, l))
    ensures var l' := GenFields(l, obj, sizes, os, n);
      Adds(t, names, scope, l0, l') && Avail(names, l) <= Avail(names, l')
  {
    hide Emit, Adds, Avail;
    if n > 0 {
      FieldsAdds(t, names, scope, l0, l, obj, sizes, os, n - 1);
      var l1 := GenFields(l, obj, sizes, os, n - 1);
      EmitAdds(t, names, scope, l0, l1, Gep(FieldOffset(sizes, n - 1)), [obj]);
      var (l2, adr) := Emit(l1, Gep(FieldOffset(sizes, n - 1)), [obj]);
      EmitAdds(t, names, scope, l0, l2, Store(sizes[n - 1]), [adr, os[n - 1]]);
    }
  }

  lemma RawRecordAdds(t: TargetInfo, names: set<nat>, scope: set<LVar>, l0: Line, l: Line, op: AllocOp,
                      os: seq<Operand>)
    requires op.RAW_RECORD? && Adds(t, names, scope, l0, l) && |l.regs| == NUM_REGS == |t.stkOffset|
    requires AllocArity(op, |os|) && AllDefined(os, Avail(names, l))
    ensures var (l', o) := GenAlloc(t, l, op, os); Adds(t, names, scope, l0, l') && Defined(o, Avail(names, l'))
  {
    hide Emit, Adds, Avail, MlReg, SetMLReg, GenFields, RawRecordBump;
    MlRegAdds(t, names, scope, l0, l, ALLOC_PTR);
    var (l1, ptr) := MlReg(t, l, ALLOC_PTR);
    EmitAdds(t, names, scope, l0, l1, Store(t.wordSzB), [ptr, Const(op.desc)]);
    var l2 := Emit(l1, Store(t.wordSzB), [ptr, Const(op.desc)]).0;
    EmitAdds(t, names, scope, l0, l2, Gep(t.wordSzB), [ptr]);
    var (l3, obj) := Emit(l2, Gep(t.wordSzB), [ptr]);
    FieldsAdds(t, names, scope, l0, l3, obj, op.fields, os, |os|);
    var l4 := GenFields(l3, obj, op.fields, os, |os|);
    EmitAdds(t, names, scope, l0, l4, Gep(RawRecordBump(t.wordSzB, op.fields)), [obj]);
    var (l5, top) := Emit(l4, Gep(RawRecordBump(t.wordSzB, op.fields)), [obj]);
    SetMLRegAdds(t, names, scope, l0, l5, ALLOC_PTR, top);
  }

  lemma AlignTagAdds(t: TargetInfo, names: set<nat>, scope: set<LVar>, l0: Line, l: Line, op: AllocOp, ptr: Operand)
    requires op.RAW_ALLOC? && Adds(t, names, scope, l0, l) && |l.regs| == NUM_REGS && Defined(ptr, Avail(names, l))
    ensures var (l', o) := GenAlign(t, l, op, ptr); var l'' := GenTag(t, l', op, o);
      Adds(t, names, scope, l0, l'') && Defined(o, Avail(names, l''))
  {
    hide Emit, Adds, Avail;
    if op.tag.Some? && op.align > t.wordSzB {
      EmitAdds(t, names, scope, l0, l, OrWord, [ptr, Const(op.align - t.wordSzB)]);
    }
    var (l', o) := GenAlign(t, l, op, ptr);
    if op.tag.Some? { EmitAdds(t, names, scope, l0, l', Store(t.wordSzB), [o, Const(op.tag.value)]); }
  }

  lemma RawAllocAdds(t: TargetInfo, names: set<nat>, scope: set<LVar>, l0: Line, l: Line, op: AllocOp, os: seq<Operand>)
    requires op.RAW_ALLOC? && Adds(t, names, scope, l0, l) && |l.regs| == NUM_REGS == |t.stkOffset|
    ensures var (l', o) := GenAlloc(t, l, op, os); Adds(t, names, scope, l0, l') && Defined(o, Avail(names, l'))
  {
    hide Emit, Adds, Avail, MlReg, SetMLReg, GenAlign, GenTag;
    MlRegAdds(t, names, scope, l0, l, ALLOC_PTR);
    var (l1, p) := MlReg(t, l, ALLOC_PTR);
    AlignTagAdds(t, names, scope, l0, l1, op, p);
    var (l2, ptr) := GenAlign(t, l1, op, p);
    var l3 := GenTag(t, l2, op, ptr);
    EmitAdds(t, names, scope, l0, l3, Gep(t.wordSzB), [ptr]);
    var (l4, obj) := Emit(l3, Gep(t.wordSzB), [ptr]);
    EmitAdds(t, names, scope, l0, l4, Gep(op.len + t.wordSzB), [ptr]);
    var (l5, top) := Emit(l4, Gep(op.len + t.wordSzB), [ptr]);
    SetMLRegAdds(t, names, scope, l0, l5, ALLOC_PTR, top);
  }

  lemma AllocAdds(t: TargetInfo, names: set<nat>, scope: set<LVar>, l0: Line, l: Line, op: AllocOp, os: seq<Operand>)
    requires Adds(t, names, scope, l0, l) && |l.regs| == NUM_REGS == |t.stkOffset| && AllocArity(op, |os|)
    requires AllDefined(os, Avail(names, l))
    ensures var (l', o) := GenAlloc(t, l, op, os); Adds(t, names, scope, l0, l') && Defined(o, Avail(names, l'))
  {
    match op
    case RECORD(desc) => hide Adds, Avail, AllocRecord; AllocRecordAdds(t, names, scope, l0, l, Const(desc), os);
    case SPECIAL => hide Adds, Avail, AllocRecord; AllocRecordAdds(t, names, scope, l0, l, os[0], [os[1]]);
    case RAW_RECORD(_, _) => hide *; RawRecordAdds(t, names, scope, l0, l, op, os);
    case RAW_ALLOC(_, _, _) => hide *; RawAllocAdds(t, names, scope, l0, l, op, os);
  }

  lemma RecordStoreAdds(t: TargetInfo, names: set<nat>, scope: set<LVar>, l0: Line, l: Line, adr: Operand)
    requires Adds(t, names, scope, l0, l) && |l.regs| == NUM_REGS == |t.stkOffset| && Defined(adr, Avail(names, l))
    ensures var l' := GenRecordStore(t, l, adr); Adds(t, names, scope, l0, l') && Avail(names, l) <= Avail(names, l')
  {
    hide Emit, Adds, Avail, MlReg, SetMLReg;
    MlRegAdds(t, names, scope, l0, l, ALLOC_PTR);
    var (l1, ptr) := MlReg(t, l, ALLOC_PTR);
    MlRegAdds(t, names, scope, l0, l1, STORE_PTR);
    var (l2, list) := MlReg(t, l1, STORE_PTR);
    EmitAdds(t, names, scope, l0, l2, Gep(0), [ptr]);
    var (l3, head) := Emit(l2, Gep(0), [ptr]);
    EmitAdds(t, names, scope, l0, l3, Store(t.wordSzB), [head, adr]);
    var l4 := Emit(l3, Store(t.wordSzB), [head, adr]).0;
    EmitAdds(t, names, scope, l0, l4, Gep(t.wordSzB), [ptr]);
    var (l5, link) := Emit(l4, Gep(t.wordSzB), [ptr]);
    EmitAdds(t, names, scope, l0, l5, Store(t.wordSzB), [link, list]);
    var l6 := Emit(l5, Store(t.wordSzB), [link, list]).0;
    SetMLRegAdds(t, names, scope, l0, l6, STORE_PTR, ptr);
    var l7 := SetMLReg(t, l6, STORE_PTR, ptr);
    EmitAdds(t, names, scope, l0, l7, Gep(2 * t.wordSzB), [ptr]);
    var (l8, top) := Emit(l7, Gep(2 * t.wordSzB), [ptr]);
    SetMLRegAdds(t, names, scope, l0, l8, ALLOC_PTR, top);
  }

  lemma SetterAdds(t: TargetInfo, names: set<nat>, scope: set<LVar>, l0: Line, l: Line, op: SetterOp, os: seq<Operand>)
    requires Adds(t, names, scope, l0, l) && |l.regs| == NUM_REGS == |t.stkOffset| && SetterArity(op, |os|)
    requires AllDefined(os, Avail(names, l))
    ensures Adds(t, names, scope, l0, GenSetter(t, l, op, os))
  {
    hide Emit, Adds, Avail, SetMLReg, GenRecordStore;
    match op
    case UPDATE =>
      EmitAdds(t, names, scope, l0, l, GepDyn(t.wordSzB), [os[0], os[1]]);
      var (l1, adr) := Emit(l, GepDyn(t.wordSzB), [os[0], os[1]]);
      RecordStoreAdds(t, names, scope, l0, l1, adr);
      EmitAdds(t, names, scope, l0, GenRecordStore(t, l1, adr), Store(t.wordSzB), [adr, os[2]]);
    case ASSIGN =>
      RecordStoreAdds(t, names, scope, l0, l, os[0]);
      EmitAdds(t, names, scope, l0, GenRecordStore(t, l, os[0]), Store(t.wordSzB), [os[0], os[1]]);
    case RAW(o) => EmitAdds(t, names, scope, l0, l, Poke(o), os);
    case SET_HDLR => SetMLRegAdds(t, names, scope, l0, l, EXN_HNDLR, os[0]);
    case SET_VAR => SetMLRegAdds(t, names, scope, l0, l, VAR_PTR, os[0]);
  }

  lemma TestAdds(t: TargetInfo, names: set<nat>, scope: set<LVar>, l0: Line, l: Line, op: BranchOp, os: seq<Operand>)
    requires Adds(t, names, scope, l0, l) && |l.regs| == NUM_REGS == |t.stkOffset| && AllDefined(os, Avail(names, l))
    ensures var (l', o) := GenTest(t, l, op, os); Adds(t, names, scope, l0, l') && Defined(o, Avail(names, l'))
  {
    hide Emit, Adds, Avail, MlReg;
    match op
    case COMPARE(o) => EmitAdds(t, names, scope, l0, l, Pure(o), os);
    case LIMIT(amt) =>
      MlRegAdds(t, names, scope, l0, l, ALLOC_PTR);
      var (l1, ptr) := MlReg(t, l, ALLOC_PTR);
      if amt > t.allocSlopSzb { EmitAdds(t, names, scope, l0, l1, Pure(ADD_WORD), [ptr, Const(amt - t.allocSlopSzb)]); }
      var (l2, top) := if amt > t.allocSlopSzb then Emit(l1, Pure(ADD_WORD), [ptr, Const(amt - t.allocSlopSzb)])
        else (l1, ptr);
      MlRegAdds(t, names, scope, l0, l2, LIMIT_PTR);
      var (l3, lim) := MlReg(t, l2, LIMIT_PTR);
      EmitAdds(t, names, scope, l0, l3, UGreater, [top, lim]);
  }

  lemma TrapAdds(t: TargetInfo, names: set<nat>, scope: set<LVar>, l0: Line, l: Line, op: nat, os: seq<Operand>)
    requires Adds(t, names, scope, l0, l) && |l.regs| == NUM_REGS && AllDefined(os, Avail(names, l))
    ensures var (l', res, obit) := GenTrap(l, op, os);
      Adds(t, names, scope, l0, l') && Defined(res, Avail(names, l')) && Defined(obit, Avail(names, l'))
  {
    hide Emit, Adds, Avail;
    EmitAdds(t, names, scope, l0, l, Arith(op), os);
    var (l1, pair) := Emit(l, Arith(op), os);
    EmitAdds(t, names, scope, l0, l1, Extract(0), [pair]);
    var (l2, res) := Emit(l1, Extract(0), [pair]);
    EmitAdds(t, names, scope, l0, l2, Extract(1), [pair]);
  }

  // ----- conventions -----

  /** Every position of the convention is filled. */
  lemma CreateArgsDefined(t: TargetInfo, regs: seq<Option<Operand>>, kind: FragKind, names: set<nat>)
    requires RegsOk(t, regs, names)
    ensures AllDefined(CreateArgs(t, regs, kind), names)
  {
    forall k | 0 <= k < |MachineRegs(t)| ensures Defined(RegOperand(regs[MachineRegs(t)[k]]), names) {
      TableIsSound(t, NUM_REGS, k);
    }
  }

  lemma CallAdds(t: TargetInfo, names: set<nat>, scope: set<LVar>, l: Line, fn: Exp, kind: FragKind, args: seq<Exp>)
    requires LineOk(t, names, scope, l) && |l.regs| == NUM_REGS == |t.stkOffset| && ScopedExp(fn, scope)
    requires ScopedExps(args, scope)
    ensures Adds(t, names, scope, l, GenCall(t, l, fn, kind, args))
  {
    AddsRefl(t, names, scope, l);
    ExpAdds(t, names, scope, l, l, fn);
    var (l1, f) := GenExp(t, l, fn);
    ExpsAdds(t, names, scope, l, l1, args);
    var (l2, os) := GenExps(t, l1, args);
    CreateArgsDefined(t, l2.regs, kind, Avail(names, l2)) by { AddsOk(t, names, scope, l, l2); }
    hide Emit, Adds, Avail, GenExp, GenExps, CreateArgs, LineOk;
    EmitAdds(t, names, scope, l, l2, TailCall, [f] + CreateArgs(t, l1.regs, kind) + os);
  }

  lemma {:induction false} GCRegsAdds(t: TargetInfo, names: set<nat>, scope: set<LVar>, l0: Line, l: Line,
                                      call: Operand, n: nat)
    requires Adds(t, names, scope, l0, l) && |l.regs| == NUM_REGS == |t.stkOffset| && n <= NUM_REGS
    requires Defined(call, Avail(names, l))
    ensures var l' := GenGCRegs(t, l, call, n);
      Adds(t, names, scope, l0, l') && Avail(names, l) <= Avail(names, l') && l'.vMap == l.vMap
  {
    hide Emit, Adds, Avail, SetMLReg;
    if n > 0 {
      GCRegsAdds(t, names, scope, l0, l, call, n - 1);
      var l1 := GenGCRegs(t, l, call, n - 1);
      if t.IsMachineReg(n - 1) {
        EmitAdds(t, names, scope, l0, l1, Extract(MachineIx(t, n - 1)), [call]);
        var (l2, v) := Emit(l1, Extract(MachineIx(t, n - 1)), [call]);
        SetMLRegAdds(t, names, scope, l0, l2, n - 1, v);
      }
    }
  }

  lemma {:induction false} GCRootsAdds(t: TargetInfo, names: set<nat>, scope: set<LVar>, l0: Line, l: Line,
                                       call: Operand, xs: seq<LVar>, n: nat)
    requires Adds(t, names, scope, l0, l) && |l.regs| == NUM_REGS == |t.stkOffset| && n <= |xs|
    requires Defined(call, Avail(names, l))
    requires NoDup(xs) && forall x :: x in xs ==> x !in l.vMap
    ensures var l' := GenGCRoots(t, l, call, xs, n);
      Adds(t, names, scope + Elems(xs[..n]), l0, l') && Avail(names, l) <= Avail(names, l')
        && l'.vMap.Keys == l.vMap.Keys + Elems(xs[..n])
  {
    hide Emit, Adds, Avail;
    if n == 0 {
      assert scope + Elems(xs[..n]) == scope;
    } else {
      GCRootsAdds(t, names, scope, l0, l, call, xs, n - 1);
      var scope1 := scope + Elems(xs[..n - 1]);
      var l1 := GenGCRoots(t, l, call, xs, n - 1);
      EmitAdds(t, names, scope1, l0, l1, Extract(|MachineRegs(t)| + n - 1), [call]);
      var (l2, v) := Emit(l1, Extract(|MachineRegs(t)| + n - 1), [call]);
      assert xs[..n] == xs[..n - 1] + [xs[n - 1]];
      assert xs[n - 1] in xs && xs[n - 1] !in xs[..n - 1];
      assert scope + Elems(xs[..n]) == scope1 + {xs[n - 1]};
      BindAdds(t, names, scope1, l0, l2, xs[n - 1], v);
    }
  }

  lemma CallGCAdds(t: TargetInfo, names: set<nat>, scope: set<LVar>, l0: Line, l: Line, args: seq<Operand>,
                   xs: seq<LVar>)
    requires Adds(t, names, scope, l0, l) && |l.regs| == NUM_REGS == |t.stkOffset| && AllDefined(args, Avail(names, l))
    requires NoDup(xs) && forall x :: x in xs ==> x !in l.vMap
    ensures Adds(t, names, scope + Elems(xs), l0, GenCallGC(t, l, args, xs))
  {
    hide Emit, Adds, Avail, GenGCRegs, GenGCRoots;
    EmitAdds(t, names, scope, l0, l, LoadSlot(t.callGCOffset), []);
    var (l1, fn) := Emit(l, LoadSlot(t.callGCOffset), []);
    EmitAdds(t, names, scope, l0, l1, CallGC, [fn] + args);
    var (l2, call) := Emit(l1, CallGC, [fn] + args);
    GCRegsAdds(t, names, scope, l0, l2, call, NUM_REGS);
    GCRootsAdds(t, names, scope, l0, GenGCRegs(t, l2, call, NUM_REGS), call, xs, |xs|);
    assert xs[..|xs|] == xs;
  }

  // ----- simple statements -----

  /** A simple statement's arguments are in scope, and what it binds is new. */
  ghost predicate SimpleOk(c: Context, s: Stm, scope: set<LVar>, vMap: map<LVar, Operand>) {
    IsSimple(s) && Scoped(c, s, scope) && UniqueBinders(s) && Binders(s) !! vMap.Keys
  }

  lemma SimpleAdds(c: Context, names: set<nat>, scope: set<LVar>, l: Line, s: Stm)
    requires SimpleOk(c, s, scope, l.vMap) && LineOk(c.target, names, scope, l)
    requires |l.regs| == NUM_REGS == |c.target.stkOffset|
    ensures Adds(c.target, names, scope + Bound(s), l, GenSimple(c.target, l, s))
  {
    var t := c.target;
    AddsRefl(t, names, scope, l);
    hide LineOk;
    match s
    case LET(e, x, k) => LetAdds(t, names, scope, l, e, x, k);
    case ALLOC(op, args, x, k) => AllocStmAdds(t, names, scope, l, op, args, x, k);
    case ARITH(op, args, x, k) => ArithAdds(t, names, scope, l, op, args, x, k);
    case SETTER(op, args, k) => SetterStmAdds(t, names, scope, l, op, args, k);
    case CALLGC(roots, xs, k) => CollectAdds(t, names, scope, l, roots, xs, k);
  }

  lemma LetAdds(t: TargetInfo, names: set<nat>, scope: set<LVar>, l: Line, e: Exp, x: LVar, k: Stm)
    requires Adds(t, names, scope, l, l) && |l.regs| == NUM_REGS == |t.stkOffset| && ScopedExp(e, scope) && x !in l.vMap
    ensures Adds(t, names, scope + {x}, l, GenSimple(t, l, LET(e, x, k)))
  {
    hide Adds, Avail, GenExp, Bind;
    ExpAdds(t, names, scope, l, l, e);
    var (l1, o) := GenExp(t, l, e);
    BindAdds(t, names, scope, l, l1, x, o);
  }

  lemma AllocStmAdds(t: TargetInfo, names: set<nat>, scope: set<LVar>, l: Line, op: AllocOp, args: seq<Exp>, x: LVar,
                     k: Stm)
    requires Adds(t, names, scope, l, l) && |l.regs| == NUM_REGS == |t.stkOffset|
    requires AllocArity(op, |args|) && ScopedExps(args, scope) && x !in l.vMap
    ensures Adds(t, names, scope + {x}, l, GenSimple(t, l, ALLOC(op, args, x, k)))
  {
    hide Adds, Avail, GenExps, GenAlloc, Bind;
    ExpsAdds(t, names, scope, l, l, args);
    var (l1, os) := GenExps(t, l, args);
    AllocAdds(t, names, scope, l, l1, op, os);
    var (l2, o) := GenAlloc(t, l1, op, os);
    AllocKeeps(t, l1, op, os);
    BindAdds(t, names, scope, l, l2, x, o);
  }

  lemma ArithAdds(t: TargetInfo, names: set<nat>, scope: set<LVar>, l: Line, op: ArithOp, args: seq<Exp>, x: LVar,
                  k: Stm)
    requires Adds(t, names, scope, l, l) && |l.regs| == NUM_REGS == |t.stkOffset| && op.NOTRAP?
    requires ScopedExps(args, scope) && x !in l.vMap
    ensures Adds(t, names, scope + {x}, l, GenSimple(t, l, ARITH(op, args, x, k)))
  {
    hide Adds, Avail, GenExps, Bind;
    ExpsAdds(t, names, scope, l, l, args);
    var (l1, os) := GenExps(t, l, args);
    EmitAdds(t, names, scope, l, l1, Pure(op.op), os);
    var (l2, o) := Emit(l1, Pure(op.op), os);
    BindAdds(t, names, scope, l, l2, x, o);
  }

  lemma SetterStmAdds(t: TargetInfo, names: set<nat>, scope: set<LVar>, l: Line, op: SetterOp, args: seq<Exp>, k: Stm)
    requires Adds(t, names, scope, l, l) && |l.regs| == NUM_REGS == |t.stkOffset| && SetterArity(op, |args|)
    requires ScopedExps(args, scope)
    ensures Adds(t, names, scope + {}, l, GenSimple(t, l, SETTER(op, args, k)))
  {
    hide Adds, Avail, GenExps, GenSetter;
    assert scope + {} == scope;
    ExpsAdds(t, names, scope, l, l, args);
    var (l1, os) := GenExps(t, l, args);
    SetterAdds(t, names, scope, l, l1, op, os);
  }

  lemma CollectAdds(t: TargetInfo, names: set<nat>, scope: set<LVar>, l: Line, roots: seq<Exp>, xs: seq<LVar>, k: Stm)
    requires Adds(t, names, scope, l, l) && |l.regs| == NUM_REGS == |t.stkOffset| && ScopedExps(roots, scope)
    requires NoDup(xs) && forall x :: x in xs ==> x !in l.vMap
    ensures Adds(t, names, scope + Elems(xs), l, GenSimple(t, l, CALLGC(roots, xs, k)))
  {
    ExpsAdds(t, names, scope, l, l, roots);
    var (l1, os) := GenExps(t, l, roots);
    CreateArgsDefined(t, l1.regs, STD_FUN, Avail(names, l1)) by { AddsOk(t, names, scope, l, l1); }
    hide Adds, Avail, GenExps, CreateArgs, GenCallGC;
    CallGCAdds(t, names, scope, l, l1, CreateArgs(t, l.regs, STD_FUN) + os, xs);
  }
}
