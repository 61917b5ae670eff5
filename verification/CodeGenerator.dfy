/** The code generator itself: a context that methods update as they walk the tree. Each method is
    specified by what it does to the function under construction. */
module CodeGenerator {
  import opened Common
  import opened Bits
  import opened CMRegisters
  import opened TargetIR
  import opened CFG
  import opened CodeBuilder

  /** What each CMachine register currently stands for; None for a register in a stack slot. */
  class CMRegState {
    const val: array<Option<Operand>>

    constructor ()
      ensures fresh(val) && val.Length == NUM_REGS && val[..] == InitialBuilder().regs
    {
      val := new Option<Operand>[NUM_REGS];
      new;
      for i := 0 to NUM_REGS
        invariant forall r :: 0 <= r < i ==> val[r] == None
      {
        val[i] := None;
      }
    }

    method CopyFrom(cache: CMRegState)
      requires val.Length == NUM_REGS && cache.val.Length == NUM_REGS
      modifies val
      ensures val[..] == old(cache.val[..])
    {
      for i := 0 to NUM_REGS
        invariant forall r :: 0 <= r < i ==> val[r] == old(cache.val[r])
        invariant cache.val != val ==> cache.val[..] == old(cache.val[..])
        invariant forall r :: i <= r < NUM_REGS ==> val[r] == old(val[r])
      {
        val[i] := cache.val[i];
      }
    }
  }

  lemma PutPut(st: Builder, l: Line, l': Line)
    requires st.Ok() && |l.regs| == NUM_REGS && |l'.regs| == NUM_REGS
    ensures st.Put(l).Put(l') == st.Put(l') && st.Put(st.OpenLine()) == st
  {}

  class Context {
    const target: TargetInfo
    const clusters: map<LVar, FragKind>
    const regInfo: CMRegs
    const regState: CMRegState

    var blocks: seq<Block>
    var next: nat
    var cur: nat
    var vMap: map<LVar, Operand>
    var ovf: Option<nat>
    var frags: map<LVar, nat>

    ghost predicate Valid()
      reads this, regInfo.info, regInfo.hwRegs
    {
      regInfo.Describes(target) && regState.val.Length == NUM_REGS && (target.wordSzB == 4 || target.wordSzB == 8)
    }

    /** There is a block to insert code into, and an overflow block has a phi for every machine register. */
    ghost predicate Ready()
      reads this, regInfo.info, regInfo.hwRegs
    {
      Valid() && cur < |blocks|
      && (ovf.Some? ==> ovf.value < |blocks| && |blocks[ovf.value].phis| == regInfo.nHWRegs)
    }

    ghost function State(): Builder
      reads this, regState.val
    {
      Builder(blocks, next, cur, vMap, regState.val[..], ovf, frags)
    }

    constructor (t: TargetInfo, cs: map<LVar, FragKind>)
      requires |t.stkOffset| == NUM_REGS && (t.wordSzB == 4 || t.wordSzB == 8)
      ensures Valid() && State() == InitialBuilder() && target == t && clusters == cs && fresh(regState.val)
    {
      target, clusters := t, cs;
      regInfo := new CMRegs(t);
      regState := new CMRegState();
      blocks, next, cur, vMap, ovf, frags := [], 0, 0, map[], None, map[];
    }

    // ----- the builder -----

    method NewBB() returns (b: nat)
      requires Valid()
      modifies this
      ensures Valid() && (State(), b) == CodeBuilder.NewBB(old(State()))
    {
      b := |blocks|;
      blocks := blocks + [EMPTY_BLOCK];
    }

    method SetInsertPoint(bb: Option<nat>)
      requires Ready()
      modifies this
      ensures Ready() && State() == CodeBuilder.SetInsertPoint(old(State()), bb)
    {
      if bb.Some? && bb.value < |blocks| { cur := bb.value; }
    }

    method Emit(op: Oper, args: seq<Operand>) returns (o: Operand)
      requires Ready()
      modifies this
      ensures Ready()
      ensures var r := CodeBuilder.Emit(old(State()).OpenLine(), op, args); State() == old(State()).Put(r.0) && o == r.1
    {
      o := Id(next);
      blocks := blocks[cur := blocks[cur].(body := blocks[cur].body + [Instr(next, op, args)])];
      next := next + 1;
    }

    method Seal(term: Term)
      requires Ready()
      modifies this
      ensures Ready() && State() == CodeBuilder.Seal(old(State()), term)
    {
      blocks := blocks[cur := blocks[cur].(term := Some(term))];
    }

    /** Adds one incoming value to one phi. */
    method AddIncoming(b: nat, i: nat, v: Operand)
      requires Valid() && b < |blocks| && i < |blocks[b].phis|
      modifies this
      ensures Valid() && State() == old(State()).(blocks := blocks)
      ensures var blk := old(blocks)[b];
        var phi := Phi(blk.phis[i].dst, blk.phis[i].incoming + [(cur, v)]);
        blocks == old(blocks)[b := blk.(phis := blk.phis[i := phi])]
    {
      var phi := blocks[b].phis[i];
      blocks := blocks[b := blocks[b].(phis := blocks[b].phis[i := phi.(incoming := phi.incoming + [(cur, v)])])];
    }

    // ----- registers and variables -----

    method MlReg(r: RegId) returns (o: Operand)
      requires Ready()
      modifies this
      ensures Ready()
      ensures var res := CodeBuilder.MlReg(target, old(State()).OpenLine(), r);
        State() == old(State()).Put(res.0) && o == res.1
    {
      PutPut(State(), State().OpenLine(), State().OpenLine());
      var reg := regState.val[r];
      if reg.None? {
        o := Emit(LoadSlot(regInfo.info[r].offset), []);
      } else {
        o := reg.value;
      }
    }

    method SetMLReg(r: RegId, v: Operand)
      requires Ready()
      modifies this, regState.val
      ensures Ready() && State() == old(State()).Put(CodeBuilder.SetMLReg(target, old(State()).OpenLine(), r, v))
    {
      var reg := regState.val[r];
      if reg.None? {
        var _ := Emit(StoreSlot(regInfo.info[r].offset), [v]);
      } else {
        regState.val[r] := Some(v);
        assert State().blocks == old(State()).Put(CodeBuilder.SetMLReg(target, old(State()).OpenLine(), r, v)).blocks;
      }
    }

    /** Like the map's insert, which keeps an existing binding. */
    method InsertVal(x: LVar, v: Operand)
      requires Valid()
      modifies this
      ensures Valid() && State() == old(State()).(vMap := Insert(old(vMap), x, v))
    {
      if x !in vMap { vMap := vMap[x := v]; }
    }

    method CreateArgs(kind: FragKind) returns (args: seq<Operand>)
      requires Valid()
      ensures args == CodeBuilder.CreateArgs(target, State().regs, kind)
      ensures |args| == |MachineRegs(target)| + (if kind == STD_CONT then 2 else 0)
      ensures forall j :: |MachineRegs(target)| <= j < |args| ==> args[j] == Undef
    {
      args := [];
      for i := 0 to regInfo.nHWRegs
        invariant args == CodeBuilder.CreateArgs(target, State().regs, INTERNAL)[..i]
      {
        args := args + [RegOperand(regState.val[regInfo.hwRegs[i].id])];
      }
      var nUnused := NumUnused(kind);
      for i := 0 to nUnused
        invariant args == CodeBuilder.CreateArgs(target, State().regs, INTERNAL) + seq(i, _ => Undef)
      {
        args := args + [Undef];
      }
    }

    method SetupStdEntry(f: Frag)
      requires Ready() && vMap == map[]
      modifies this, regState.val
      ensures Ready()
      ensures State() == old(State()).(regs := StdEntryRegs(target, old(State()).regs, NUM_REGS),
                                       vMap := BindParams(f.params, EntryParams(target, f), |f.params|))
    {
      var hwIx := 0;
      for i := 0 to NUM_REGS
        invariant Ready() && hwIx == |MachineRegsBelow(target, i)|
        invariant State() == old(State()).(regs := StdEntryRegs(target, old(State()).regs, i))
      {
        ghost var r: RegId := i;
        assert regInfo.info[r].id == r;
        if regInfo.info[i].IsMachineReg() {
          regState.val[i] := Some(Arg(hwIx));
          hwIx := hwIx + 1;
        } else {
          regState.val[i] := None;
        }
        ghost var entered := StdEntryRegs(target, old(State()).regs, i);
        assert State().regs == entered[r := if target.IsMachineReg(r) then Some(Arg(MachineIx(target, r))) else None];
        assert State().regs == StdEntryRegs(target, old(State()).regs, i + 1);
      }
      var baseIx := regInfo.nHWRegs + NumUnused(f.kind);
      for i := 0 to |f.params|
        invariant Ready()
        invariant State() == old(State()).(regs := StdEntryRegs(target, old(State()).regs, NUM_REGS),
                                           vMap := BindParams(f.params, EntryParams(target, f), i))
      {
        InsertVal(f.params[i], Arg(baseIx + i));
      }
    }

    method SetupFragEntry(f: Frag, phis: seq<Phi>)
      requires Ready() && vMap == map[] && |phis| >= |MachineRegs(target)| + |f.params|
      modifies this, regState.val
      ensures Ready()
      ensures State() == old(State()).(regs := FragEntryRegs(target, old(State()).regs, phis, |MachineRegs(target)|),
                                       vMap := BindParams(f.params, PhiParams(target, phis, |f.params|), |f.params|))
    {
      for i := 0 to regInfo.nHWRegs
        invariant Ready() && State() == old(State()).(regs := FragEntryRegs(target, old(State()).regs, phis, i))
      {
        regState.val[regInfo.hwRegs[i].id] := Some(Id(phis[i].dst));
        assert State().regs == FragEntryRegs(target, old(State()).regs, phis, i + 1);
      }
      for i := 0 to |f.params|
        invariant Ready()
        invariant State() ==
          old(State()).(regs := FragEntryRegs(target, old(State()).regs, phis, |MachineRegs(target)|),
                        vMap := BindParams(f.params, PhiParams(target, phis, |f.params|), i))
      {
        InsertVal(f.params[i], Id(phis[regInfo.nHWRegs + i].dst));
      }
    }

    // ----- expressions -----

    method Exp(e: Exp) returns (o: Operand)
      requires Ready()
      modifies this
      ensures Ready()
      ensures var r := GenExp(target, old(State()).OpenLine(), e); State() == old(State()).Put(r.0) && o == r.1
      decreases e, 1
    {
      ghost var st := State();
      PutPut(st, st.OpenLine(), st.OpenLine());
      match e
      case VAR(x) => o := LookupVal(vMap, x);
      case LABEL(lab) => o := Label(lab);
      case NUM(n) => o := Const(n);
      case LOOKER(op, args) =>
        var os := Exps(args);
        match op {
          case GET_HDLR => o := MlReg(EXN_HNDLR);
          case GET_VAR => o := MlReg(VAR_PTR);
          case LOOK(p) => o := Emit(Look(p), os);
        }
        PutPut(st, GenExps(target, st.OpenLine(), args).0, State().OpenLine());
      case PURE(p, args) =>
        var os := Exps(args);
        o := Emit(Pure(p), os);
        PutPut(st, GenExps(target, st.OpenLine(), args).0, State().OpenLine());
      case SELECT(i, a) => o := Select(i, a);
    }

    method Select(i: nat, a: Exp) returns (o: Operand)
      requires Ready()
      modifies this
      ensures Ready()
      ensures var r := GenExp(target, old(State()).OpenLine(), SELECT(i, a));
        State() == old(State()).Put(r.0) && o == r.1
      decreases a, 2
    {
      ghost var st := State();
      var base := Exp(a);
      ghost var l1 := State().OpenLine();
      var adr := Emit(Gep(i * target.wordSzB), [base]);
      ghost var l2 := State().OpenLine();
      o := Emit(Load, [adr]);
      PutPut(st, l1, l2);
      PutPut(st, l2, State().OpenLine());
    }

    method Exps(es: seq<Exp>) returns (os: seq<Operand>)
      requires Ready()
      modifies this
      ensures Ready()
      ensures var r := GenExps(target, old(State()).OpenLine(), es); State() == old(State()).Put(r.0) && os == r.1
      decreases es, 0
    {
      ghost var st := State();
      PutPut(st, st.OpenLine(), st.OpenLine());
      os := [];
      for i := 0 to |es|
        invariant Ready()
        invariant var r := GenExps(target, st.OpenLine(), es[..i]); State() == st.Put(r.0) && os == r.1
      {
        ghost var l := State().OpenLine();
        var o := Exp(es[i]);
        os := os + [o];
        assert es[..i + 1][..i] == es[..i];
        PutPut(st, l, State().OpenLine());
      }
      assert es[..|es|] == es;
    }

    // ----- allocation -----

    method AllocRecord(desc: Operand, args: seq<Operand>) returns (obj: Operand)
      requires Ready()
      modifies this, regState.val
      ensures Ready()
      ensures var r := CodeBuilder.AllocRecord(target, old(State()).OpenLine(), desc, args);
        State() == old(State()).Put(r.0) && obj == r.1
    {
      ghost var st := State();
      var ptr := MlReg(ALLOC_PTR);
      ghost var l1 := State().OpenLine();
      var _ := Emit(Store(target.wordSzB), [ptr, desc]);
      ghost var l2 := State().OpenLine();
      PutPut(st, l1, l2);
      StoreFieldsOf(ptr, args);
      ghost var l3 := State().OpenLine();
      PutPut(st, l2, l3);
      obj := Emit(Gep(target.wordSzB), [ptr]);
      ghost var l4 := State().OpenLine();
      PutPut(st, l3, l4);
      var top := Emit(Gep((|args| + 1) * target.wordSzB), [ptr]);
      ghost var l5 := State().OpenLine();
      PutPut(st, l4, l5);
      SetMLReg(ALLOC_PTR, top);
      PutPut(st, l5, State().OpenLine());
    }

    /** Initialises the words after the descriptor. */
    method StoreFieldsOf(ptr: Operand, args: seq<Operand>)
      requires Ready()
      modifies this
      ensures Ready() && State() == old(State()).Put(GenStoreWords(target, old(State()).OpenLine(), ptr, args, |args|))
    {
      hide CodeBuilder.Emit;
      ghost var st := State();
      PutPut(st, st.OpenLine(), st.OpenLine());
      for i := 1 to |args| + 1
        invariant Ready() && State() == st.Put(GenStoreWords(target, st.OpenLine(), ptr, args, i - 1))
      {
        ghost var l := State().OpenLine();
        var adr := Emit(Gep(i * target.wordSzB), [ptr]);
        ghost var l' := State().OpenLine();
        var _ := Emit(Store(target.wordSzB), [adr, args[i - 1]]);
        PutPut(st, l, l');
        PutPut(st, l', State().OpenLine());
      }
    }

    /** Initialises the fields of a raw record, each at the next multiple of its size, and returns the number
        of bytes they take, rounded up to words. */
    method StoreRawFields(obj: Operand, sizes: seq<nat>, args: seq<Operand>) returns (offset: nat)
      requires Ready() && |args| == |sizes| && forall i :: 0 <= i < |sizes| ==> IsPow2(sizes[i])
      modifies this
      ensures Ready() && State() == old(State()).Put(GenFields(old(State()).OpenLine(), obj, sizes, args, |args|))
      ensures offset == RoundUp(FieldsEnd(sizes, |sizes|), target.wordSzB)
    {
      hide RoundUp, And, AndNot, IsPow2, CodeBuilder.Emit;
      ghost var st := State();
      PutPut(st, st.OpenLine(), st.OpenLine());
      offset := 0;
      for i := 0 to |args|
        invariant Ready() && State() == st.Put(GenFields(st.OpenLine(), obj, sizes, args, i))
        invariant offset == FieldsEnd(sizes, i)
      {
        var szb := sizes[i];
        assert IsPow2(szb);
        PowerPositive(szb);
        ghost var l := State().OpenLine();
        RoundsByMask(offset, szb);
        if And(offset, szb - 1) != 0 {
          offset := AndNot(offset + (szb - 1), szb - 1);
        }
        assert offset == FieldOffset(sizes, i);
        var adr := Emit(Gep(offset), [obj]);
        ghost var l' := State().OpenLine();
        var _ := Emit(Store(szb), [adr, args[i]]);
        PutPut(st, l, l');
        PutPut(st, l', State().OpenLine());
        offset := offset + szb;
      }
      SmallPowers();
      RoundsByMask(offset, target.wordSzB);
      offset := AndNot(offset + (target.wordSzB - 1), target.wordSzB - 1);
    }

    method RawRecord(op: AllocOp, args: seq<Operand>) returns (obj: Operand)
      requires Ready() && op.RAW_RECORD? && AllocArity(op, |args|)
      modifies this, regState.val
      ensures Ready()
      ensures var r := GenAlloc(target, old(State()).OpenLine(), op, args);
        State() == old(State()).Put(r.0) && obj == r.1
    {
      ghost var st := State();
      var ptr := MlReg(ALLOC_PTR);
      ghost var l1 := State().OpenLine();
      var _ := Emit(Store(target.wordSzB), [ptr, Const(op.desc)]);
      ghost var l2 := State().OpenLine();
      PutPut(st, l1, l2);
      obj := Emit(Gep(target.wordSzB), [ptr]);
      ghost var l3 := State().OpenLine();
      PutPut(st, l2, l3);
      var offset := StoreRawFields(obj, op.fields, args);
      ghost var l4 := State().OpenLine();
      PutPut(st, l3, l4);
      var top := Emit(Gep(offset * target.wordSzB), [obj]);
      ghost var l5 := State().OpenLine();
      PutPut(st, l4, l5);
      SetMLReg(ALLOC_PTR, top);
      PutPut(st, l5, State().OpenLine());
    }

    /** Writes the descriptor of a tagged object, one word before an aligned address if need be. */
    method AlignAndTag(op: AllocOp, ptr: Operand) returns (o: Operand)
      requires Ready() && op.RAW_ALLOC?
      modifies this
      ensures Ready()
      ensures var r := GenAlign(target, old(State()).OpenLine(), op, ptr);
        State() == old(State()).Put(GenTag(target, r.0, op, r.1)) && o == r.1
    {
      ghost var st := State();
      PutPut(st, st.OpenLine(), st.OpenLine());
      o := ptr;
      if op.tag.Some? {
        if op.align > target.wordSzB {
          o := Emit(OrWord, [ptr, Const(op.align - target.wordSzB)]);
        }
        ghost var l := State().OpenLine();
        var _ := Emit(Store(target.wordSzB), [o, Const(op.tag.value)]);
        PutPut(st, l, State().OpenLine());
      }
    }

    method RawAlloc(op: AllocOp, ghost args: seq<Operand>) returns (obj: Operand)
      requires Ready() && op.RAW_ALLOC?
      modifies this, regState.val
      ensures Ready()
      ensures var r := GenAlloc(target, old(State()).OpenLine(), op, args);
        State() == old(State()).Put(r.0) && obj == r.1
    {
      ghost var st := State();
      var allocPtr := MlReg(ALLOC_PTR);
      ghost var l1 := State().OpenLine();
      var ptr := AlignAndTag(op, allocPtr);
      ghost var l3 := State().OpenLine();
      PutPut(st, l1, l3);
      obj := Emit(Gep(target.wordSzB), [ptr]);
      ghost var l4 := State().OpenLine();
      PutPut(st, l3, l4);
      var top := Emit(Gep(op.len + target.wordSzB), [ptr]);
      ghost var l5 := State().OpenLine();
      PutPut(st, l4, l5);
      SetMLReg(ALLOC_PTR, top);
      PutPut(st, l5, State().OpenLine());
    }

    method Alloc(op: AllocOp, args: seq<Operand>) returns (obj: Operand)
      requires Ready() && AllocArity(op, |args|)
      modifies this, regState.val
      ensures Ready()
      ensures var r := GenAlloc(target, old(State()).OpenLine(), op, args);
        State() == old(State()).Put(r.0) && obj == r.1
    {
      match op
      case RECORD(desc) => obj := AllocRecord(Const(desc), args);
      case SPECIAL => obj := AllocRecord(args[0], [args[1]]);
      case RAW_RECORD(_, _) => obj := RawRecord(op, args);
      case RAW_ALLOC(_, _, _) => obj := RawAlloc(op, args);
    }

    // ----- assignments and tests -----

    method RecordStore(adr: Operand)
      requires Ready()
      modifies this, regState.val
      ensures Ready() && State() == old(State()).Put(GenRecordStore(target, old(State()).OpenLine(), adr))
    {
      ghost var st := State();
      var ptr := MlReg(ALLOC_PTR);
      ghost var l1 := State().OpenLine();
      var list := MlReg(STORE_PTR);
      ghost var l2 := State().OpenLine();
      PutPut(st, l1, l2);
      var head := Emit(Gep(0), [ptr]);
      ghost var l3 := State().OpenLine();
      PutPut(st, l2, l3);
      var _ := Emit(Store(target.wordSzB), [head, adr]);
      ghost var l4 := State().OpenLine();
      PutPut(st, l3, l4);
      var link := Emit(Gep(target.wordSzB), [ptr]);
      ghost var l5 := State().OpenLine();
      PutPut(st, l4, l5);
      var _ := Emit(Store(target.wordSzB), [link, list]);
      ghost var l6 := State().OpenLine();
      PutPut(st, l5, l6);
      SetMLReg(STORE_PTR, ptr);
      ghost var l7 := State().OpenLine();
      PutPut(st, l6, l7);
      var top := Emit(Gep(2 * target.wordSzB), [ptr]);
      ghost var l8 := State().OpenLine();
      PutPut(st, l7, l8);
      SetMLReg(ALLOC_PTR, top);
      PutPut(st, l8, State().OpenLine());
    }

    method Setter(op: SetterOp, args: seq<Operand>)
      requires Ready() && SetterArity(op, |args|)
      modifies this, regState.val
      ensures Ready() && State() == old(State()).Put(GenSetter(target, old(State()).OpenLine(), op, args))
    {
      ghost var st := State();
      match op
      case UPDATE =>
        var adr := Emit(GepDyn(target.wordSzB), [args[0], args[1]]);
        ghost var l1 := State().OpenLine();
        RecordStore(adr);
        ghost var l2 := State().OpenLine();
        PutPut(st, l1, l2);
        var _ := Emit(Store(target.wordSzB), [adr, args[2]]);
        PutPut(st, l2, State().OpenLine());
      case ASSIGN =>
        RecordStore(args[0]);
        ghost var l1 := State().OpenLine();
        var _ := Emit(Store(target.wordSzB), [args[0], args[1]]);
        PutPut(st, l1, State().OpenLine());
      case RAW(o) => var _ := Emit(Poke(o), args);
      case SET_HDLR => SetMLReg(EXN_HNDLR, args[0]);
      case SET_VAR => SetMLReg(VAR_PTR, args[0]);
    }

    /** The allocation pointer, or where it would be after an allocation that exceeds the slop. */
    method HeapTop(amt: nat) returns (top: Operand)
      requires Ready()
      modifies this
      ensures Ready()
      ensures var r := CodeBuilder.MlReg(target, old(State()).OpenLine(), ALLOC_PTR);
        var (l, o) :=
          if amt > target.allocSlopSzb
          then CodeBuilder.Emit(r.0, Pure(ADD_WORD), [r.1, Const(amt - target.allocSlopSzb)])
          else r;
        State() == old(State()).Put(l) && top == o
    {
      ghost var st := State();
      top := MlReg(ALLOC_PTR);
      if amt > target.allocSlopSzb {
        ghost var l := State().OpenLine();
        top := Emit(Pure(ADD_WORD), [top, Const(amt - target.allocSlopSzb)]);
        PutPut(st, l, State().OpenLine());
      }
    }

    method Test(op: BranchOp, args: seq<Operand>) returns (cond: Operand)
      requires Ready()
      modifies this
      ensures Ready()
      ensures var r := GenTest(target, old(State()).OpenLine(), op, args);
        State() == old(State()).Put(r.0) && cond == r.1
    {
      match op
      case COMPARE(o) => cond := Emit(Pure(o), args);
      case LIMIT(amt) =>
        hide CodeBuilder.Emit, CodeBuilder.MlReg;
        ghost var st := State();
        var top := HeapTop(amt);
        ghost var l2 := State().OpenLine();
        var lim := MlReg(LIMIT_PTR);
        ghost var l3 := State().OpenLine();
        PutPut(st, l2, l3);
        cond := Emit(UGreater, [top, lim]);
        PutPut(st, l3, State().OpenLine());
    }

    // ----- collections -----

    /** Machine registers come back in the leading fields of the structure a collection returns. */
    method RestoreRegs(call: Operand)
      requires Ready()
      modifies this, regState.val
      ensures Ready() && State() == old(State()).Put(GenGCRegs(target, old(State()).OpenLine(), call, NUM_REGS))
    {
      hide CodeBuilder.Emit, CodeBuilder.SetMLReg;
      ghost var st := State();
      PutPut(st, st.OpenLine(), st.OpenLine());
      var hwIx := 0;
      for i := 0 to NUM_REGS
        invariant Ready() && State() == st.Put(GenGCRegs(target, st.OpenLine(), call, i))
        invariant hwIx == |MachineRegsBelow(target, i)|
      {
        ghost var r: RegId := i;
        assert regInfo.info[r].id == r;
        if regInfo.info[i].IsMachineReg() {
          ghost var l := State().OpenLine();
          var reg := Emit(Extract(hwIx), [call]);
          ghost var l' := State().OpenLine();
          PutPut(st, l, l');
          SetMLReg(i, reg);
          PutPut(st, l', State().OpenLine());
          hwIx := hwIx + 1;
        }
      }
    }

    method BindRoots(call: Operand, newRoots: seq<LVar>)
      requires Ready()
      modifies this
      ensures Ready()
      ensures State() == old(State()).Put(GenGCRoots(target, old(State()).OpenLine(), call, newRoots, |newRoots|))
    {
      hide CodeBuilder.Emit;
      ghost var st := State();
      PutPut(st, st.OpenLine(), st.OpenLine());
      var ix := regInfo.nHWRegs;
      for i := 0 to |newRoots|
        invariant Ready() && State() == st.Put(GenGCRoots(target, st.OpenLine(), call, newRoots, i))
        invariant ix == |MachineRegs(target)| + i
      {
        ghost var l := State().OpenLine();
        var v := Emit(Extract(ix), [call]);
        PutPut(st, l, State().OpenLine());
        InsertVal(newRoots[i], v);
        ix := ix + 1;
      }
    }

    method CallGC(args: seq<Operand>, newRoots: seq<LVar>)
      requires Ready()
      modifies this, regState.val
      ensures Ready() && State() == old(State()).Put(GenCallGC(target, old(State()).OpenLine(), args, newRoots))
    {
      hide CodeBuilder.Emit, GenGCRegs, GenGCRoots;
      ghost var st := State();
      var fn := Emit(LoadSlot(target.callGCOffset), []);
      ghost var l1 := State().OpenLine();
      var call := Emit(Oper.CallGC, [fn] + args);
      ghost var l2 := State().OpenLine();
      PutPut(st, l1, l2);
      RestoreRegs(call);
      ghost var l3 := State().OpenLine();
      PutPut(st, l2, l3);
      BindRoots(call, newRoots);
      PutPut(st, l3, State().OpenLine());
    }

    // ----- the overflow block -----

    /** Gives a block n further phis without incoming values. */
    method CreatePhis(b: nat, n: nat)
      requires Valid() && b < |blocks|
      modifies this
      ensures Valid() && State() == old(State()).(next := next, blocks := blocks) && next == old(next) + n
      ensures blocks == old(blocks)[b := old(blocks)[b].(phis := old(blocks)[b].phis + NewPhis(old(next), n))]
    {
      assert blocks[b].phis == old(blocks)[b].phis + NewPhis(old(next), 0);
      for i := 0 to n
        invariant Valid() && State() == old(State()).(next := next, blocks := blocks) && next == old(next) + i
        invariant |blocks| == |old(blocks)|
        invariant blocks == old(blocks)[b := old(blocks)[b].(phis := old(blocks)[b].phis + NewPhis(old(next), i))]
      {
        blocks := blocks[b := blocks[b].(phis := blocks[b].phis + [Phi(next, [])])];
        next := next + 1;
        assert blocks[b].phis == old(blocks)[b].phis + NewPhis(old(next), i + 1);
      }
    }

    /** Calls the overflow handler and ends the block. */
    method Raise(args: seq<Operand>)
      requires Ready()
      modifies this
      ensures Ready() && next == old(next) + 2 && State() == old(State()).(next := next, blocks := blocks)
      ensures var fn := old(next);
        blocks == old(blocks)[cur := old(blocks)[cur].(term := Some(RetVoid),
          body := old(blocks)[cur].body
            + [Instr(fn, LoadSlot(target.raiseOvflwOffset), []), Instr(fn + 1, CallRaise, [Id(fn)] + args)])]
    {
      var raiseFn := Emit(LoadSlot(target.raiseOvflwOffset), []);
      var _ := Emit(CallRaise, [raiseFn] + args);
      Seal(RetVoid);
      assert blocks[cur].body == old(blocks)[cur].body
        + [Instr(old(next), LoadSlot(target.raiseOvflwOffset), []), Instr(old(next) + 1, CallRaise, [raiseFn] + args)];
    }

    method MakeOverflowBB()
      requires Ready() && ovf.None?
      modifies this
      ensures Ready() && State() == CodeBuilder.MakeOverflowBB(target, old(State()))
    {
      ghost var st := State();
      var srcBB := cur;
      var b := NewBB();
      SetInsertPoint(Some(b));
      CreatePhis(b, regInfo.nHWRegs);
      var phis := blocks[b].phis;
      var args := seq(|phis|, i requires 0 <= i < |phis| => Id(phis[i].dst));
      Raise(args);
      cur := srcBB;
      ovf := Some(b);
      OverflowCode(target, st.next, blocks[b], args);
      assert blocks == st.blocks + [blocks[b]];
    }

    method GetOverflowBB() returns (b: nat)
      requires Ready()
      modifies this
      ensures Ready() && (State(), b) == CodeBuilder.GetOverflowBB(target, old(State()))
    {
      if ovf.None? { MakeOverflowBB(); }
      ghost var st := State();
      b := ovf.value;
      ghost var args := CodeBuilder.CreateArgs(target, st.regs, STD_FUN);
      for i := 0 to regInfo.nHWRegs
        invariant Ready() && ovf == Some(b) && |blocks| == |st.blocks|
        invariant State() == st.(blocks := st.blocks[b := blocks[b]])
        invariant blocks[b] == st.blocks[b].(phis := AddToPhis(st.blocks[b].phis, st.cur, args[..i]))
      {
        AddIncoming(b, i, RegOperand(regState.val[regInfo.hwRegs[i].id]));
        assert blocks[b].phis == AddToPhis(st.blocks[b].phis, st.cur, args[..i + 1]);
      }
      assert args[..regInfo.nHWRegs] == args;
    }

    // ----- statements -----

    /** The straight-line code of a simple statement. */
    method Simple(s: Stm)
      requires Ready() && IsSimple(s)
      modifies this, regState.val
      ensures Ready() && State() == old(State()).Put(GenSimple(target, old(State()).OpenLine(), s))
    {
      match s
      case LET(e, x, _) =>
        var o := Exp(e);
        InsertVal(x, o);
      case ALLOC(op, args, x, _) => AllocStm(op, args, x);
      case ARITH(op, args, x, _) => PureArith(op.op, args, x);
      case SETTER(op, args, _) => SetterStm(op, args);
      case CALLGC(roots, xs, _) => CollectStm(roots, xs);
    }

    method AllocStm(op: AllocOp, args: seq<CFG.Exp>, x: LVar)
      requires Ready() && AllocArity(op, |args|)
      modifies this, regState.val
      ensures Ready()
      ensures var (l1, os) := GenExps(target, old(State()).OpenLine(), args);
        var (l2, o) := GenAlloc(target, l1, op, os);
        State() == old(State()).Put(Bind(l2, x, o))
    {
      hide GenExps, GenAlloc;
      ghost var st := State();
      var os := Exps(args);
      ghost var l1 := State().OpenLine();
      var o := Alloc(op, os);
      PutPut(st, l1, State().OpenLine());
      InsertVal(x, o);
    }

    method PureArith(op: nat, args: seq<CFG.Exp>, x: LVar)
      requires Ready()
      modifies this
      ensures Ready()
      ensures var (l1, os) := GenExps(target, old(State()).OpenLine(), args);
        var (l2, o) := CodeBuilder.Emit(l1, Pure(op), os);
        State() == old(State()).Put(Bind(l2, x, o))
    {
      hide GenExps, CodeBuilder.Emit;
      ghost var st := State();
      var os := Exps(args);
      ghost var l1 := State().OpenLine();
      var o := Emit(Pure(op), os);
      PutPut(st, l1, State().OpenLine());
      InsertVal(x, o);
    }

    method SetterStm(op: SetterOp, args: seq<CFG.Exp>)
      requires Ready() && SetterArity(op, |args|)
      modifies this, regState.val
      ensures Ready()
      ensures var (l1, os) := GenExps(target, old(State()).OpenLine(), args);
        State() == old(State()).Put(GenSetter(target, l1, op, os))
    {
      hide GenExps, GenSetter;
      ghost var st := State();
      var os := Exps(args);
      ghost var l1 := State().OpenLine();
      Setter(op, os);
      PutPut(st, l1, State().OpenLine());
    }

    method CollectStm(roots: seq<CFG.Exp>, xs: seq<LVar>)
      requires Ready()
      modifies this, regState.val
      ensures Ready()
      ensures var l := old(State()).OpenLine(); var (l1, os) := GenExps(target, l, roots);
        State() == old(State()).Put(GenCallGC(target, l1, CodeBuilder.CreateArgs(target, l.regs, STD_FUN) + os, xs))
    {
      hide GenExps, GenCallGC, CodeBuilder.CreateArgs;
      ghost var st := State();
      var args := CreateArgs(STD_FUN);
      var os := Exps(roots);
      ghost var l1 := State().OpenLine();
      CallGC(args + os, xs);
      PutPut(st, l1, State().OpenLine());
    }

    /** A tail call: the convention's arguments first, then the call's own. */
    method Call(fn: Exp, kind: FragKind, args: seq<CFG.Exp>)
      requires Ready()
      modifies this
      ensures Ready()
      ensures State()
        == CodeBuilder.Seal(old(State()).Put(GenCall(target, old(State()).OpenLine(), fn, kind, args)), RetVoid)
    {
      hide GenExp, GenExps, CodeBuilder.CreateArgs, CodeBuilder.Emit;
      ghost var st := State();
      var f := Exp(fn);
      ghost var l1 := State().OpenLine();
      var all := CreateArgs(kind);
      var os := Exps(args);
      ghost var l2 := State().OpenLine();
      PutPut(st, l1, l2);
      var _ := Emit(TailCall, [f] + (all + os));
      assert [f] + (all + os) == [f] + all + os;
      PutPut(st, l2, State().OpenLine());
      Seal(RetVoid);
    }

    /** The arguments of a jump become incoming values of the fragment's phis. (The original's access to the
        phi vector is unchecked; a well-scoped jump never exceeds it.) */
    method Goto(lab: LVar, args: seq<CFG.Exp>)
      requires Ready()
      modifies this
      ensures Ready() && State() == GenStm(target, clusters, old(State()), GOTO(lab, args))
    {
      hide GenExps, CodeBuilder.CreateArgs;
      ghost var st := State();
      var all := CreateArgs(INTERNAL);
      var os := Exps(args);
      all := all + os;
      if lab in frags {
        var b := frags[lab];
        if b < |blocks| { AddAllIncoming(b, all); }
        Seal(Br(b));
      }
    }

    method AddAllIncoming(b: nat, args: seq<Operand>)
      requires Ready() && b < |blocks|
      modifies this
      ensures Ready() && State() == CodeBuilder.AddIncoming(old(State()), b, args)
    {
      ghost var st := State();
      var n := if |args| < |blocks[b].phis| then |args| else |blocks[b].phis|;
      for i := 0 to n
        invariant Ready() && |blocks| == |st.blocks| && State() == st.(blocks := st.blocks[b := blocks[b]])
        invariant blocks[b] == st.blocks[b].(phis := AddToPhis(st.blocks[b].phis, st.cur, args[..i]))
      {
        AddIncoming(b, i, args[i]);
        assert blocks[b].phis == AddToPhis(st.blocks[b].phis, st.cur, args[..i + 1]);
      }
      assert AddToPhis(st.blocks[b].phis, st.cur, args[..n]) == AddToPhis(st.blocks[b].phis, st.cur, args);
    }

    /** A trapping operation, up to the fresh block in which its continuation goes. */
    method Trap(op: nat, args: seq<CFG.Exp>, x: LVar, ghost k: Stm)
      requires Ready()
      modifies this
      ensures Ready() && State() == TrapHead(target, old(State()), ARITH(TRAP(op), args, x, k))
    {
      hide GenExps, CodeBuilder.Emit, CodeBuilder.GetOverflowBB;
      ghost var st := State();
      var os := Exps(args);
      ghost var l1 := State().OpenLine();
      var pair := Emit(Oper.Arith(op), os);
      ghost var l2 := State().OpenLine();
      PutPut(st, l1, l2);
      var res := Emit(Extract(0), [pair]);
      ghost var l3 := State().OpenLine();
      PutPut(st, l2, l3);
      var obit := Emit(Extract(1), [pair]);
      ghost var l4 := State().OpenLine();
      PutPut(st, l3, l4);
      InsertVal(x, res);
      assert State() == st.Put(Bind(l4, x, res));
      Split(obit);
    }

    method Split(obit: Operand)
      requires Ready()
      modifies this
      ensures Ready() && State() == SplitOnTrap(target, old(State()), obit)
    {
      var ok := NewBB();
      var trap := GetOverflowBB();
      Seal(CondBr(obit, trap, ok));
      SetInsertPoint(Some(ok));
    }

    method Switch(s: Stm)
      requires Ready() && s.SWITCH?
      modifies this
      ensures Ready() && State() == SwitchHead(target, old(State()), s)
    {
      hide GenExp, CodeBuilder.Emit;
      ghost var st := State();
      var v := Exp(s.scrut);
      ghost var l1 := State().OpenLine();
      var arg := Emit(Trunc32, [v]);
      PutPut(st, l1, State().OpenLine());
      SwitchTo(arg, s.arms);
    }

    /** The switch and its unreachable default block. */
    method SwitchTo(arg: Operand, arms: seq<Arm>)
      requires Ready()
      modifies this
      ensures Ready() && State() == SealSwitch(old(State()), arg, arms)
    {
      ghost var st := State();
      var curBlk := cur;
      var dflt := NewBB();
      SetInsertPoint(Some(dflt));
      Seal(Unreachable);
      SetInsertPoint(Some(curBlk));
      assert blocks == st.blocks + [EMPTY_BLOCK.(term := Some(Unreachable))];
      var cases := [];
      for i := 0 to |arms|
        invariant cases == ArmBBs(arms)[..i]
      {
        cases := cases + [ArmBB(arms[i])];
      }
      assert cases == ArmBBs(arms);
      Seal(Term.Switch(arg, dflt, cases));
    }

    method Branch(s: Stm)
      requires Ready() && s.BRANCH?
      modifies this
      ensures Ready() && State() == BranchHead(target, old(State()), s)
    {
      hide GenExps, GenTest;
      ghost var st := State();
      var os := Exps(s.args);
      ghost var l1 := State().OpenLine();
      var cond := Test(s.test, os);
      PutPut(st, l1, State().OpenLine());
      Seal(CondBr(cond, ArmBB(s.onTrue), ArmBB(s.onFalse)));
    }

    method GenerateStm(s: Stm)
      requires Ready()
      modifies this, regState.val
      ensures Ready() && State() == GenStm(target, clusters, old(State()), s)
      decreases s, 1
    {
      ghost var st := State();
      if IsSimple(s) {
        GenStmSimple(target, clusters, st, s);
        hide GenStm, GenSimple;
        Simple(s);
        GenerateStm(Cont(s));
      } else {
        match s
        case APPLY(fn, args) => Call(fn, CalleeKind(clusters, fn), args);
        case THROW(fn, args) => Call(fn, STD_CONT, args);
        case GOTO(lab, args) => Goto(lab, args);
        case SWITCH(_, _) => SwitchStm(s);
        case BRANCH(_, _, _, _) => BranchStm(s);
        case ARITH(op, args, x, k) =>
          hide TrapHead;
          Trap(op.op, args, x, k);
          GenerateStm(k);
        case _ =>
      }
    }

    /** The registers are saved once, and each arm starts from them. */
    method SwitchStm(s: Stm)
      requires Ready() && s.SWITCH?
      modifies this, regState.val
      ensures Ready() && State() == GenStm(target, clusters, old(State()), s)
      decreases s, 0
    {
      SwitchUnfold(target, clusters, State(), s);
      hide GenStm, GenArms, SwitchHead;
      Switch(s);
      var saved := new CMRegState();
      saved.CopyFrom(regState);
      GenerateArms(s.arms, saved);
    }

    method GenerateArms(arms: seq<Arm>, saved: CMRegState)
      requires Ready() && saved.val.Length == NUM_REGS && saved.val != regState.val
      modifies this, regState.val
      ensures Ready() && State() == GenArms(target, clusters, old(State()), old(saved.val[..]), arms)
      decreases arms
    {
      hide GenStm, GenArms, CodeBuilder.SetInsertPoint;
      ghost var st := State();
      ghost var regs := saved.val[..];
      NoArmsYet(target, clusters, st, regs, arms);
      for i := 0 to |arms|
        invariant Ready() && saved.val[..] == regs
        invariant State() == GenArms(target, clusters, st, regs, arms[..i])
      {
        ghost var st1 := State();
        NextArmUnfold(target, clusters, st, regs, arms, i);
        regState.CopyFrom(saved);
        assert State() == st1.(regs := regs);
        SetInsertPoint(arms[i].bb);
        assert arms[i].body < arms[i];
        GenerateStm(arms[i].body);
      }
      assert arms[..|arms|] == arms;
    }

    method BranchStm(s: Stm)
      requires Ready() && s.BRANCH?
      modifies this, regState.val
      ensures Ready() && State() == GenStm(target, clusters, old(State()), s)
      decreases s, 0
    {
      GenStmBranch(target, clusters, State(), s);
      hide GenStm, BranchHead, CodeBuilder.SetInsertPoint;
      Branch(s);
      var saved := new CMRegState();
      saved.CopyFrom(regState);
      ghost var regs := saved.val[..];
      SetInsertPoint(s.onTrue.bb);
      GenerateStm(s.onTrue.body);
      ghost var st2 := State();
      regState.CopyFrom(saved);
      assert State() == st2.(regs := regs);
      SetInsertPoint(s.onFalse.bb);
      GenerateStm(s.onFalse.body);
    }

    // ----- block creation -----

    method InitStm(s: Stm) returns (s': Stm)
      requires Valid()
      modifies this
      ensures Valid()
      ensures var r := CodeBuilder.InitStm(|old(blocks)|, s);
        State() == old(State()).(blocks := old(blocks) + EmptyBlocks(r.0 - |old(blocks)|)) && s' == r.1
      decreases s, 1
    {
      match s
      case LET(e, x, k) => var k' := InitStm(k); s' := LET(e, x, k');
      case ALLOC(op, args, x, k) => var k' := InitStm(k); s' := ALLOC(op, args, x, k');
      case APPLY(_, _) => s' := s; NoBlocks(blocks);
      case THROW(_, _) => s' := s; NoBlocks(blocks);
      case GOTO(_, _) => s' := s; NoBlocks(blocks);
      case SWITCH(e, arms) => var arms' := InitArms(arms); s' := SWITCH(e, arms');
      case BRANCH(op, args, a, b) =>
        var a', b' := InitTwo(s, a, b);
        s' := BRANCH(op, args, a', b');
      case ARITH(op, args, x, k) => var k' := InitStm(k); s' := ARITH(op, args, x, k');
      case SETTER(op, args, k) => var k' := InitStm(k); s' := SETTER(op, args, k');
      case CALLGC(roots, xs, k) => var k' := InitStm(k); s' := CALLGC(roots, xs, k');
    }

    method InitTwo(ghost stm: Stm, a: Arm, b: Arm) returns (a': Arm, b': Arm)
      requires Valid() && stm.BRANCH? && a == stm.onTrue && b == stm.onFalse
      modifies this
      ensures Valid()
      ensures var n := |old(blocks)|; var (m, x) := CodeBuilder.InitStm(n + 1, a.body);
        var (m', y) := CodeBuilder.InitStm(m + 1, b.body);
        State() == old(State()).(blocks := old(blocks) + EmptyBlocks(m' - n)) && a' == Arm(Some(n), x)
          && b' == Arm(Some(m), y)
      decreases stm, 0
    {
      hide CodeBuilder.InitStm;
      ghost var bs := blocks;
      a' := InitArm(a);
      ghost var bs1 := blocks;
      b' := InitArm(b);
      MoreBlocks(bs, bs1, blocks, |bs1| - |bs|, |blocks| - |bs1|);
    }

    /** A statement that starts a block. */
    method InitArm(a: Arm) returns (a': Arm)
      requires Valid()
      modifies this
      ensures Valid()
      ensures var n := |old(blocks)|; var r := CodeBuilder.InitStm(n + 1, a.body);
        State() == old(State()).(blocks := old(blocks) + EmptyBlocks(r.0 - n)) && a' == Arm(Some(n), r.1)
      decreases a, 1
    {
      ghost var bs := blocks;
      var b := NewBB();
      ghost var bs1 := blocks;
      var body := InitStm(a.body);
      MoreBlocks(bs, bs1, blocks, 1, |blocks| - |bs1|);
      a' := Arm(Some(b), body);
    }

    method InitArms(arms: seq<Arm>) returns (arms': seq<Arm>)
      requires Valid()
      modifies this
      ensures Valid()
      ensures var r := CodeBuilder.InitArms(|old(blocks)|, arms);
        State() == old(State()).(blocks := old(blocks) + EmptyBlocks(r.0 - |old(blocks)|)) && arms' == r.1
      decreases arms
    {
      ghost var st := State();
      NoBlocks(blocks);
      arms' := [];
      for i := 0 to |arms|
        invariant Valid() && |arms'| == i
        invariant var r := CodeBuilder.InitArms(|st.blocks|, arms[..i]);
          State() == st.(blocks := st.blocks + EmptyBlocks(r.0 - |st.blocks|)) && arms' == r.1
      {
        ghost var bs := blocks;
        assert arms[..i + 1][..i] == arms[..i];
        var arm := InitArm(arms[i]);
        MoreBlocks(st.blocks, bs, blocks, |bs| - |st.blocks|, |blocks| - |bs|);
        arms' := arms' + [arm];
      }
      assert arms[..|arms|] == arms;
    }

    /** An internal fragment's block gets a phi for every machine register and every parameter. */
    method InitFrag(f: Frag) returns (f': Frag)
      requires Valid()
      modifies this
      ensures Valid() && (State(), f') == CodeBuilder.InitFrag(target, old(State()), f)
    {
      ghost var st := State();
      var b := |blocks|;
      if f.lab !in frags { frags := frags[f.lab := b]; }
      var body := InitArm(f.body);
      f' := f.(body := body);
      ghost var bs := blocks;
      if f.kind == INTERNAL { CreatePhis(b, regInfo.nHWRegs + |f.params|); }
      FragBlocks(target, st, f, bs, blocks);
    }

    // ----- fragments and clusters -----

    method GenerateFrag(f: Frag, isEntry: bool)
      requires Ready()
      modifies this, regState.val
      ensures Ready() && State() == GenFrag(target, clusters, old(State()), f, isEntry)
    {
      vMap := map[];
      SetInsertPoint(f.body.bb);
      if isEntry {
        SetupStdEntry(f);
      } else {
        var phis := blocks[cur].phis;
        if |phis| >= regInfo.nHWRegs + |f.params| { SetupFragEntry(f, phis); }
      }
      GenerateStm(f.body.body);
    }

    /** Starts a new function and creates the blocks of all fragments. */
    method CreateBlocks(cl: Cluster) returns (fs: seq<Frag>)
      requires Valid()
      modifies this
      ensures Valid() && ovf.None? && regState.val[..] == old(regState.val[..])
      ensures var r := InitFrags(target, InitialBuilder(), cl.frags);
        State() == r.0.(regs := regState.val[..], vMap := old(vMap)) && fs == r.1
    {
      hide CodeBuilder.InitFrag;
      blocks, next, cur, ovf, frags := [], 0, 0, None, map[];
      ghost var st := State();
      fs := [];
      for i := 0 to |cl.frags|
        invariant Valid() && |fs| == i && ovf.None? && regState.val[..] == st.regs
        invariant (State(), fs) == InitFrags(target, st, cl.frags[..i])
      {
        assert cl.frags[..i + 1][..i] == cl.frags[..i];
        InitFragOvf(target, State(), cl.frags[i]);
        var f := InitFrag(cl.frags[i]);
        fs := fs + [f];
      }
      assert cl.frags[..|cl.frags|] == cl.frags;
      InitFragsFrame(target, st, cl.frags);
    }

    /** Whatever cluster was generated before, this one's function is the same. */
    method GenerateCluster(cl: Cluster)
      requires Valid() && |cl.frags| > 0
      modifies this, regState.val
      ensures Valid() && State() == GenCluster(target, clusters, cl)
    {
      hide GenFrag, InitFrags;
      ghost var st0 := InitFrags(target, InitialBuilder(), cl.frags).0;
      var fs := CreateBlocks(cl);
      InitFragsStart(target, cl.frags);
      FirstFragFrame(target, clusters, st0, State(), fs[0]);
      GenerateFrag(fs[0], true);
      assert State() == GenFrags(target, clusters, st0, fs, 1);
      for i := 1 to |fs|
        invariant Ready() && State() == GenFrags(target, clusters, st0, fs, i)
      {
        GenerateFrag(fs[i], false);
      }
    }
  }

  lemma InitFragOvf(t: TargetInfo, st: Builder, f: Frag)
    requires |t.stkOffset| == NUM_REGS
    ensures InitFrag(t, st, f).0.ovf == st.ovf
  {}

  lemma {:induction false} InitFragsStart(t: TargetInfo, fs: seq<Frag>)
    requires |t.stkOffset| == NUM_REGS
    ensures var st := InitFrags(t, InitialBuilder(), fs).0; st.cur == 0 && st.ovf.None?
  {
    if fs != [] { InitFragsStart(t, fs[..|fs| - 1]); }
  }

  lemma SwitchUnfold(t: TargetInfo, clusters: map<LVar, FragKind>, st: Builder, s: Stm)
    requires s.SWITCH? && st.Ok() && |t.stkOffset| == NUM_REGS
    ensures GenStm(t, clusters, st, s) == GenArms(t, clusters, SwitchHead(t, st, s), st.regs, s.arms)
    ensures SwitchHead(t, st, s).regs == st.regs
  {}

  lemma NoArmsYet(t: TargetInfo, clusters: map<LVar, FragKind>, st: Builder, saved: seq<Option<Operand>>,
                  arms: seq<Arm>)
    requires st.Ok() && |t.stkOffset| == NUM_REGS && |saved| == NUM_REGS
    ensures GenArms(t, clusters, st, saved, arms[..0]) == st
  {}

  lemma NextArmUnfold(t: TargetInfo, clusters: map<LVar, FragKind>, st: Builder, saved: seq<Option<Operand>>,
                      arms: seq<Arm>, i: nat)
    requires st.Ok() && |t.stkOffset| == NUM_REGS && |saved| == NUM_REGS && i < |arms|
    ensures var st1 := GenArms(t, clusters, st, saved, arms[..i]);
      GenArms(t, clusters, st, saved, arms[..i + 1])
        == GenStm(t, clusters, CodeBuilder.SetInsertPoint(st1.(regs := saved), arms[i].bb), arms[i].body)
  {
    hide GenStm;
    assert arms[..i + 1][..i] == arms[..i];
  }

  lemma NoBlocks(bs: seq<Block>)
    ensures bs + EmptyBlocks(0) == bs
  {}

  lemma MoreBlocks(bs: seq<Block>, bs1: seq<Block>, bs2: seq<Block>, n: nat, k: nat)
    requires bs1 == bs + EmptyBlocks(n) || (n == 1 && bs1 == bs + [EMPTY_BLOCK])
    requires bs2 == bs1 + EmptyBlocks(k)
    ensures bs2 == bs + EmptyBlocks(n + k)
  {}

  lemma FragBlocks(t: TargetInfo, st: Builder, f: Frag, bs: seq<Block>, bs': seq<Block>)
    requires |t.stkOffset| == NUM_REGS
    requires var b := |st.blocks|; var n := CodeBuilder.InitStm(b + 1, f.body.body).0 - b;
      bs == st.blocks + EmptyBlocks(n)
    requires var b := |st.blocks|; var k := |MachineRegs(t)| + |f.params|;
      bs' == if f.kind == INTERNAL then bs[b := bs[b].(phis := bs[b].phis + NewPhis(st.next, k))] else bs
    ensures bs' == InitFrag(t, st, f).0.blocks
  {
    var b := |st.blocks|;
    var m := CodeBuilder.InitStm(b + 1, f.body.body).0;
    var n := if f.kind == INTERNAL then |MachineRegs(t)| + |f.params| else 0;
    var entry := EMPTY_BLOCK.(phis := seq(n, i requires 0 <= i < n => Phi(st.next + i, [])));
    assert InitFrag(t, st, f).0.blocks == st.blocks + [entry] + EmptyBlocks(m - b - 1);
    assert bs == st.blocks + [EMPTY_BLOCK] + EmptyBlocks(m - b - 1);
    assert bs'[b] == entry;
  }

  /** Block creation depends neither on the registers nor on the variables. */
  lemma {:induction false} InitFragsFrame(t: TargetInfo, st: Builder, fs: seq<Frag>)
    requires |t.stkOffset| == NUM_REGS && st == InitialBuilder().(regs := st.regs, vMap := st.vMap)
    ensures var (st0, fs0) := InitFrags(t, InitialBuilder(), fs);
      InitFrags(t, st, fs) == (st0.(regs := st.regs, vMap := st.vMap), fs0)
  {
    hide InitFrag;
    if fs != [] {
      var front := fs[..|fs| - 1];
      InitFragsFrame(t, st, front);
      InitFragFrame(t, InitFrags(t, InitialBuilder(), front).0, st.regs, st.vMap, fs[|fs| - 1]);
    }
  }

  lemma InitFragFrame(t: TargetInfo, st: Builder, regs: seq<Option<Operand>>, vMap: map<LVar, Operand>, f: Frag)
    requires |t.stkOffset| == NUM_REGS
    ensures var (st', f') := InitFrag(t, st, f);
      InitFrag(t, st.(regs := regs, vMap := vMap), f) == (st'.(regs := regs, vMap := vMap), f')
  {}

  /** The entry fragment sets up every register and forgets all variables. */
  lemma FirstFragFrame(t: TargetInfo, clusters: map<LVar, FragKind>, st0: Builder, st: Builder, f: Frag)
    requires |t.stkOffset| == NUM_REGS && st0.Ok() && st.Ok() && st == st0.(regs := st.regs, vMap := st.vMap)
    ensures GenFrag(t, clusters, st, f, true) == GenFrag(t, clusters, st0, f, true)
  {
    EntryRegsFrame(t, st.regs, st0.regs, NUM_REGS);
    assert StdEntryRegs(t, st.regs, NUM_REGS) == StdEntryRegs(t, st0.regs, NUM_REGS);
  }

  lemma {:induction false} EntryRegsFrame(t: TargetInfo, regs: seq<Option<Operand>>, regs': seq<Option<Operand>>,
                                          n: nat)
    requires |t.stkOffset| == NUM_REGS && |regs| == NUM_REGS && |regs'| == NUM_REGS && n <= NUM_REGS
    ensures StdEntryRegs(t, regs, n)[..n] == StdEntryRegs(t, regs', n)[..n]
  {
    if n > 0 { EntryRegsFrame(t, regs, regs', n - 1); }
  }

  function NewPhis(next: nat, n: nat): seq<Phi> { seq(n, i requires 0 <= i < n => Phi(next + i, [])) }

  lemma OverflowCode(t: TargetInfo, next: nat, blk: Block, args: seq<Operand>)
    requires |t.stkOffset| == NUM_REGS && blk.phis == [] + NewPhis(next, |MachineRegs(t)|) && blk.term == Some(RetVoid)
    requires args == seq(|blk.phis|, i requires 0 <= i < |blk.phis| => Id(blk.phis[i].dst))
    requires var fn := next + |MachineRegs(t)|;
      blk.body == [] + [Instr(fn, LoadSlot(t.raiseOvflwOffset), []), Instr(fn + 1, CallRaise, [Id(fn)] + args)]
    ensures blk == OverflowBlock(t, next)
  {
    var o := OverflowBlock(t, next);
    assert blk.phis == o.phis;
    assert args == seq(|MachineRegs(t)|, i requires 0 <= i < |MachineRegs(t)| => Id(next + i));
    assert blk.body[0] == o.body[0] && blk.body[1] == o.body[1];
    assert blk.body == o.body;
  }

  lemma PowerPositive(a: nat)
    requires IsPow2(a)
    ensures a > 0
  {}

  lemma SmallPowers()
    ensures IsPow2(4) && IsPow2(8)
  {
    assert IsPow2(1) && IsPow2(2);
  }

  lemma RoundsByMask(n: nat, a: nat)
    requires IsPow2(a)
    ensures (if And(n, a - 1) != 0 then AndNot(n + (a - 1), a - 1) else n) == RoundUp(n, a)
      == AndNot(n + (a - 1), a - 1)
  {
    MaskIsMod(n, a);
    MaskRounds(n, a);
    if n % a == 0 { MultipleStays(n, a); }
  }

  lemma MultipleStays(n: nat, a: nat)
    requires a > 0 && n % a == 0
    ensures RoundUp(n, a) == n
  {
    DivMod(n, a);
    DivModUnique(n + a - 1, a, n / a, a - 1);
    assert n / a * a == a * (n / a);
  }
}
