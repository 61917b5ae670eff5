/** A small target language in the manner of LLVM IR: a function is a list of basic blocks (a block's
    name is its index), each with phi nodes, straight-line instructions and one terminator. Phis take
    their values on the edge into the block. */
module TargetIR {
  import opened Common
  import opened CMRegisters

  /** Null is a missing operand (the source's null pointer); Undef is the undefined value. */
  datatype Operand = Null | Undef | Const(w: Word) | Label(lab: LVar) | Arg(ix: nat) | Id(id: nat)

  datatype Oper =
    | Pure(op: nat)          // a function of the operands
    | Look(op: nat)          // a function of the operands and the heap
    | Poke(op: nat)          // a heap update
    | Load
    | Store(szb: nat)
    | Gep(off: int)          // base plus a constant number of bytes
    | GepDyn(szb: nat)       // base plus a computed number of szb-byte elements
    | OrWord
    | UGreater
    | Trunc32
    | LoadSlot(off: int)     // load from the stack frame
    | StoreSlot(off: int)
    | Arith(op: nat)         // yields a pair: the result and an overflow bit
    | Extract(ix: nat)
    | CallGC
    | CallRaise
    | TailCall

  datatype Instr = Instr(dst: nat, op: Oper, args: seq<Operand>)
  datatype Phi = Phi(dst: nat, incoming: seq<(nat, Operand)>)
  datatype Term =
    | Br(dst: nat)
    | CondBr(cond: Operand, onTrue: nat, onFalse: nat)
    | Switch(scrut: Operand, dflt: nat, cases: seq<nat>)
    | RetVoid
    | Unreachable

  datatype Block = Block(phis: seq<Phi>, body: seq<Instr>, term: Option<Term>)

  /** SSA values: words, the structures returned by calls, and undefined values. */
  datatype Val = W(w: Word) | Agg(vs: seq<Word>) | Undefined

  datatype GCResult = GCResult(regs: seq<Word>, roots: seq<Word>, mem: Mem)

  /** The meaning of everything the generator treats as primitive. */
  datatype Prims = Prims(
    pure: (nat, seq<Word>) -> Word,
    look: (nat, seq<Word>, Mem) -> Word,
    poke: (nat, seq<Word>, Mem) -> Mem,
    load: (Word, Mem) -> Word,
    store: (nat, Word, Word, Mem) -> Mem,
    orWord: (Word, Word) -> Word,
    uGreater: (Word, Word) -> bool,
    arith: (nat, seq<Word>) -> (Word, bool),
    address: LVar -> Word,
    gc: (seq<Word>, seq<Word>, Mem) -> GCResult,
    callGC: Word,
    raiseOverflow: Word)

  /** A collection keeps the number of registers and of roots. */
  ghost predicate ValidPrims(p: Prims) {
    forall regs, roots, mem ::
      |p.gc(regs, roots, mem).regs| == |regs| && |p.gc(regs, roots, mem).roots| == |roots|
  }

  type Frame = map<int, Word>

  /** How control leaves a function. */
  datatype Exit =
    | TailCalled(fn: Val, args: seq<Val>, mem: Mem, frame: Frame)
    | Raised(fn: Val, args: seq<Val>, mem: Mem, frame: Frame)

  datatype Effect = Next(v: Val, mem: Mem, frame: Frame) | Leave(exit: Exit) | Bad

  predicate AllWords(vs: seq<Val>) { forall i :: 0 <= i < |vs| ==> vs[i].W? }

  function Words(vs: seq<Val>): (ws: seq<Word>)
    requires AllWords(vs)
    ensures |ws| == |vs|
  {
    seq(|vs|, i requires 0 <= i < |vs| => vs[i].w)
  }

  function Vals(ws: seq<Word>): (vs: seq<Val>)
    ensures AllWords(vs) && Words(vs) == ws
  {
    seq(|ws|, i requires 0 <= i < |ws| => W(ws[i]))
  }

  /** The CMachine registers as the collector finds them: machine registers among its leading
      arguments, the others in the frame. */
  function GatherRegs(t: TargetInfo, args: seq<Word>, frame: Frame): (regs: seq<Word>)
    requires |t.stkOffset| == NUM_REGS && |args| >= |MachineRegs(t)|
    requires forall r: RegId :: !t.IsMachineReg(r) ==> t.stkOffset[r] in frame
    ensures |regs| == NUM_REGS
  {
    seq(NUM_REGS, (r: int) requires 0 <= r < NUM_REGS =>
      if t.IsMachineReg(r) then (MachineIxIndexesTable(t, r); args[MachineIx(t, r)]) else frame[t.stkOffset[r]])
  }

  /** The words of a register file that travel in machine registers, in convention order. */
  function MachineWords(t: TargetInfo, regs: seq<Word>): (ws: seq<Word>)
    requires |t.stkOffset| == NUM_REGS && |regs| == NUM_REGS
    ensures |ws| == |MachineRegs(t)|
  {
    seq(|MachineRegs(t)|, k requires 0 <= k < |MachineRegs(t)| => regs[MachineRegs(t)[k]])
  }

  /** The frame after writing the stack registers below n. */
  function ScatterRegs(t: TargetInfo, regs: seq<Word>, frame: Frame, n: nat): Frame
    requires |t.stkOffset| == NUM_REGS && |regs| == NUM_REGS && n <= NUM_REGS
  {
    if n == 0 then frame
    else
      var f := ScatterRegs(t, regs, frame, n - 1);
      if t.IsMachineReg(n - 1) then f else f[t.stkOffset[n - 1] := regs[n - 1]]
  }

  function BoolWord(b: bool): Word { if b then 1 else 0 }

  /** One run of one function: its blocks, its actual arguments, and the world around it. */
  datatype Machine = Machine(prims: Prims, target: TargetInfo, blocks: seq<Block>, fargs: seq<Val>) {

    /** The value of an operand, if it has one. */
    function Ev(o: Operand, rho: map<nat, Val>): Option<Val> {
      match o
      case Null => None
      case Undef => Some(Undefined)
      case Const(w) => Some(W(w))
      case Label(l) => Some(W(prims.address(l)))
      case Arg(i) => if i < |fargs| then Some(fargs[i]) else None
      case Id(d) => if d in rho then Some(rho[d]) else None
    }

    function EvAll(os: seq<Operand>, rho: map<nat, Val>): (vs: Option<seq<Val>>)
      ensures vs.Some? ==> |vs.value| == |os| && forall i :: 0 <= i < |os| ==> Ev(os[i], rho) == Some(vs.value[i])
      ensures (forall i :: 0 <= i < |os| ==> Ev(os[i], rho).Some?) ==> vs.Some?
    {
      if forall i :: 0 <= i < |os| ==> Ev(os[i], rho).Some?
      then Some(seq(|os|, i requires 0 <= i < |os| => Ev(os[i], rho).value))
      else None
    }

    function CollectGarbage(ws: seq<Word>, mem: Mem, frame: Frame): Effect {
      if |target.stkOffset| == NUM_REGS && |ws| == 1 + |MachineRegs(target)| + target.NumGCRoots()
         && ws[0] == prims.callGC
         && (forall r: RegId :: !target.IsMachineReg(r) ==> target.stkOffset[r] in frame)
      then
        var res := prims.gc(GatherRegs(target, ws[1..], frame), ws[1 + |MachineRegs(target)|..], mem);
        if |res.regs| == NUM_REGS
        then Next(Agg(MachineWords(target, res.regs) + res.roots), res.mem,
                  ScatterRegs(target, res.regs, frame, NUM_REGS))
        else Bad
      else Bad
    }

    function ExecWords(op: Oper, ws: seq<Word>, mem: Mem, frame: Frame): Effect {
      match op
      case Pure(o) => Next(W(prims.pure(o, ws)), mem, frame)
      case Look(o) => Next(W(prims.look(o, ws, mem)), mem, frame)
      case Poke(o) => Next(Undefined, prims.poke(o, ws, mem), frame)
      case Load => if |ws| == 1 then Next(W(prims.load(ws[0], mem)), mem, frame) else Bad
      case Store(szb) => if |ws| == 2 then Next(Undefined, prims.store(szb, ws[0], ws[1], mem), frame) else Bad
      case Gep(off) => if |ws| == 1 then Next(W(ws[0] + off), mem, frame) else Bad
      case GepDyn(szb) => if |ws| == 2 then Next(W(ws[0] + szb * ws[1]), mem, frame) else Bad
      case OrWord => if |ws| == 2 then Next(W(prims.orWord(ws[0], ws[1])), mem, frame) else Bad
      case UGreater => if |ws| == 2 then Next(W(BoolWord(prims.uGreater(ws[0], ws[1]))), mem, frame) else Bad
      case Trunc32 => if |ws| == 1 then Next(W(ws[0] % 0x1_0000_0000), mem, frame) else Bad
      case LoadSlot(off) => if off in frame then Next(W(frame[off]), mem, frame) else Bad
      case StoreSlot(off) => if |ws| == 1 then Next(Undefined, mem, frame[off := ws[0]]) else Bad
      case Arith(o) => var r := prims.arith(o, ws); Next(Agg([r.0, BoolWord(r.1)]), mem, frame)
      case CallGC => CollectGarbage(ws, mem, frame)
      case _ => Bad
    }

    function Exec(op: Oper, vs: seq<Val>, mem: Mem, frame: Frame): Effect {
      match op
      case Extract(ix) =>
        if |vs| == 1 && vs[0].Agg? && ix < |vs[0].vs| then Next(W(vs[0].vs[ix]), mem, frame) else Bad
      case CallRaise => if |vs| > 0 then Leave(Raised(vs[0], vs[1..], mem, frame)) else Bad
      case TailCall => if |vs| > 0 then Leave(TailCalled(vs[0], vs[1..], mem, frame)) else Bad
      case _ => if AllWords(vs) then ExecWords(op, Words(vs), mem, frame) else Bad
    }

    /** The operand a phi takes when control comes from block pred. */
    static function Choose(incoming: seq<(nat, Operand)>, pred: nat): Operand {
      if incoming == [] then Null
      else if incoming[0].0 == pred then incoming[0].1
      else Choose(incoming[1..], pred)
    }

    /** All phis of a block read their operands before any of them is assigned. */
    function EvPhis(phis: seq<Phi>, pred: nat, rho: map<nat, Val>): Option<seq<Val>> {
      EvAll(seq(|phis|, i requires 0 <= i < |phis| => Choose(phis[i].incoming, pred)), rho)
    }

    static function Assign(phis: seq<Phi>, vs: seq<Val>, rho: map<nat, Val>): map<nat, Val>
      requires |phis| == |vs|
    {
      if phis == [] then rho
      else Assign(phis[..|phis| - 1], vs[..|vs| - 1], rho)[phis[|phis| - 1].dst := vs[|vs| - 1]]
    }

    function Enter(ts: TState, dst: nat): Result {
      if dst >= |blocks| then Wrong
      else match EvPhis(blocks[dst].phis, ts.block, ts.rho)
        case None => Wrong
        case Some(vs) => Running(ts.(block := dst, ix := 0, rho := Assign(blocks[dst].phis, vs, ts.rho)))
    }

    function StepTerm(ts: TState, term: Term): Result {
      match term
      case Br(dst) => Enter(ts, dst)
      case CondBr(c, bt, bf) =>
        (match Ev(c, ts.rho)
         case Some(W(w)) => Enter(ts, if w != 0 then bt else bf)
         case _ => Wrong)
      case Switch(v, dflt, cases) =>
        (match Ev(v, ts.rho)
         case Some(W(w)) => Enter(ts, if 0 <= w < |cases| then cases[w] else dflt)
         case _ => Wrong)
      case RetVoid => Wrong
      case Unreachable => Wrong
    }

    /** One instruction or one terminator. */
    function Step(ts: TState): Result {
      if ts.block >= |blocks| then Wrong
      else
        var b := blocks[ts.block];
        if ts.ix < |b.body| then
          match EvAll(b.body[ts.ix].args, ts.rho)
          case None => Wrong
          case Some(vs) =>
            (match Exec(b.body[ts.ix].op, vs, ts.mem, ts.frame)
             case Next(v, mem, frame) =>
               Running(TState(ts.block, ts.ix + 1, ts.rho[b.body[ts.ix].dst := v], mem, frame))
             case Leave(exit) => Exited(exit)
             case Bad => Wrong)
        else if ts.ix == |b.body| && b.term.Some? then StepTerm(ts, b.term.value)
        else Wrong
    }

    /** At most n steps. */
    function Steps(n: nat, ts: TState): Result
      decreases n
    {
      if n == 0 then Running(ts)
      else match Step(ts)
        case Running(ts') => Steps(n - 1, ts')
        case r => r
    }

    lemma {:induction false} StepsCompose(n: nat, m: nat, ts: TState)
      ensures Steps(n + m, ts) == match Steps(n, ts) case Running(ts') => Steps(m, ts') case r => r
      decreases n
    {
      if n > 0 {
        match Step(ts)
        case Running(ts') => StepsCompose(n - 1, m, ts');
        case _ =>
      }
    }
  }

  datatype TState = TState(block: nat, ix: nat, rho: map<nat, Val>, mem: Mem, frame: Frame)
  datatype Result = Running(state: TState) | Exited(exit: Exit) | Wrong
}
