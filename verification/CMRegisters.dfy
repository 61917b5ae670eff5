/** The CMachine registers: which of them live in machine registers, which in stack slots,
    and which position each machine register has in the "jump with arguments" convention. */
module CMRegisters {
  import opened Common

  const NUM_REGS: nat := 5

  type RegId = r: nat | r < NUM_REGS

  const ALLOC_PTR: RegId := 0
  const LIMIT_PTR: RegId := 1
  const STORE_PTR: RegId := 2
  const EXN_HNDLR: RegId := 3
  const VAR_PTR: RegId := 4

  /** A register with a nonzero stack offset lives in that slot of the frame. */
  datatype TargetInfo = TargetInfo(
    stkOffset: seq<int>,
    callGCOffset: int,
    raiseOvflwOffset: int,
    wordSzB: nat,
    numCalleeSaves: nat,
    allocSlopSzb: nat)
  {
    predicate IsMachineReg(r: RegId)
      requires |stkOffset| == NUM_REGS
    {
      stkOffset[r] == 0
    }

    /** std-link, std-clos, std-cont, std-arg and the callee saves. */
    function NumGCRoots(): nat { numCalleeSaves + 4 }
  }

  /** No two of the frame's slots coincide. */
  ghost predicate ValidTarget(t: TargetInfo) {
    && |t.stkOffset| == NUM_REGS
    && t.callGCOffset != t.raiseOvflwOffset
    && (forall r: RegId :: t.stkOffset[r] != 0 ==>
          t.stkOffset[r] != t.callGCOffset && t.stkOffset[r] != t.raiseOvflwOffset)
    && (forall r: RegId, q: RegId :: r != q && t.stkOffset[r] != 0 ==> t.stkOffset[r] != t.stkOffset[q])
  }

  /** The machine registers among the first n registers, in register order. */
  function MachineRegsBelow(t: TargetInfo, n: nat): (rs: seq<RegId>)
    requires |t.stkOffset| == NUM_REGS && n <= NUM_REGS
    ensures |rs| <= n
  {
    if n == 0 then []
    else MachineRegsBelow(t, n - 1) + if t.IsMachineReg(n - 1) then [n - 1] else []
  }

  function MachineRegs(t: TargetInfo): seq<RegId>
    requires |t.stkOffset| == NUM_REGS
  {
    MachineRegsBelow(t, NUM_REGS)
  }

  /** The convention's position of register r, counted in register order. */
  function MachineIx(t: TargetInfo, r: RegId): nat
    requires |t.stkOffset| == NUM_REGS
  {
    |MachineRegsBelow(t, r)|
  }

  lemma {:induction false} MachineRegsBelowPrefix(t: TargetInfo, m: nat, n: nat)
    requires |t.stkOffset| == NUM_REGS && m <= n <= NUM_REGS
    ensures MachineRegsBelow(t, m) <= MachineRegsBelow(t, n)
    decreases n
  {
    if m < n {
      MachineRegsBelowPrefix(t, m, n - 1);
    }
  }

  /** The two ways the generator finds a register's position agree: walking all registers while
      counting machine registers, and indexing the compacted table. */
  lemma MachineIxIndexesTable(t: TargetInfo, r: RegId)
    requires |t.stkOffset| == NUM_REGS
    requires t.IsMachineReg(r)
    ensures MachineIx(t, r) < |MachineRegs(t)| && MachineRegs(t)[MachineIx(t, r)] == r
  {
    MachineRegsBelowPrefix(t, r + 1, NUM_REGS);
    assert MachineRegsBelow(t, r + 1) == MachineRegsBelow(t, r) + [r];
  }

  lemma {:induction false} TableIsSound(t: TargetInfo, n: nat, k: nat)
    requires |t.stkOffset| == NUM_REGS && n <= NUM_REGS
    requires k < |MachineRegsBelow(t, n)|
    ensures var r := MachineRegsBelow(t, n)[k];
      r < n && t.IsMachineReg(r) && MachineIx(t, r) == k
  {
    if k < |MachineRegsBelow(t, n - 1)| {
      TableIsSound(t, n - 1, k);
    }
  }

  /** What one entry of the register table says about a register. */
  datatype CMRegInfo = CMRegInfo(id: RegId, idx: int, offset: int) {
    predicate IsMachineReg() { idx >= 0 }
  }

  /** The register table of one target. */
  class CMRegs {
    const info: array<CMRegInfo>
    const hwRegs: array<CMRegInfo>
    const nHWRegs: nat

    ghost predicate Describes(t: TargetInfo)
      reads info, hwRegs
    {
      && |t.stkOffset| == NUM_REGS
      && info.Length == NUM_REGS && hwRegs.Length == NUM_REGS
      && (forall r: RegId :: info[r].id == r && (info[r].IsMachineReg() <==> t.IsMachineReg(r)))
      && (forall r: RegId :: info[r].offset == t.stkOffset[r])
      && nHWRegs == |MachineRegs(t)|
      && (forall k :: 0 <= k < nHWRegs ==> hwRegs[k].id == MachineRegs(t)[k] && hwRegs[k].IsMachineReg())
    }

    constructor (t: TargetInfo)
      requires |t.stkOffset| == NUM_REGS
      ensures Describes(t) && fresh(info) && fresh(hwRegs)
    {
      var table := new CMRegInfo[NUM_REGS](_ => CMRegInfo(ALLOC_PTR, 0, 0));
      for i := 0 to NUM_REGS
        invariant forall r: RegId :: r < i ==> table[r].id == r
        invariant forall r: RegId :: r < i ==> (table[r].IsMachineReg() <==> t.IsMachineReg(r))
        invariant forall r: RegId :: r < i ==> table[r].offset == t.stkOffset[r]
      {
        table[i] := if t.stkOffset[i] != 0 then CMRegInfo(i, -1, t.stkOffset[i]) else CMRegInfo(i, i, 0);
      }
      var hw := new CMRegInfo[NUM_REGS](_ => CMRegInfo(ALLOC_PTR, 0, 0));
      var n := 0;
      ghost var described := table[..];
      for i := 0 to NUM_REGS
        invariant table[..] == described
        invariant n == |MachineRegsBelow(t, i)|
        invariant forall k :: 0 <= k < n ==> hw[k].id == MachineRegsBelow(t, i)[k] && hw[k].IsMachineReg()
      {
        var r: RegId := i;
        assert table[r] == described[r];
        if table[i].IsMachineReg() {
          hw[n] := table[i];
          n := n + 1;
        }
      }
      assert forall r: RegId :: table[r] == described[r];
      info, hwRegs, nHWRegs := table, hw, n;
    }
  }
}
