/** Reducing a failing pass pipeline. Runs of the compiler are answered by an oracle that may depend on how
    many runs there have been; runs that print the transformed program also yield one. */
module ReducePipeline {
  import opened Common
  import opened Pipeline

  /** Does run number n of the pipeline on the input fail as expected? */
  type Fails<!IR> = (nat, string, IR) -> bool

  /** Run number n of the pipeline on the input: did it exit normally, and what is now in the output file? */
  type Transforms<!IR> = (nat, string, IR) -> (bool, IR)

  ghost predicate Deterministic<IR(!new)>(fails: Fails<IR>) {
    forall i, j, s, ir :: fails(i, s, ir) == fails(j, s, ir)
  }

  /** The answers of a deterministic oracle. */
  predicate Reproduces<IR>(fails: Fails<IR>, p: Pipe, ir: IR) { fails(0, ToStr(p), ir) }

  function Cleaned(p: Pipe, keepEmpty: bool): Pipe { if keepEmpty then p else Pruned(p) }

  lemma CleanedFlat(p: Pipe, keepEmpty: bool)
    ensures Flatten(Cleaned(p, keepEmpty)) == Flatten(p)
  {
    PruneKeeps(p);
  }

  lemma CleanedKinded(p: Pipe, keepEmpty: bool)
    requires Kinded(p)
    ensures Kinded(Cleaned(p, keepEmpty))
  {
    KindsStay(p, 0);
  }

  /** Some run from t0 to t has failed as expected. */
  ghost predicate FailedIn<IR>(fails: Fails<IR>, p: Pipe, ir: IR, t0: nat, t: nat) {
    exists i :: t0 <= i < t && fails(i, ToStr(p), ir)
  }

  // ----- sublists -----

  /** Position i of s comes from position e[i] of t. */
  ghost predicate Embeds(s: seq<Item>, t: seq<Item>, e: seq<nat>) {
    && |e| == |s| && (forall i :: 0 <= i < |s| ==> e[i] < |t| && s[i] == t[e[i]])
    && forall i, j :: 0 <= i < j < |e| ==> e[i] < e[j]
  }

  /** s is t with some passes left out. */
  ghost predicate Sublist(s: seq<Item>, t: seq<Item>) { exists e :: Embeds(s, t, e) }

  lemma SliceSub(t: seq<Item>, lo: nat, hi: nat)
    requires lo <= hi <= |t|
    ensures Sublist(t[lo..hi], t)
  {
    assert Embeds(t[lo..hi], t, seq(hi - lo, i requires 0 <= i < hi - lo => lo + i));
  }

  lemma SelfSub(t: seq<Item>)
    ensures Sublist(t, t)
  {
    SliceSub(t, 0, |t|);
    assert t[0..|t|] == t;
  }

  lemma WithoutSub(t: seq<Item>, i: int)
    ensures Sublist(Without(t, i), t)
  {
    if 0 <= i < |t| {
      assert Embeds(Without(t, i), t, seq(|t| - 1, j requires 0 <= j < |t| - 1 => if j < i then j else j + 1));
    } else {
      SelfSub(t);
    }
  }

  lemma SubTrans(s: seq<Item>, t: seq<Item>, u: seq<Item>)
    requires Sublist(s, t) && Sublist(t, u)
    ensures Sublist(s, u)
  {
    var e :| Embeds(s, t, e);
    var f :| Embeds(t, u, f);
    assert Embeds(s, u, seq(|s|, i requires 0 <= i < |s| => f[e[i]]));
  }

  // ----- step 1: drop passes from the front -----

  /** The passes up to the one with index idx, and the others, without empty managers unless they are to be kept. */
  function HalfA(p: Pipe, idx: nat, keepEmpty: bool): Pipe { Cleaned(SplitFrom(p, idx, 0).0, keepEmpty) }

  function HalfB(p: Pipe, idx: nat, keepEmpty: bool): Pipe { Cleaned(SplitFrom(p, idx, 0).1, keepEmpty) }

  lemma HalvesFlat(p: Pipe, idx: nat, keepEmpty: bool)
    ensures Flatten(HalfA(p, idx, keepEmpty)) == Flatten(p)[..Min(idx + 1, |Flatten(p)|)]
    ensures Flatten(HalfB(p, idx, keepEmpty)) == Flatten(p)[Min(idx + 1, |Flatten(p)|)..]
  {
    SplitFromFlat(p, idx, 0);
    CleanedFlat(SplitFrom(p, idx, 0).0, keepEmpty);
    CleanedFlat(SplitFrom(p, idx, 0).1, keepEmpty);
    hide Flatten, SplitFrom, Pruned;
  }

  lemma HalvesKinded(p: Pipe, idx: nat, keepEmpty: bool)
    requires Kinded(p)
    ensures Kinded(HalfA(p, idx, keepEmpty)) && Kinded(HalfB(p, idx, keepEmpty))
  {
    KindsStay(p, idx);
    CleanedKinded(SplitFrom(p, idx, 0).0, keepEmpty);
    CleanedKinded(SplitFrom(p, idx, 0).1, keepEmpty);
  }

  method Halves(p: Pipe, idx: nat, keepEmpty: bool) returns (lstA: Pipe, lstB: Pipe)
    requires Kinded(p)
    ensures lstA == HalfA(p, idx, keepEmpty) && lstB == HalfB(p, idx, keepEmpty) && Kinded(lstA) && Kinded(lstB)
  {
    HalvesKinded(p, idx, keepEmpty);
    hide Flatten, Kinded, SplitFrom, Pruned;
    lstA, lstB := Split(p, idx);
    if !keepEmpty {
      lstA := Prune(lstA);
      lstB := Prune(lstB);
    }
  }

  /** What run t0 + idx makes of the input with the first half after index idx. */
  function Output<IR>(p: Pipe, input: IR, keepEmpty: bool, transforms: Transforms<IR>, t0: nat, idx: nat): (bool, IR) {
    transforms(t0 + idx, ToStr(HalfA(p, idx, keepEmpty)), input)
  }

  /** The first half exits normally and the second half fails as expected on what the first has made. */
  predicate SecondFails<IR>(p: Pipe, input: IR, keepEmpty: bool, fails: Fails<IR>, transforms: Transforms<IR>, t0: nat,
                            idx: nat) {
    && Output(p, input, keepEmpty, transforms, t0, idx).0
    && fails(t0 + idx, ToStr(HalfB(p, idx, keepEmpty)), Output(p, input, keepEmpty, transforms, t0, idx).1)
  }

  /** The split points before k all reproduced, and k did not or is past the last. */
  ghost predicate FrontTried<IR>(p: Pipe, input: IR, keepEmpty: bool, fails: Fails<IR>, transforms: Transforms<IR>,
                                 t0: nat, k: nat, t: nat) {
    && k <= |Flatten(p)|
    && (forall i :: 0 <= i < k ==> SecondFails(p, input, keepEmpty, fails, transforms, t0, i))
    && if k < |Flatten(p)| then !SecondFails(p, input, keepEmpty, fails, transforms, t0, k) && t == t0 + k + 1
       else t == t0 + k
  }

  /** After split points up to k have been tried, the second half of the last one
      that did is taken over with the file that its own run has written, unless it is empty or there is none. */
  ghost predicate FrontDropped<IR>(p: Pipe, input: IR, keepEmpty: bool, fails: Fails<IR>, transforms: Transforms<IR>,
                                   t0: nat, k: nat, lst: Pipe, ll: IR, t: nat) {
    && FrontTried(p, input, keepEmpty, fails, transforms, t0, k, t)
    && if k > 0 && HalfB(p, k - 1, keepEmpty) != []
       then lst == HalfB(p, k - 1, keepEmpty) && ll == Output(p, input, keepEmpty, transforms, t0, k - 1).1
       else lst == p && ll == input
  }

  /** Before run t, a part of p failed on ll, which the rest of p made from the input. */
  ghost predicate Found<IR>(fails: Fails<IR>, transforms: Transforms<IR>, p: Pipe, input: IR, t0: nat, t: nat,
                            lst: Pipe, ll: IR) {
    exists i, a: Pipe :: t0 <= i < t && fails(i, ToStr(lst), ll) && transforms(i, ToStr(a), input) == (true, ll)
      && Flatten(a) + Flatten(lst) == Flatten(p)
  }

  /** So what is taken over reproduces on what the passes before it have made. */
  lemma DroppedFound<IR>(p: Pipe, input: IR, keepEmpty: bool, fails: Fails<IR>, transforms: Transforms<IR>, t0: nat,
                         k: nat, lst: Pipe, ll: IR, t: nat)
    requires FrontDropped(p, input, keepEmpty, fails, transforms, t0, k, lst, ll, t)
    ensures (lst == p && ll == input) || Found(fails, transforms, p, input, t0, t, lst, ll)
    ensures Sublist(Flatten(lst), Flatten(p))
  {
    SelfSub(Flatten(p));
    hide ToStr, Flatten, Sublist, HalfA, HalfB;
    if k > 0 && HalfB(p, k - 1, keepEmpty) != [] {
      var a := HalfA(p, k - 1, keepEmpty);
      HalvesFlat(p, k - 1, keepEmpty);
      assert SecondFails(p, input, keepEmpty, fails, transforms, t0, k - 1);
      var i := t0 + k - 1;
      assert transforms(i, ToStr(a), input) == (true, ll) && Flatten(a) + Flatten(lst) == Flatten(p);
      SuffixSub(Flatten(a), Flatten(lst));
    }
  }

  lemma SuffixSub(s: seq<Item>, t: seq<Item>)
    ensures Sublist(t, s + t)
  {
    SliceSub(s + t, |s|, |s + t|);
    assert (s + t)[|s|..|s + t|] == t;
  }

  lemma OneRun<IR>(p: Pipe, input: IR, keepEmpty: bool, fails: Fails<IR>, transforms: Transforms<IR>, t0: nat, i: nat)
    ensures Output(p, input, keepEmpty, transforms, t0, i)
      == transforms(t0 + i, ToStr(HalfA(p, i, keepEmpty)), input)
    ensures SecondFails(p, input, keepEmpty, fails, transforms, t0, i) <==>
      && Output(p, input, keepEmpty, transforms, t0, i).0
      && fails(t0 + i, ToStr(HalfB(p, i, keepEmpty)), Output(p, input, keepEmpty, transforms, t0, i).1)
  {
    hide ToStr, HalfA, HalfB;
  }

  /** One run of both halves, the second on what the first has written. */
  method TrySplit<IR>(lst: Pipe, input: IR, keepEmpty: bool, fails: Fails<IR>, transforms: Transforms<IR>, t0: nat,
                      idx: nat)
    returns (ok: bool, lstB: Pipe, out: IR)
    requires Kinded(lst)
    ensures lstB == HalfB(lst, idx, keepEmpty) && Kinded(lstB)
    ensures out == Output(lst, input, keepEmpty, transforms, t0, idx).1
    ensures ok == SecondFails(lst, input, keepEmpty, fails, transforms, t0, idx)
  {
    hide Kinded, HalfA, HalfB, Output, SecondFails, ToStr;
    var lstA;
    lstA, lstB := Halves(lst, idx, keepEmpty);
    var strA := Print(lstA);
    var (okA, ll) := transforms(t0 + idx, strA.value, input);
    out := ll;
    var strB := Print(lstB);
    var failsB := fails(t0 + idx, strB.value, out);
    OneRun(lst, input, keepEmpty, fails, transforms, t0, idx);
    ok := okA && failsB;
  }

  /** Before split point idx: the second half of the last one and the file its run has written. */
  ghost predicate FrontLoop<IR>(p: Pipe, input: IR, keepEmpty: bool, fails: Fails<IR>, transforms: Transforms<IR>,
                                t0: nat, idx: nat, prevLstB: Option<Pipe>, prevFile: nat, files: map<nat, IR>) {
    && (forall i :: 0 <= i < idx ==> SecondFails(p, input, keepEmpty, fails, transforms, t0, i))
    && if idx == 0 then prevLstB.None?
       else
         && prevLstB == Some(HalfB(p, idx - 1, keepEmpty)) && prevFile == FileFor(idx - 1) && prevFile in files
         && files[prevFile] == Output(p, input, keepEmpty, transforms, t0, idx - 1).1
  }

  lemma FrontStart<IR>(p: Pipe, input: IR, keepEmpty: bool, fails: Fails<IR>, transforms: Transforms<IR>, t0: nat)
    ensures FrontLoop(p, input, keepEmpty, fails, transforms, t0, 0, None, 0, map[])
  {}

  /** The next file is the other one, so the last one stays; if the run reproduces it is the last one. */
  lemma FrontStep<IR>(p: Pipe, input: IR, keepEmpty: bool, fails: Fails<IR>, transforms: Transforms<IR>, t0: nat,
                      idx: nat, prevLstB: Option<Pipe>, prevFile: nat, files: map<nat, IR>)
    requires FrontLoop(p, input, keepEmpty, fails, transforms, t0, idx, prevLstB, prevFile, files)
    ensures var files' := files[FileFor(idx) := Output(p, input, keepEmpty, transforms, t0, idx).1];
      && FrontLoop(p, input, keepEmpty, fails, transforms, t0, idx, prevLstB, prevFile, files')
      && (SecondFails(p, input, keepEmpty, fails, transforms, t0, idx) ==>
            FrontLoop(p, input, keepEmpty, fails, transforms, t0, idx + 1, Some(HalfB(p, idx, keepEmpty)), FileFor(idx),
                      files'))
  {
    hide SecondFails, Output, HalfB;
  }

  lemma FrontEnd<IR>(p: Pipe, input: IR, keepEmpty: bool, fails: Fails<IR>, transforms: Transforms<IR>, t0: nat, k: nat,
                     t: nat, prevLstB: Option<Pipe>, prevFile: nat, files: map<nat, IR>)
    requires k <= |Flatten(p)| && FrontLoop(p, input, keepEmpty, fails, transforms, t0, k, prevLstB, prevFile, files)
    requires if k < |Flatten(p)| then !SecondFails(p, input, keepEmpty, fails, transforms, t0, k) && t == t0 + k + 1
      else t == t0 + k
    ensures prevLstB.Some? ==> prevFile in files
    ensures var taken := prevLstB.Some? && prevLstB.value != [];
      var (lst, ll) := if taken then (prevLstB.value, files[prevFile]) else (p, input);
      FrontDropped(p, input, keepEmpty, fails, transforms, t0, k, lst, ll, t)
  {
    hide SecondFails, Output, HalfB, Flatten;
  }

  function FileFor(idx: nat): nat { if idx % 2 != 0 then 0 else 1 }

  /** Tries ever longer prefixes in a separate run, whose output goes to one of two files in turn. The result
      reproduces on the file it names, which later runs have not overwritten. */
  method Step1<IR>(lst0: Pipe, input: IR, keepEmpty: bool, fails: Fails<IR>, transforms: Transforms<IR>, t0: nat)
    returns (lst: Pipe, ll: IR, t: nat)
    requires Kinded(lst0)
    ensures exists k: nat :: FrontDropped(lst0, input, keepEmpty, fails, transforms, t0, k, lst, ll, t)
    ensures t >= t0 && Kinded(lst)
    ensures (lst == lst0 && ll == input) || Found(fails, transforms, lst0, input, t0, t, lst, ll)
    ensures Sublist(Flatten(lst), Flatten(lst0))
  {
    lst, t := lst0, t0;
    var files: map<nat, IR> := map[];
    var prevLstB: Option<Pipe>, prevIntermediate: nat := None, 0;
    var n := Count(lst);
    ghost var k := 0;
    FrontStart(lst0, input, keepEmpty, fails, transforms, t0);
    hide *;
    for idx := 0 to n
      invariant lst == lst0 && k == idx && t == t0 + idx && (prevLstB.Some? ==> Kinded(prevLstB.value))
      invariant FrontLoop(lst0, input, keepEmpty, fails, transforms, t0, idx, prevLstB, prevIntermediate, files)
    {
      var intermediate := FileFor(idx);
      FrontStep(lst0, input, keepEmpty, fails, transforms, t0, idx, prevLstB, prevIntermediate, files);
      var ok, lstB, out := TrySplit(lst, input, keepEmpty, fails, transforms, t0, idx);
      files := files[intermediate := out];
      t := t + 1;
      if !ok { break; }
      prevLstB, prevIntermediate := Some(lstB), intermediate;
      k := k + 1;
    }
    FrontEnd(lst0, input, keepEmpty, fails, transforms, t0, k, t, prevLstB, prevIntermediate, files);
    ll := input;
    if prevLstB.Some? && prevLstB.value != [] {
      lst := prevLstB.value;
      ll := files[prevIntermediate];
    }
    DroppedFound(lst0, input, keepEmpty, fails, transforms, t0, k, lst, ll, t);
  }

  // ----- step 2: drop passes from the end -----

  /** The j-th run tries the passes up to the j-th last one. */
  predicate FirstFails<IR>(p: Pipe, input: IR, keepEmpty: bool, fails: Fails<IR>, t0: nat, j: nat)
    requires j < |Flatten(p)|
  {
    fails(t0 + j, ToStr(HalfA(p, |Flatten(p)| - 1 - j, keepEmpty)), input)
  }

  /** The first k runs all reproduced, and the next did not or there is none: the passes of the last run that did
      are taken over, unless they are none or there is no such run. */
  ghost predicate EndDropped<IR>(p: Pipe, input: IR, keepEmpty: bool, fails: Fails<IR>, t0: nat, k: nat, lst: Pipe,
                                 t: nat) {
    var n := |Flatten(p)|;
    && k <= n && (forall j :: 0 <= j < k ==> FirstFails(p, input, keepEmpty, fails, t0, j))
    && (if k < n then !FirstFails(p, input, keepEmpty, fails, t0, k) && t == t0 + k + 1 else t == t0 + k)
    && if k > 0 && HalfA(p, n - k, keepEmpty) != [] then lst == HalfA(p, n - k, keepEmpty) else lst == p
  }

  lemma FirstFailsIs<IR>(p: Pipe, input: IR, keepEmpty: bool, fails: Fails<IR>, t0: nat, n: nat, j: nat)
    requires j < n == |Flatten(p)|
    ensures FirstFails(p, input, keepEmpty, fails, t0, j) <==>
      fails(t0 + j, ToStr(HalfA(p, n - 1 - j, keepEmpty)), input)
  {
    hide ToStr, HalfA, Flatten;
  }

  lemma DroppedPrefix<IR>(p: Pipe, input: IR, keepEmpty: bool, fails: Fails<IR>, t0: nat, k: nat, lst: Pipe, t: nat)
    requires EndDropped(p, input, keepEmpty, fails, t0, k, lst, t)
    ensures lst == p || FailedIn(fails, lst, input, t0, t)
    ensures Flatten(lst) <= Flatten(p)
  {
    hide ToStr, Flatten, HalfA, HalfB, FirstFails;
    if lst != p {
      assert k > 0 && k <= |Flatten(p)| && t >= t0 + k && lst == HalfA(p, |Flatten(p)| - k, keepEmpty);
      assert FirstFails(p, input, keepEmpty, fails, t0, k - 1);
      hide *;
      LastFails(p, input, keepEmpty, fails, t0, k, lst, t);
    }
  }

  lemma LastFails<IR>(p: Pipe, input: IR, keepEmpty: bool, fails: Fails<IR>, t0: nat, k: nat, lst: Pipe, t: nat)
    requires 0 < k <= |Flatten(p)| && t >= t0 + k && lst == HalfA(p, |Flatten(p)| - k, keepEmpty)
    requires FirstFails(p, input, keepEmpty, fails, t0, k - 1)
    ensures FailedIn(fails, lst, input, t0, t)
    ensures Flatten(lst) <= Flatten(p)
  {
    hide ToStr, Flatten, HalfA, HalfB, FirstFails;
    HalvesFlat(p, |Flatten(p)| - k, keepEmpty);
    FirstFailsIs(p, input, keepEmpty, fails, t0, |Flatten(p)|, k - 1);
    var i := t0 + (k - 1);
    assert |Flatten(p)| - 1 - (k - 1) == |Flatten(p)| - k;
    assert t0 <= i < t && fails(i, ToStr(lst), input);
  }

  method Step2<IR>(lst0: Pipe, input: IR, keepEmpty: bool, fails: Fails<IR>, t0: nat) returns (lst: Pipe, t: nat)
    requires Kinded(lst0)
    ensures exists k: nat :: EndDropped(lst0, input, keepEmpty, fails, t0, k, lst, t)
    ensures t >= t0 && Kinded(lst)
    ensures lst == lst0 || FailedIn(fails, lst, input, t0, t)
    ensures Flatten(lst) <= Flatten(lst0)
  {
    lst, t := lst0, t0;
    var prevLstA: Option<Pipe> := None;
    var n := Count(lst);
    ghost var k := 0;
    hide Flatten, Kinded, HalfA, HalfB, ToStr, FirstFails;
    for idx := n downto 0
      invariant lst == lst0 && k == n - idx && t == t0 + k
      invariant forall j :: 0 <= j < k ==> FirstFails(lst0, input, keepEmpty, fails, t0, j)
      invariant prevLstA == if k == 0 then None else Some(HalfA(lst0, idx, keepEmpty))
      invariant prevLstA.Some? ==> Kinded(prevLstA.value)
    {
      var lstA, _ := Halves(lst, idx, keepEmpty);
      var strA := Print(lstA);
      var failsA := fails(t, strA.value, input);
      FirstFailsIs(lst0, input, keepEmpty, fails, t0, n, k);
      t := t + 1;
      if !failsA { break; }
      prevLstA := Some(lstA);
      k := k + 1;
    }
    if prevLstA.Some? && prevLstA.value != [] { lst := prevLstA.value; }
    assert EndDropped(lst0, input, keepEmpty, fails, t0, k, lst, t);
    DroppedPrefix(lst0, input, keepEmpty, fails, t0, k, lst, t);
  }

  // ----- step 3: drop single passes as long as possible -----

  function Candidate(p: Pipe, idx: nat, keepEmpty: bool): Pipe { Cleaned(Removed(p, idx), keepEmpty) }

  lemma CandidateFlat(p: Pipe, idx: nat, keepEmpty: bool)
    ensures Flatten(Candidate(p, idx, keepEmpty)) == Without(Flatten(p), idx)
  {
    RemoveFromFlat(p, idx, 0);
    CleanedFlat(Removed(p, idx), keepEmpty);
  }

  lemma CandidateKinded(p: Pipe, idx: nat, keepEmpty: bool)
    requires Kinded(p)
    ensures Kinded(Candidate(p, idx, keepEmpty))
  {
    KindsStay(p, idx);
    CleanedKinded(Removed(p, idx), keepEmpty);
  }

  /** No single pass can be left out. */
  ghost predicate OneMinimal<IR>(fails: Fails<IR>, p: Pipe, ir: IR, keepEmpty: bool) {
    forall idx :: 0 <= idx < |Flatten(p)| ==> !Reproduces(fails, Candidate(p, idx, keepEmpty), ir)
  }

  lemma WithoutSize(f: seq<Item>, i: nat)
    ensures |Without(f, i)| == if i < |f| then |f| - 1 else |f|
  {}

  /** The pipeline after the first n indices of a sweep: each removal is kept exactly if its run fails as expected. */
  function Swept<IR>(p: Pipe, input: IR, keepEmpty: bool, fails: Fails<IR>, t0: nat, n: nat): Pipe {
    if n == 0 then p
    else
      var before := Swept(p, input, keepEmpty, fails, t0, n - 1);
      if RemovalFails(before, input, keepEmpty, fails, t0, n - 1) then Candidate(before, n - 1, keepEmpty)
      else before
  }

  /** Without the pass with the given index, run t0 + idx fails as expected. */
  predicate RemovalFails<IR>(p: Pipe, input: IR, keepEmpty: bool, fails: Fails<IR>, t0: nat, idx: nat) {
    fails(t0 + idx, ToStr(Candidate(p, idx, keepEmpty)), input)
  }

  /** Runs from t0 on have tried to leave out every single pass, in vain. */
  ghost predicate AllNeeded<IR>(p: Pipe, input: IR, keepEmpty: bool, fails: Fails<IR>, t0: nat) {
    forall j :: 0 <= j < |Flatten(p)| ==> !RemovalFails(p, input, keepEmpty, fails, t0, j)
  }

  /** One sweep over the indices the pipeline has at its start; once a pass is gone, the last ones remove
      nothing. If anything was accepted, some pass is gone; otherwise nothing has changed and no removal was
      accepted. */
  method Sweep<IR>(lst0: Pipe, input: IR, keepEmpty: bool, fails: Fails<IR>, t0: nat)
    returns (lst: Pipe, keepGoing: bool, t: nat)
    requires Kinded(lst0)
    ensures t == t0 + |Flatten(lst0)| && Kinded(lst)
    ensures keepGoing ==> |Flatten(lst)| < |Flatten(lst0)| && FailedIn(fails, lst, input, t0, t)
    ensures !keepGoing ==> lst == lst0 && AllNeeded(lst0, input, keepEmpty, fails, t0)
    ensures Sublist(Flatten(lst), Flatten(lst0)) && lst == Swept(lst0, input, keepEmpty, fails, t0, |Flatten(lst0)|)
  {
    hide ToStr, Flatten, Sublist, Without, Removed, Pruned, Kinded;
    lst, keepGoing, t := lst0, false, t0;
    SelfSub(Flatten(lst0));
    ghost var i0: nat := 0;
    var n := Count(lst);
    for idx := 0 to n
      invariant t == t0 + idx && Kinded(lst) && Sublist(Flatten(lst), Flatten(lst0))
      invariant lst == Swept(lst0, input, keepEmpty, fails, t0, idx)
      invariant keepGoing ==> |Flatten(lst)| < n && t0 <= i0 < t && fails(i0, ToStr(lst), input)
      invariant !keepGoing ==>
        lst == lst0 && forall j :: 0 <= j < idx ==> !RemovalFails(lst0, input, keepEmpty, fails, t0, j)
    {
      var candLst := Remove(lst, idx);
      if !keepEmpty { candLst := Prune(candLst); }
      CandidateFlat(lst, idx, keepEmpty);
      CandidateKinded(lst, idx, keepEmpty);
      WithoutSize(Flatten(lst), idx);
      var str := Print(candLst);
      var failed := fails(t, str.value, input);
      t := t + 1;
      if failed {
        WithoutSub(Flatten(lst), idx);
        SubTrans(Flatten(candLst), Flatten(lst), Flatten(lst0));
        lst := candLst;
        keepGoing := true;
        i0 := t - 1;
      }
    }
  }

  /** Terminates for every oracle, with a last sweep that has tried every pass in vain; for a deterministic one
      the result is 1-minimal, and reproduces if the pipeline it starts from does. */
  method Step3<IR(!new)>(lst0: Pipe, input: IR, keepEmpty: bool, fails: Fails<IR>, t0: nat) returns (lst: Pipe, t: nat)
    requires Kinded(lst0)
    ensures Sublist(Flatten(lst), Flatten(lst0)) && t >= t0 && Kinded(lst)
    ensures lst == lst0 || FailedIn(fails, lst, input, t0, t)
    ensures t - |Flatten(lst)| >= t0 && AllNeeded(lst, input, keepEmpty, fails, t - |Flatten(lst)|)
    ensures Deterministic(fails) ==> OneMinimal(fails, lst, input, keepEmpty)
    ensures Deterministic(fails) && Reproduces(fails, lst0, input) ==> Reproduces(fails, lst, input)
  {
    lst, t := lst0, t0;
    SelfSub(Flatten(lst0));
    var keepGoing := true;
    while keepGoing
      invariant Sublist(Flatten(lst), Flatten(lst0)) && t >= t0 && Kinded(lst)
      invariant lst == lst0 || FailedIn(fails, lst, input, t0, t)
      invariant !keepGoing ==>
        t - |Flatten(lst)| >= t0 && AllNeeded(lst, input, keepEmpty, fails, t - |Flatten(lst)|)
      decreases |Flatten(lst)|, keepGoing
    {
      ghost var before := lst;
      lst, keepGoing, t := Sweep(lst, input, keepEmpty, fails, t);
      SubTrans(Flatten(lst), Flatten(before), Flatten(lst0));
    }
    if Deterministic(fails) {
      forall idx | 0 <= idx < |Flatten(lst)| ensures !Reproduces(fails, Candidate(lst, idx, keepEmpty), input) {
        assert !RemovalFails(lst, input, keepEmpty, fails, t - |Flatten(lst)|, idx);
      }
    }
  }

  // ----- the whole reduction -----

  /** What the first two steps have made of the pipeline and the input. */
  ghost predicate Narrowed<IR>(lst0: Pipe, input: IR, keepEmpty: bool, fails: Fails<IR>, transforms: Transforms<IR>,
                               lst: Pipe, ll: IR) {
    exists k1: nat, lst1, t1: nat, k2: nat, t2 ::
      && FrontDropped(lst0, input, keepEmpty, fails, transforms, 1, k1, lst1, ll, t1)
      && EndDropped(lst1, ll, keepEmpty, fails, t1, k2, lst, t2)
  }

  /** From a pipeline that fails as expected, a sublist of its passes, from which no single one can be left
      out, and an input on which it fails as expected; None if the pipeline cannot be printed or the failure is
      not confirmed. */
  method Reduce<IR(!new)>(lst0: Pipe, input: IR, keepEmpty: bool, fails: Fails<IR>, transforms: Transforms<IR>)
    returns (r: Option<(Pipe, IR)>)
    ensures r.None? <==> !Kinded(lst0) || !Reproduces(fails, lst0, input)
    ensures r.Some? ==> Kinded(r.value.0) && Sublist(Flatten(r.value.0), Flatten(lst0))
    ensures r.Some? ==> exists lst ::
      Narrowed(lst0, input, keepEmpty, fails, transforms, lst, r.value.1) && Sublist(Flatten(r.value.0), Flatten(lst))
    ensures r.Some? && Deterministic(fails) ==>
      Reproduces(fails, r.value.0, r.value.1) && OneMinimal(fails, r.value.0, r.value.1, keepEmpty)
  {
    var str := Print(lst0);
    if str.None? || !fails(0, str.value, input) { return None; }
    var lst1, ll, t1 := Step1(lst0, input, keepEmpty, fails, transforms, 1);
    var lst2, t2 := Step2(lst1, ll, keepEmpty, fails, t1);
    assert Narrowed(lst0, input, keepEmpty, fails, transforms, lst2, ll);
    hide Narrowed, FrontDropped, EndDropped;
    var lst3, t3 := Step3(lst2, ll, keepEmpty, fails, t2);
    SliceSub(Flatten(lst1), 0, |Flatten(lst2)|);
    assert Flatten(lst1)[0..|Flatten(lst2)|] == Flatten(lst2);
    SubTrans(Flatten(lst2), Flatten(lst1), Flatten(lst0));
    SubTrans(Flatten(lst3), Flatten(lst2), Flatten(lst0));
    r := Some((lst3, ll));
  }
}
