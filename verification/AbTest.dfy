/** Finding which files of a build can come from variant B: one at a time, or by bisection. The test is an
    oracle that may depend on how many tests there have been. */
module AbTest {
  import opened Common

  type Name = string
  type Choices<T> = seq<(Name, (T, T))>
  type Picks<T> = map<Name, T>
  type Test<!T> = (nat, Picks<T>) -> bool

  ghost predicate Deterministic<T(!new)>(test: Test<T>) { forall i, j, picks :: test(i, picks) == test(j, picks) }

  function Names<T>(choices: Choices<T>): seq<Name> { seq(|choices|, i requires 0 <= i < |choices| => choices[i].0) }

  function AllA<T>(choices: Choices<T>): Picks<T> {
    if choices == [] then map[]
    else AllA(choices[..|choices| - 1])[choices[|choices| - 1].0 := choices[|choices| - 1].1.0]
  }

  function ChoiceMap<T>(choices: Choices<T>): map<Name, (T, T)> {
    if choices == [] then map[]
    else ChoiceMap(choices[..|choices| - 1])[choices[|choices| - 1].0 := choices[|choices| - 1].1]
  }

  /** The picks with the named choices taken from B. */
  function WithB<T>(picks: Picks<T>, choiceMap: map<Name, (T, T)>, names: seq<Name>): Picks<T>
    requires forall x :: x in names ==> x in choiceMap
  {
    if names == [] then picks
    else
      var last := names[|names| - 1];
      WithB(picks, choiceMap, names[..|names| - 1])[last := choiceMap[last].1]
  }

  lemma {:induction false} ChoiceMapHas<T>(choices: Choices<T>)
    ensures forall x :: x in Names(choices) <==> x in ChoiceMap(choices)
    ensures forall i :: 0 <= i < |choices| ==>
      choices[i].0 in ChoiceMap(choices) && (NoDup(Names(choices)) ==> ChoiceMap(choices)[choices[i].0] == choices[i].1)
  {
    if choices != [] {
      var front, last := choices[..|choices| - 1], choices[|choices| - 1];
      ChoiceMapHas(front);
      assert Names(choices) == Names(front) + [last.0];
      if NoDup(Names(choices)) {
        forall i, j | 0 <= i < j < |front| ensures Names(front)[i] != Names(front)[j] {
          assert Names(choices)[i] != Names(choices)[j];
        }
        forall i | 0 <= i < |front| ensures choices[i].0 != last.0 {
          assert Names(choices)[i] != Names(choices)[|front|];
        }
      }
    }
  }

  /** Does the test pass with exactly the named choices from B? */
  predicate Passes<T>(test: Test<T>, choices: Choices<T>, names: seq<Name>)
    requires forall x :: x in names ==> x in ChoiceMap(choices)
  {
    test(0, WithB(AllA(choices), ChoiceMap(choices), names))
  }

  /** Parts of what passes pass. */
  ghost predicate Hereditary<T>(test: Test<T>, choices: Choices<T>) {
    forall p, q | (forall x :: x in p ==> x in ChoiceMap(choices)) && (forall x :: x in q ==> x in p) ::
      Passes(test, choices, p) ==> Passes(test, choices, q)
  }

  // ----- one at a time -----

  method AllFromA<T>(choices: Choices<T>) returns (picks: Picks<T>)
    ensures picks == AllA(choices)
  {
    picks := map[];
    for i := 0 to |choices|
      invariant picks == AllA(choices[..i])
    {
      assert choices[..i + 1][..i] == choices[..i];
      picks := picks[choices[i].0 := choices[i].1.0];
    }
    assert choices[..|choices|] == choices;
  }

  /** Good are exactly the names that pass alone. */
  method CheckSequentially<T(!new)>(choices: Choices<T>, test: Test<T>) returns (knownGood: set<Name>)
    requires NoDup(Names(choices))
    ensures Deterministic(test) ==>
      forall x :: x in knownGood <==> x in ChoiceMap(choices) && Passes(test, choices, [x])
  {
    var allA := AllFromA(choices);
    ChoiceMapHas(choices);
    knownGood := {};
    for i := 0 to |choices|
      invariant Deterministic(test) ==>
        forall x :: x in knownGood <==>
          x in Names(choices)[..i] && x in ChoiceMap(choices) && Passes(test, choices, [x])
    {
      var (name, ab) := choices[i];
      assert Names(choices)[..i + 1] == Names(choices)[..i] + [name];
      assert name == Names(choices)[i];
      assert WithB(allA, ChoiceMap(choices), [name]) == allA[name := ab.1] by { assert [name][..0] == []; }
      var picks := allA[name := ab.1];
      var res := test(i, picks);
      if res { knownGood := knownGood + {name}; }
    }
    assert Names(choices)[..|choices|] == Names(choices);
  }

  // ----- bisection -----

  /** What is still to be spent on partitions waiting to be split. */
  function Potential(queue: seq<seq<Name>>): int {
    if queue == [] then 0 else Potential(queue[..|queue| - 1]) + (|queue[|queue| - 1]| - 1) * 2
  }

  lemma {:induction false} PotentialFront(p: seq<Name>, queue: seq<seq<Name>>)
    ensures Potential([p] + queue) == Potential(queue) + (|p| - 1) * 2
  {
    if queue == [] {
      assert [p] + queue == [p] && [p][..0] == [];
    } else {
      assert ([p] + queue)[..|queue|] == [p] + queue[..|queue| - 1];
      PotentialFront(p, queue[..|queue| - 1]);
    }
  }

  /** Each announced number covers the tests made since and those still possible. */
  ghost predicate BoundsHold(bounds: seq<int>, remaining: int) {
    forall i :: 0 <= i < |bounds| ==> bounds[i] >= |bounds| - i + remaining
  }

  /** The search: partitions waiting to be split, names known to be good, numbers announced so far. */
  datatype Search = Search(queue: seq<seq<Name>>, good: set<Name>, bounds: seq<int>)

  /** Every name is good, or fails alone, or is still waiting; a good one is part of something that passes. */
  ghost predicate Covers<T>(test: Test<T>, choices: Choices<T>, s: Search, extra: seq<Name>) {
    && (forall p, x :: p in s.queue && x in p ==> x in ChoiceMap(choices))
    && (forall x :: x in ChoiceMap(choices) ==>
          x in s.good || !Passes(test, choices, [x]) || x in extra || exists p :: p in s.queue && x in p)
    && (forall x :: x in s.good ==> exists p :: GoodPart(test, choices, p, x))
  }

  ghost predicate GoodPart<T>(test: Test<T>, choices: Choices<T>, p: seq<Name>, x: Name) {
    x in p && (forall y :: y in p ==> y in ChoiceMap(choices)) && Passes(test, choices, p)
  }

  /** The names of a part that passes are good; one that fails is split. */
  ghost function TestedGood<T>(test: Test<T>, choices: Choices<T>, p: seq<Name>): set<Name>
    decreases |p|, 1
  {
    if PartPasses(test, choices, p) then set x | x in p
    else if |p| > 1 then SplitGood(test, choices, p)
    else {}
  }

  /** What is found by splitting a part that need not have been tested. */
  ghost function SplitGood<T>(test: Test<T>, choices: Choices<T>, p: seq<Name>): set<Name>
    decreases |p|, 0
  {
    if |p| > 1 then TestedGood(test, choices, p[..|p| / 2]) + TestedGood(test, choices, p[|p| / 2..])
    else if PartPasses(test, choices, p) then set x | x in p
    else {}
  }

  ghost predicate PartPasses<T>(test: Test<T>, choices: Choices<T>, p: seq<Name>) {
    (forall x :: x in p ==> x in ChoiceMap(choices)) && Passes(test, choices, p)
  }

  /** What will be found by splitting the waiting parts. */
  ghost function QueueGood<T>(test: Test<T>, choices: Choices<T>, queue: seq<seq<Name>>): set<Name> {
    if queue == [] then {}
    else QueueGood(test, choices, queue[..|queue| - 1]) + SplitGood(test, choices, queue[|queue| - 1])
  }

  lemma {:induction false} QueueGoodFront<T>(test: Test<T>, choices: Choices<T>, p: seq<Name>, queue: seq<seq<Name>>)
    ensures QueueGood(test, choices, [p] + queue) == SplitGood(test, choices, p) + QueueGood(test, choices, queue)
  {
    hide SplitGood;
    if queue == [] {
      assert [p] + queue == [p] && [p][..0] == [];
    } else {
      assert ([p] + queue)[..|queue|] == [p] + queue[..|queue| - 1];
      QueueGoodFront(test, choices, p, queue[..|queue| - 1]);
    }
  }

  /** What has been found and what the waiting parts will yield. */
  ghost function AllGood<T>(test: Test<T>, choices: Choices<T>, s: Search): set<Name> {
    s.good + QueueGood(test, choices, s.queue)
  }

  lemma TestedAll<T>(test: Test<T>, choices: Choices<T>, s: Search, s': Search, p: seq<Name>)
    requires s'.good == if PartPasses(test, choices, p) then s.good + (set x | x in p) else s.good
    requires s'.queue == if !PartPasses(test, choices, p) && |p| > 1 then [p] + s.queue else s.queue
    ensures AllGood(test, choices, s') == AllGood(test, choices, s) + TestedGood(test, choices, p)
  {
    QueueGoodFront(test, choices, p, s.queue);
    hide SplitGood, PartPasses, QueueGood;
  }

  /** A half of the whole, or a part of one. */
  ghost predicate IsPart(p: seq<Name>, whole: seq<Name>)
    decreases |whole|
  {
    if |whole| > 1 then
      var l, r := whole[..|whole| / 2], whole[|whole| / 2..];
      p == l || p == r || IsPart(p, l) || IsPart(p, r)
    else p == whole
  }

  /** Found is exactly what belongs to some part that passes, however the search goes about it. */
  lemma {:induction false} SplitFinds<T>(test: Test<T>, choices: Choices<T>, whole: seq<Name>, x: Name)
    ensures x in SplitGood(test, choices, whole) <==>
      exists p :: IsPart(p, whole) && x in p && PartPasses(test, choices, p)
    decreases |whole|
  {
    if |whole| > 1 {
      var l, r := whole[..|whole| / 2], whole[|whole| / 2..];
      SplitFinds(test, choices, l, x);
      SplitFinds(test, choices, r, x);
      PartsInside(l);
      PartsInside(r);
      assert IsPart(l, whole) && IsPart(r, whole);
      hide PartPasses;
      if p :| IsPart(p, whole) && x in p && PartPasses(test, choices, p) {
        assert p == l || p == r || IsPart(p, l) || IsPart(p, r);
      }
    }
  }

  lemma {:induction false} PartsInside(whole: seq<Name>)
    ensures forall p, x :: IsPart(p, whole) && x in p ==> x in whole
    decreases |whole|
  {
    if |whole| > 1 {
      PartsInside(whole[..|whole| / 2]);
      PartsInside(whole[|whole| / 2..]);
    }
  }

  /** Tests one part; a failing one of several names waits to be split. */
  method TestPartition<T(!new)>(choices: Choices<T>, test: Test<T>, s: Search, partition: seq<Name>,
                                upcoming: Option<seq<Name>>)
    returns (s': Search)
    requires partition != [] && (forall x :: x in partition ==> x in ChoiceMap(choices))
    requires upcoming.Some? ==> upcoming.value != []
    requires forall p :: p in s.queue ==> |p| > 1
    requires var after := if upcoming.Some? then |upcoming.value| * 2 - 1 else 0;
      BoundsHold(s.bounds, |partition| * 2 - 1 + after + Potential(s.queue))
    ensures forall p :: p in s'.queue ==> |p| > 1
    ensures s'.queue == s.queue
      || (s'.queue == [partition] + s.queue && Potential(s'.queue) == Potential(s.queue) + (|partition| - 1) * 2)
    ensures var after := if upcoming.Some? then |upcoming.value| * 2 - 1 else 0;
      |s'.bounds| == |s.bounds| + 1 && BoundsHold(s'.bounds, after + Potential(s'.queue))
    ensures var rest := if upcoming.Some? then upcoming.value else [];
      Deterministic(test) && Covers(test, choices, s, partition + rest) ==> Covers(test, choices, s', rest)
    ensures Deterministic(test) ==>
      AllGood(test, choices, s') == AllGood(test, choices, s) + TestedGood(test, choices, partition)
  {
    var maxRemainingSteps := RemainingSteps(partition, upcoming, s.queue);
    hide Potential, Covers, AllGood, TestedGood;
    var picks := PicksWith(choices, partition);
    var res := test(|s.bounds|, picks);
    s' := s.(bounds := s.bounds + [maxRemainingSteps]);
    if res {
      s' := s'.(good := s.good + (set x | x in partition));
    } else if |partition| > 1 {
      s' := s'.(queue := [partition] + s.queue);
    }
    PotentialFront(partition, s.queue);
    if Deterministic(test) {
      assert res == PartPasses(test, choices, partition);
      TestedAll(test, choices, s, s', partition);
    }
    hide PartPasses;
    if Deterministic(test) && Covers(test, choices, s, partition + (if upcoming.Some? then upcoming.value else [])) {
      assert res == Passes(test, choices, partition);
      Tested(test, choices, s, s', partition, if upcoming.Some? then upcoming.value else []);
    }
  }

  /** The greatest number of tests that may still be needed. */
  method RemainingSteps(partition: seq<Name>, upcoming: Option<seq<Name>>, queue: seq<seq<Name>>) returns (steps: int)
    ensures var after := if upcoming.Some? then |upcoming.value| * 2 - 1 else 0;
      steps == |partition| * 2 - 1 + after + Potential(queue)
  {
    steps := |partition| * 2 - 1;
    if upcoming.Some? { steps := steps + |upcoming.value| * 2 - 1; }
    ghost var start := steps;
    for i := 0 to |queue|
      invariant steps == start + Potential(queue[..i])
    {
      assert queue[..i + 1][..i] == queue[..i];
      steps := steps + (|queue[i]| - 1) * 2;
    }
    assert queue[..|queue|] == queue;
  }

  method PicksWith<T>(choices: Choices<T>, partition: seq<Name>) returns (picks: Picks<T>)
    requires forall x :: x in partition ==> x in ChoiceMap(choices)
    ensures picks == WithB(AllA(choices), ChoiceMap(choices), partition)
  {
    picks := AllFromA(choices);
    var choiceMap := ChoiceMap(choices);
    for i := 0 to |partition|
      invariant picks == WithB(AllA(choices), ChoiceMap(choices), partition[..i])
    {
      assert partition[..i + 1][..i] == partition[..i];
      picks := picks[partition[i] := choiceMap[partition[i]].1];
    }
    assert partition[..|partition|] == partition;
  }

  lemma Tested<T>(test: Test<T>, choices: Choices<T>, s: Search, s': Search, partition: seq<Name>, rest: seq<Name>)
    requires partition != [] && (forall x :: x in partition ==> x in ChoiceMap(choices))
    requires Covers(test, choices, s, partition + rest)
    requires s'.good == if Passes(test, choices, partition) then s.good + (set x | x in partition) else s.good
    requires s'.queue == if !Passes(test, choices, partition) && |partition| > 1 then [partition] + s.queue else s.queue
    ensures Covers(test, choices, s', rest)
  {
    hide WithB, AllA, ChoiceMap, Passes;
    assert forall p :: p in s.queue ==> p in s'.queue;
    forall x | x in ChoiceMap(choices)
      ensures x in s'.good || !Passes(test, choices, [x]) || x in rest || exists p :: p in s'.queue && x in p
    {
      if x in partition && x !in s'.good {
        if |partition| > 1 { assert partition in s'.queue; } else { assert partition == [x]; }
      }
    }
    forall x | x in s'.good ensures exists p :: GoodPart(test, choices, p, x) {
      if x !in s.good { assert GoodPart(test, choices, partition, x); }
    }
  }

  lemma {:induction false} PotentialPositive(queue: seq<seq<Name>>)
    requires forall p :: p in queue ==> |p| > 0
    ensures Potential(queue) >= 0
  {
    if queue != [] {
      assert queue[|queue| - 1] in queue;
      PotentialPositive(queue[..|queue| - 1]);
    }
  }

  lemma Popped<T>(test: Test<T>, choices: Choices<T>, s: Search)
    requires s.queue != [] && Covers(test, choices, s, [])
    ensures Covers(test, choices, s.(queue := s.queue[..|s.queue| - 1]), s.queue[|s.queue| - 1])
  {
    hide Passes, ChoiceMap;
    var front, last := s.queue[..|s.queue| - 1], s.queue[|s.queue| - 1];
    assert forall p :: p in s.queue <==> p in front || p == last;
  }

  lemma NoBounds(remaining: int)
    ensures BoundsHold([], remaining) && Potential([]) == 0
  {}

  lemma PotentialBack(queue: seq<seq<Name>>)
    requires queue != []
    ensures Potential(queue) == Potential(queue[..|queue| - 1]) + (|queue[|queue| - 1]| - 1) * 2
  {}

  /** Splits the part that has waited longest and tests both halves. */
  method SplitLast<T(!new)>(choices: Choices<T>, test: Test<T>, s: Search) returns (s': Search)
    requires s.queue != [] && (forall p :: p in s.queue ==> |p| > 0)
    requires forall p, x :: p in s.queue && x in p ==> x in ChoiceMap(choices)
    requires if s.bounds == [] then |s.queue| == 1
      else (forall p :: p in s.queue ==> |p| > 1) && BoundsHold(s.bounds, Potential(s.queue))
    ensures s'.bounds != [] && (forall p :: p in s'.queue ==> |p| > 1) && BoundsHold(s'.bounds, Potential(s'.queue))
    ensures forall p, x :: p in s'.queue && x in p ==> x in ChoiceMap(choices)
    ensures 0 <= Potential(s'.queue)
    ensures Potential(s'.queue) < Potential(s.queue) || (Potential(s'.queue) == Potential(s.queue) && s'.queue == [])
    ensures Deterministic(test) && Covers(test, choices, s, []) ==> Covers(test, choices, s', [])
    ensures Deterministic(test) ==> AllGood(test, choices, s') == AllGood(test, choices, s)
  {
    hide *;
    var partition := s.queue[|s.queue| - 1];
    assert partition in s.queue;
    if Deterministic(test) && Covers(test, choices, s, []) { Popped(test, choices, s); }
    PotentialBack(s.queue);
    PopGood(test, choices, s);
    NoBounds(1);
    s' := s.(queue := s.queue[..|s.queue| - 1]);
    PotentialPositive(s'.queue);
    if |partition| > 1 {
      if s.bounds == [] { NoBounds((|partition| - 1) * 2 + Potential(s'.queue)); }
      s' := TestHalves(choices, test, s', partition);
    } else {
      assert partition + [] == partition;
      s' := TestPartition(choices, test, s', partition, None);
    }
  }

  lemma PopGood<T>(test: Test<T>, choices: Choices<T>, s: Search)
    requires s.queue != []
    ensures var last := s.queue[|s.queue| - 1]; var rest := s.(queue := s.queue[..|s.queue| - 1]);
      && AllGood(test, choices, s) == AllGood(test, choices, rest) + SplitGood(test, choices, last)
      && (|last| <= 1 ==> TestedGood(test, choices, last) == SplitGood(test, choices, last))
  {}

  lemma HalvesGood<T>(test: Test<T>, choices: Choices<T>, p: seq<Name>)
    requires |p| > 1
    ensures SplitGood(test, choices, p)
      == TestedGood(test, choices, p[..|p| / 2]) + TestedGood(test, choices, p[|p| / 2..])
  {}

  method TestHalves<T(!new)>(choices: Choices<T>, test: Test<T>, s: Search, partition: seq<Name>) returns (s': Search)
    requires |partition| > 1 && (forall p :: p in s.queue ==> |p| > 1)
    requires forall x :: x in partition ==> x in ChoiceMap(choices)
    requires forall p, x :: p in s.queue && x in p ==> x in ChoiceMap(choices)
    requires BoundsHold(s.bounds, (|partition| - 1) * 2 + Potential(s.queue))
    ensures s'.bounds != [] && (forall p :: p in s'.queue ==> |p| > 1) && BoundsHold(s'.bounds, Potential(s'.queue))
    ensures forall p, x :: p in s'.queue && x in p ==> x in ChoiceMap(choices)
    ensures 0 <= Potential(s'.queue) < Potential(s.queue) + (|partition| - 1) * 2
    ensures Deterministic(test) && Covers(test, choices, s, partition) ==> Covers(test, choices, s', [])
    ensures Deterministic(test) ==>
      AllGood(test, choices, s') == AllGood(test, choices, s) + SplitGood(test, choices, partition)
  {
    hide *;
    var middle := |partition| / 2;
    var left, right := partition[..middle], partition[middle..];
    assert left + right == partition && right + [] == right;
    HalvesGood(test, choices, partition);
    s' := TestPartition(choices, test, s, left, Some(right));
    s' := TestPartition(choices, test, s', right, None);
    PotentialPositive(s'.queue);
  }

  lemma StartGood<T>(test: Test<T>, choices: Choices<T>, all: seq<Name>)
    ensures AllGood(test, choices, Search([all], {}, [])) == SplitGood(test, choices, all)
  {
    assert [all][..0] == [];
    hide SplitGood;
    assert QueueGood(test, choices, [all]) == {} + SplitGood(test, choices, all);
  }

  lemma NoneWaiting<T>(test: Test<T>, choices: Choices<T>, s: Search)
    requires s.queue == []
    ensures AllGood(test, choices, s) == s.good
  {}

  /** The good names are exactly those of the parts that pass. */
  ghost predicate PartsOf<T>(test: Test<T>, choices: Choices<T>, good: set<Name>) {
    forall x :: x in good <==> exists p :: IsPart(p, Names(choices)) && x in p && PartPasses(test, choices, p)
  }

  lemma PartsFound<T>(test: Test<T>, choices: Choices<T>)
    ensures PartsOf(test, choices, SplitGood(test, choices, Names(choices)))
  {
    hide *;
    var all, good := Names(choices), SplitGood(test, choices, Names(choices));
    forall x ensures x in good <==> exists p :: IsPart(p, all) && x in p && PartPasses(test, choices, p) {
      SplitFinds(test, choices, all, x);
    }
    MakeParts(test, choices, good);
  }

  lemma MakeParts<T>(test: Test<T>, choices: Choices<T>, good: set<Name>)
    requires forall x :: x in good <==> exists p :: IsPart(p, Names(choices)) && x in p && PartPasses(test, choices, p)
    ensures PartsOf(test, choices, good)
  {}

  lemma NothingToFind<T>(test: Test<T>, choices: Choices<T>)
    requires choices == []
    ensures SplitGood(test, choices, Names(choices)) == {} && PartsOf(test, choices, {})
  {
    PartsFound(test, choices);
    assert Names(choices) == [];
  }

  /** Every announced number bounds the tests from it to the end; every name that passes alone is found, and
      what is found is part of something that passes: exactly the names of those of its halves, their halves and so
      on that pass. */
  method CheckBisect<T(!new)>(choices: Choices<T>, test: Test<T>) returns (knownGood: set<Name>, ghost bounds: seq<int>)
    ensures forall i :: 0 <= i < |bounds| ==> bounds[i] >= |bounds| - i
    ensures Deterministic(test) ==> forall x :: x in ChoiceMap(choices) && Passes(test, choices, [x]) ==> x in knownGood
    ensures Deterministic(test) ==> forall x :: x in knownGood ==> exists p :: GoodPart(test, choices, p, x)
    ensures Deterministic(test) ==> knownGood == SplitGood(test, choices, Names(choices))
    ensures Deterministic(test) ==> PartsOf(test, choices, knownGood)
  {
    ChoiceMapHas(choices);
    if |choices| == 0 {
      NothingToFind(test, choices);
      return {}, [];
    }
    var all := Names(choices);
    hide AllGood, SplitGood, PartPasses, IsPart, PartsOf, Passes;
    StartGood(test, choices, all);
    var s := Search([all], {}, []);
    assert [all][..0] == [] && Potential([all]) == (|all| - 1) * 2;
    while |s.queue| > 0
      invariant s.bounds != [] ==> forall p :: p in s.queue ==> |p| > 1
      invariant s.bounds == [] ==> s.queue == [all]
      invariant s.bounds != [] ==> BoundsHold(s.bounds, Potential(s.queue))
      invariant Deterministic(test) ==> Covers(test, choices, s, [])
      invariant Deterministic(test) ==> AllGood(test, choices, s) == SplitGood(test, choices, all)
      invariant forall p, x :: p in s.queue && x in p ==> x in ChoiceMap(choices)
      invariant forall p :: p in s.queue ==> |p| > 0
      invariant Potential(s.queue) >= 0
      decreases Potential(s.queue), |s.queue|
    {
      s := SplitLast(choices, test, s);
    }
    knownGood, bounds := s.good, s.bounds;
    NoneWaiting(test, choices, s);
    PartsFound(test, choices);
  }

  /** For a deterministic test the sequential search finds nothing that bisection does not; where parts of
      what passes pass, the two agree. */
  lemma BisectionRefines<T>(test: Test<T>, choices: Choices<T>, one: set<Name>, bisected: set<Name>)
    requires forall x :: x in one <==> x in ChoiceMap(choices) && Passes(test, choices, [x])
    requires forall x :: x in ChoiceMap(choices) && Passes(test, choices, [x]) ==> x in bisected
    requires forall x :: x in bisected ==> exists p :: GoodPart(test, choices, p, x)
    ensures one <= bisected && (Hereditary(test, choices) ==> one == bisected)
  {
    if Hereditary(test, choices) {
      forall x | x in bisected ensures x in one {
        var p :| GoodPart(test, choices, p, x);
        assert Passes(test, choices, p);
        assert forall y :: y in [x] ==> y in p;
        assert Passes(test, choices, [x]);
      }
    }
  }

  /** Both searches on the same choices. */
  method CheckBoth<T(!new)>(choices: Choices<T>, test: Test<T>) returns (one: set<Name>, bisected: set<Name>)
    requires NoDup(Names(choices))
    ensures Deterministic(test) ==> one <= bisected && (Hereditary(test, choices) ==> one == bisected)
  {
    one := CheckSequentially(choices, test);
    ghost var bounds;
    bisected, bounds := CheckBisect(choices, test);
    if Deterministic(test) { BisectionRefines(test, choices, one, bisected); }
  }
}
