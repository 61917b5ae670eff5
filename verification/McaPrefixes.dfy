/** Which prefixes print a block, and the line-by-line merging of similar blocks. Prefixes are ordered by a
    list that holds all of them in ascending order. */
module McaPrefixes {
  import opened Common

  type Prefix = string

  /** The members of s in ascending order. */
  function Sorted(order: seq<Prefix>, s: set<Prefix>): seq<Prefix> {
    if order == [] then []
    else Sorted(order[..|order| - 1], s) + (if order[|order| - 1] in s then [order[|order| - 1]] else [])
  }

  lemma {:induction false} SortedHas(order: seq<Prefix>, s: set<Prefix>)
    ensures forall p :: p in Sorted(order, s) <==> p in order && p in s
    ensures NoDup(order) ==> NoDup(Sorted(order, s))
  {
    if order != [] {
      var front, last := order[..|order| - 1], order[|order| - 1];
      SortedHas(front, s);
      assert order == front + [last];
      if NoDup(order) {
        assert forall i :: 0 <= i < |front| ==> front[i] == order[i] != last;
        assert NoDup(front) by {
          forall i, j | 0 <= i < j < |front| ensures front[i] != front[j] { assert order[i] != order[j]; }
        }
        assert last !in Sorted(front, s);
      }
    }
  }

  /** p comes before q. */
  ghost predicate Before(order: seq<Prefix>, p: Prefix, q: Prefix) {
    exists i, j :: 0 <= i < j < |order| && order[i] == p && order[j] == q
  }

  ghost predicate Ascending(order: seq<Prefix>, ps: seq<Prefix>) {
    forall i, j :: 0 <= i < j < |ps| ==> Before(order, ps[i], ps[j])
  }

  lemma {:induction false} SortedAscending(order: seq<Prefix>, s: set<Prefix>)
    ensures Ascending(order, Sorted(order, s))
  {
    if order != [] {
      var front, last := order[..|order| - 1], order[|order| - 1];
      SortedAscending(front, s);
      SortedHas(front, s);
      var ps0, ps := Sorted(front, s), Sorted(order, s);
      forall i, j | 0 <= i < j < |ps| ensures Before(order, ps[i], ps[j]) {
        if j < |ps0| {
          assert Before(front, ps0[i], ps0[j]);
          var a, b :| 0 <= a < b < |front| && front[a] == ps0[i] && front[b] == ps0[j];
          assert order[a] == ps[i] && order[b] == ps[j];
        } else {
          assert ps0[i] in front;
          var a :| 0 <= a < |front| && front[a] == ps0[i];
          assert order[a] == ps[i] && order[|front|] == ps[j];
        }
      }
    }
  }

  /** p is the least member of s. */
  ghost predicate Least(order: seq<Prefix>, s: set<Prefix>, p: Prefix) {
    p in s && exists i :: 0 <= i < |order| && order[i] == p && forall j :: 0 <= j < i ==> order[j] !in s
  }

  lemma LeastUnique(order: seq<Prefix>, s: set<Prefix>, p: Prefix, q: Prefix)
    requires Least(order, s, p) && Least(order, s, q)
    ensures p == q
  {
    var i :| 0 <= i < |order| && order[i] == p && forall j :: 0 <= j < i ==> order[j] !in s;
    var j :| 0 <= j < |order| && order[j] == q && forall k :: 0 <= k < j ==> order[k] !in s;
  }

  lemma LeastOfMore(order: seq<Prefix>, s: set<Prefix>, p: Prefix)
    requires order != [] && Least(order[..|order| - 1], s, p)
    ensures Least(order, s, p)
  {
    var front := order[..|order| - 1];
    var i :| 0 <= i < |front| && front[i] == p && forall j :: 0 <= j < i ==> front[j] !in s;
    assert order[i] == p && forall j :: 0 <= j < i ==> order[j] == front[j];
  }

  lemma {:induction false} SortedFirst(order: seq<Prefix>, s: set<Prefix>)
    ensures Sorted(order, s) != [] ==> Least(order, s, Sorted(order, s)[0])
  {
    if Sorted(order, s) != [] {
      var front, last := order[..|order| - 1], order[|order| - 1];
      SortedHas(front, s);
      if Sorted(front, s) != [] {
        SortedFirst(front, s);
        LeastOfMore(order, s, Sorted(front, s)[0]);
      } else {
        assert order[|front|] == last && forall j :: 0 <= j < |front| ==> order[j] == front[j] && front[j] in front;
      }
    }
  }

  lemma SortedLeast(order: seq<Prefix>, s: set<Prefix>, p: Prefix)
    ensures Least(order, s, p) <==> Sorted(order, s) != [] && p == Sorted(order, s)[0]
  {
    SortedFirst(order, s);
    SortedHas(order, s);
    hide Sorted;
    if Least(order, s, p) {
      assert p in order;
      LeastUnique(order, s, p, Sorted(order, s)[0]);
    }
  }

  // ===== pruning =====

  /** A block of text and, for each run that printed it, the prefixes of that run. */
  datatype Text = Text(text: string, runs: seq<set<Prefix>>)

  /** The prefixes of runs that printed another text. */
  ghost function Others(block: seq<Text>, i: nat): set<Prefix> {
    set j, k, p | 0 <= j < |block| && j != i && 0 <= k < |block[j].runs| && p in block[j].runs[k] :: p
  }

  ghost function Pruned(block: seq<Text>, i: nat): seq<set<Prefix>>
    requires i < |block|
  {
    seq(|block[i].runs|, k requires 0 <= k < |block[i].runs| => block[i].runs[k] - Others(block, i))
  }

  function Shared(sets: seq<set<Prefix>>): set<Prefix>
    requires sets != []
  {
    if |sets| == 1 then sets[0] else Shared(sets[..|sets| - 1]) * sets[|sets| - 1]
  }

  lemma {:induction false} SharedIs(sets: seq<set<Prefix>>)
    requires sets != []
    ensures forall p :: p in Shared(sets) <==> forall k :: 0 <= k < |sets| ==> p in sets[k]
  {
    if |sets| > 1 { SharedIs(sets[..|sets| - 1]); }
  }

  /** The first prefix of each non-empty set. */
  function Firsts(order: seq<Prefix>, sets: seq<set<Prefix>>): set<Prefix> {
    if sets == [] then {}
    else
      var s := Sorted(order, sets[|sets| - 1]);
      Firsts(order, sets[..|sets| - 1]) + (if s == [] then {} else {s[0]})
  }

  function Chosen(order: seq<Prefix>, sets: seq<set<Prefix>>): set<Prefix>
    requires sets != []
  {
    if Shared(sets) != {} then Firsts(order, [Shared(sets)]) else Firsts(order, sets)
  }

  lemma {:induction false} FirstsAre(order: seq<Prefix>, sets: seq<set<Prefix>>)
    requires forall k, p :: 0 <= k < |sets| && p in sets[k] ==> p in order
    ensures forall p :: p in Firsts(order, sets) ==> exists k :: 0 <= k < |sets| && p in sets[k]
    ensures forall k :: 0 <= k < |sets| && sets[k] != {} ==> exists p :: p in Firsts(order, sets) && p in sets[k]
  {
    if sets != [] {
      var front, last := sets[..|sets| - 1], sets[|sets| - 1];
      FirstsAre(order, front);
      SortedHas(order, last);
      var s := Sorted(order, last);
      forall k | 0 <= k < |sets| && sets[k] != {} ensures exists p :: p in Firsts(order, sets) && p in sets[k] {
        if k < |front| {
          assert front[k] == sets[k];
          var p :| p in Firsts(order, front) && p in front[k];
        } else {
          var p :| p in last;
          assert p in s;
          assert s[0] in s;
        }
      }
      forall p | p in Firsts(order, sets) ensures exists k :: 0 <= k < |sets| && p in sets[k] {
        if p in Firsts(order, front) {
          var k :| 0 <= k < |front| && p in front[k];
          assert p in sets[k];
        } else {
          assert p == s[0] && p in s && p in sets[|front|];
        }
      }
    }
  }

  /** The prefixes that belong to all sets. */
  ghost function CommonTo(sets: seq<set<Prefix>>): set<Prefix>
    requires sets != []
  {
    set p | p in sets[0] && forall k :: 0 <= k < |sets| ==> p in sets[k]
  }

  /** If some prefix belongs to all sets, the least such is the one choice; otherwise the least members of the
      sets that have any are. */
  ghost predicate Fits(order: seq<Prefix>, sets: seq<set<Prefix>>, chosen: set<Prefix>)
    requires sets != []
  {
    if CommonTo(sets) != {} then exists p :: chosen == {p} && Least(order, CommonTo(sets), p)
    else forall p :: p in chosen <==> exists k :: 0 <= k < |sets| && Least(order, sets[k], p)
  }

  lemma {:induction false} FirstsLeast(order: seq<Prefix>, sets: seq<set<Prefix>>)
    ensures forall p :: p in Firsts(order, sets) <==> exists k :: 0 <= k < |sets| && Least(order, sets[k], p)
  {
    if sets != [] {
      var front, last := sets[..|sets| - 1], sets[|sets| - 1];
      FirstsLeast(order, front);
      hide Least, Sorted;
      forall p ensures p in Firsts(order, sets) <==> exists k :: 0 <= k < |sets| && Least(order, sets[k], p) {
        SortedLeast(order, last, p);
        if p in Firsts(order, front) {
          var k :| 0 <= k < |front| && Least(order, front[k], p);
          assert Least(order, sets[k], p);
        }
        if k :| 0 <= k < |sets| && Least(order, sets[k], p) && k < |front| {
          assert Least(order, front[k], p);
        }
      }
    }
  }

  lemma FirstsOne(order: seq<Prefix>, s: set<Prefix>)
    ensures Firsts(order, [s]) == if Sorted(order, s) == [] then {} else {Sorted(order, s)[0]}
  {
    assert [s][..0] == [];
  }

  /** Exactly one choice fits, and it is the one that is made. */
  lemma ChosenFits(order: seq<Prefix>, sets: seq<set<Prefix>>, chosen: set<Prefix>)
    requires sets != [] && forall k, p :: 0 <= k < |sets| && p in sets[k] ==> p in order
    ensures Fits(order, sets, chosen) <==> chosen == Chosen(order, sets)
  {
    SharedIs(sets);
    assert CommonTo(sets) == Shared(sets);
    if Shared(sets) == {} {
      FirstsLeast(order, sets);
      assert Fits(order, sets, Chosen(order, sets));
    } else {
      var c := Shared(sets);
      SortedHas(order, c);
      var q :| q in c;
      assert q in sets[0];
      assert q in Sorted(order, c);
      var least := Sorted(order, c)[0];
      assert Chosen(order, sets) == {least} by { FirstsOne(order, c); }
      SortedLeast(order, c, least);
      hide Sorted, Least;
      if Fits(order, sets, chosen) {
        var p :| chosen == {p} && Least(order, c, p);
        SortedLeast(order, c, p);
      }
    }
  }

  /** The prefixes chosen for a text belong to its pruned sets, and reach every run whose pruned set is not
      empty. */
  lemma ChosenAre(order: seq<Prefix>, sets: seq<set<Prefix>>)
    requires sets != [] && forall k, p :: 0 <= k < |sets| && p in sets[k] ==> p in order
    ensures forall p :: p in Chosen(order, sets) ==> exists k :: 0 <= k < |sets| && p in sets[k]
    ensures forall k :: 0 <= k < |sets| && sets[k] != {} ==> exists p :: p in Chosen(order, sets) && p in sets[k]
  {
    SharedIs(sets);
    if Shared(sets) == {} {
      FirstsAre(order, sets);
    } else {
      var c := [Shared(sets)];
      assert forall p :: p in c[0] ==> p in sets[0];
      FirstsAre(order, c);
      assert c[0] != {};
      var q :| q in Firsts(order, c) && q in c[0];
      forall k | 0 <= k < |sets| ensures q in Chosen(order, sets) && q in sets[k] {}
      forall p | p in Chosen(order, sets) ensures exists k :: 0 <= k < |sets| && p in sets[k] {
        assert p in c[0];
        assert p in sets[0];
      }
    }
  }

  /** What pruning makes of a block: the texts with the prefixes chosen for them. */
  ghost predicate PrunedTo(order: seq<Prefix>, block: seq<Text>, out: seq<(string, seq<Prefix>)>)
    requires forall i :: 0 <= i < |block| ==> block[i].runs != []
  {
    |out| == |block|
      && forall i :: 0 <= i < |block| ==> out[i] == (block[i].text, Sorted(order, Chosen(order, Pruned(block, i))))
  }

  ghost predicate KnownPrefixes(order: seq<Prefix>, block: seq<Text>) {
    && NoDup(order)
    && (forall i :: 0 <= i < |block| ==> block[i].runs != [])
    && forall i, k, p :: 0 <= i < |block| && 0 <= k < |block[i].runs| && p in block[i].runs[k] ==> p in order
  }

  /** Pruning leaves no prefix to any run that printed the text. */
  ghost predicate Uncaptured(block: seq<Text>, i: nat)
    requires i < |block|
  {
    block[i].text != "" && forall k :: 0 <= k < |block[i].runs| ==> Pruned(block, i)[k] == {}
  }

  /** Nothing is chosen for a text exactly if no prefix is left to any of its runs. */
  lemma NoneChosen(order: seq<Prefix>, block: seq<Text>, i: nat)
    requires KnownPrefixes(order, block) && i < |block|
    ensures Uncaptured(block, i) <==> block[i].text != "" && Chosen(order, Pruned(block, i)) == {}
  {
    var sets := Pruned(block, i);
    ChosenAre(order, sets);
    if Chosen(order, sets) != {} {
      var p :| p in Chosen(order, sets);
      var k :| 0 <= k < |sets| && p in sets[k];
    }
  }

  /** What pruning owes: for every text, in ascending order, the prefixes that fit its pruned sets. */
  ghost predicate WellChosen(order: seq<Prefix>, block: seq<Text>, out: seq<(string, seq<Prefix>)>)
    requires forall i :: 0 <= i < |block| ==> block[i].runs != []
  {
    && |out| == |block|
    && forall i :: 0 <= i < |block| ==>
         && out[i].0 == block[i].text && Ascending(order, out[i].1) && NoDup(out[i].1)
         && Fits(order, Pruned(block, i), set p | p in out[i].1)
  }

  lemma PrunedWell(order: seq<Prefix>, block: seq<Text>, out: seq<(string, seq<Prefix>)>)
    requires KnownPrefixes(order, block) && PrunedTo(order, block, out)
    ensures WellChosen(order, block, out)
  {
    hide Sorted, Chosen, Ascending, Fits;
    forall i | 0 <= i < |block|
      ensures Ascending(order, out[i].1) && NoDup(out[i].1) && Fits(order, Pruned(block, i), set p | p in out[i].1)
    {
      var sets := Pruned(block, i);
      ChosenFits(order, sets, Chosen(order, sets));
      ChosenAre(order, sets);
      SortedHas(order, Chosen(order, sets));
      SortedAscending(order, Chosen(order, sets));
      assert (set p | p in out[i].1) == Chosen(order, sets);
    }
  }

  /** None stands for the error that a text is not captured by any prefix. */
  method PrunePrefixes(order: seq<Prefix>, block: seq<Text>) returns (r: Option<seq<(string, seq<Prefix>)>>)
    requires KnownPrefixes(order, block)
    ensures r.None? <==> exists i :: 0 <= i < |block| && Uncaptured(block, i)
    ensures r.Some? ==> PrunedTo(order, block, r.value) && WellChosen(order, block, r.value)
  {
    var prunedSets: seq<seq<set<Prefix>>> := [];
    for i := 0 to |block|
      invariant |prunedSets| == i && forall j :: 0 <= j < i ==> prunedSets[j] == Pruned(block, j)
    {
      var sets := PruneRuns(block, i);
      prunedSets := prunedSets + [sets];
    }
    hide Chosen, Sorted, Pruned, Uncaptured, WellChosen;
    var out: seq<(string, seq<Prefix>)> := [];
    for i := 0 to |block|
      invariant |out| == i
      invariant forall j :: 0 <= j < i ==> out[j] == (block[j].text, Sorted(order, Chosen(order, Pruned(block, j))))
      invariant forall j :: 0 <= j < i ==> !Uncaptured(block, j)
    {
      var current := CurrentSet(order, prunedSets[i]);
      NoneChosen(order, block, i);
      if block[i].text != "" && current == {} { return None; }
      out := out + [(block[i].text, Sorted(order, current))];
    }
    PrunedWell(order, block, out);
    r := Some(out);
  }

  method PruneRuns(block: seq<Text>, i: nat) returns (sets: seq<set<Prefix>>)
    requires i < |block|
    ensures sets == Pruned(block, i) && |sets| == |block[i].runs|
  {
    var others := OtherPrefixes(block, i);
    sets := [];
    for k := 0 to |block[i].runs|
      invariant sets == Pruned(block, i)[..k]
    {
      sets := sets + [block[i].runs[k] - others];
    }
  }

  method OtherPrefixes(block: seq<Text>, i: nat) returns (others: set<Prefix>)
    ensures others == Others(block, i)
  {
    others := {};
    for j := 0 to |block|
      invariant others == set jj, k, p | 0 <= jj < j && jj != i && 0 <= k < |block[jj].runs|
        && p in block[jj].runs[k] :: p
    {
      if j != i {
        var runs := block[j].runs;
        ghost var before := others;
        for k := 0 to |runs|
          invariant others == before + set kk, p | 0 <= kk < k && p in runs[kk] :: p
        {
          others := others + runs[k];
        }
      }
    }
  }

  method CurrentSet(order: seq<Prefix>, sets: seq<set<Prefix>>) returns (current: set<Prefix>)
    requires sets != []
    ensures current == Chosen(order, sets)
  {
    var common := sets[0];
    for k := 1 to |sets|
      invariant common == Shared(sets[..k])
    {
      assert sets[..k + 1][..k] == sets[..k];
      common := common * sets[k];
    }
    assert sets[..|sets|] == sets;
    var chosen := if common != {} then [common] else sets;
    current := {};
    for k := 0 to |chosen|
      invariant current == Firsts(order, chosen[..k])
    {
      assert chosen[..k + 1][..k] == chosen[..k];
      var s := Sorted(order, chosen[k]);
      if s != [] { current := current + {s[0]}; }
    }
    assert chosen[..|chosen|] == chosen;
  }

  /** After pruning no prefix prints two texts; no run reads another run's text; and a run reads its own text
      exactly if pruning has left it a prefix. */
  lemma ReadersSeparate(order: seq<Prefix>, block: seq<Text>, out: seq<(string, seq<Prefix>)>, i: nat, k: nat)
    requires KnownPrefixes(order, block) && PrunedTo(order, block, out) && i < |block| && k < |block[i].runs|
    ensures NoDup(out[i].1)
    ensures forall j, p :: 0 <= j < |block| && j != i && p in out[j].1 ==> p !in block[i].runs[k] && p !in out[i].1
    ensures (exists p :: p in out[i].1 && p in block[i].runs[k]) <==> Pruned(block, i)[k] != {}
  {
    forall j | 0 <= j < |block|
      ensures forall p :: p in out[j].1 ==>
        p !in Others(block, j) && exists n :: 0 <= n < |block[j].runs| && p in block[j].runs[n]
    {
      ChosenIn(order, block, out, j);
    }
    SortedHas(order, Chosen(order, Pruned(block, i)));
    ChosenAre(order, Pruned(block, i));
    forall j, p | 0 <= j < |block| && j != i && p in out[j].1 ensures p !in block[i].runs[k] && p !in out[i].1 {
      var n :| 0 <= n < |block[j].runs| && p in block[j].runs[n];
      assert p in Others(block, i);
      RunsAreOthers(block, i, k, j);
    }
    if Pruned(block, i)[k] != {} {
      var p :| p in Chosen(order, Pruned(block, i)) && p in Pruned(block, i)[k];
      assert p in block[i].runs[k] && p in order;
      assert p in out[i].1;
    }
    if p :| p in out[i].1 && p in block[i].runs[k] {
      assert p in Pruned(block, i)[k];
    }
  }

  lemma RunsAreOthers(block: seq<Text>, i: nat, k: nat, j: nat)
    requires i < |block| && k < |block[i].runs| && i != j
    ensures block[i].runs[k] <= Others(block, j)
  {}

  lemma ChosenIn(order: seq<Prefix>, block: seq<Text>, out: seq<(string, seq<Prefix>)>, j: nat)
    requires KnownPrefixes(order, block) && PrunedTo(order, block, out) && j < |block|
    ensures forall p :: p in out[j].1 ==>
      p !in Others(block, j) && exists n :: 0 <= n < |block[j].runs| && p in block[j].runs[n]
  {
    SortedHas(order, Chosen(order, Pruned(block, j)));
    ChosenAre(order, Pruned(block, j));
    forall p | p in out[j].1
      ensures p !in Others(block, j) && exists n :: 0 <= n < |block[j].runs| && p in block[j].runs[n]
    {
      var n :| 0 <= n < |Pruned(block, j)| && p in Pruned(block, j)[n];
    }
  }

  /** Where there are several texts, a prefix of every run prints none of them. */
  lemma CommonUnused(order: seq<Prefix>, block: seq<Text>, out: seq<(string, seq<Prefix>)>, common: Prefix)
    requires KnownPrefixes(order, block) && PrunedTo(order, block, out) && |block| > 1
    requires forall i, k :: 0 <= i < |block| && 0 <= k < |block[i].runs| ==> common in block[i].runs[k]
    ensures forall i :: 0 <= i < |out| ==> common !in out[i].1
  {
    forall i | 0 <= i < |out| ensures common !in out[i].1 {
      ChosenIn(order, block, out, i);
      var j := if i == 0 then 1 else 0;
      assert block[j].runs != [] && common in block[j].runs[0];
      assert common in Others(block, i);
    }
  }

  function ChosenLists(out: seq<(string, seq<Prefix>)>): seq<seq<Prefix>> {
    seq(|out|, i requires 0 <= i < |out| => out[i].1)
  }

  /** So the chosen prefixes are what merging line by line needs. */
  lemma PrunedSeparate(order: seq<Prefix>, block: seq<Text>, out: seq<(string, seq<Prefix>)>, common: Prefix)
    requires KnownPrefixes(order, block) && PrunedTo(order, block, out) && |block| > 1
    requires forall i, k :: 0 <= i < |block| && 0 <= k < |block[i].runs| ==> common in block[i].runs[k]
    ensures Separate(order, ChosenLists(out), common)
  {
    CommonUnused(order, block, out, common);
    forall i | 0 <= i < |out|
      ensures NoDup(out[i].1) && (forall p :: p in out[i].1 ==> p in order && p != common)
      ensures forall j, p :: 0 <= j < |out| && p in out[i].1 && p in out[j].1 ==> i == j
    {
      assert block[i].runs != [];
      ReadersSeparate(order, block, out, i, 0);
      SortedHas(order, Chosen(order, Pruned(block, i)));
    }
  }

  // ===== merging line by line =====

  type Line = (Prefix, string)

  /** What a reader of the common prefix and one other sees. */
  function Project(out: seq<Line>, common: Prefix, p: Prefix): seq<string> {
    if out == [] then []
    else
      var last := out[|out| - 1];
      Project(out[..|out| - 1], common, p) + (if last.0 == common || last.0 == p then [last.1] else [])
  }

  lemma {:induction false} ProjectAppend(s: seq<Line>, t: seq<Line>, common: Prefix, p: Prefix)
    ensures Project(s + t, common, p) == Project(s, common, p) + Project(t, common, p)
    decreases |t|
  {
    if t == [] {
      assert s + t == s;
    } else {
      assert (s + t)[..|s + t| - 1] == s + t[..|t| - 1];
      ProjectAppend(s, t[..|t| - 1], common, p);
    }
  }

  function Lines(es: seq<Line>): seq<string> { seq(|es|, i requires 0 <= i < |es| => es[i].1) }

  ghost predicate AllFrom(es: seq<Line>, p: Prefix) { forall i :: 0 <= i < |es| ==> es[i].0 == p }

  lemma {:induction false} ProjectFrom(es: seq<Line>, from: Prefix, common: Prefix, p: Prefix)
    requires AllFrom(es, from) && from != common
    ensures Project(es, common, p) == if from == p then Lines(es) else []
  {
    if es != [] {
      var front := es[..|es| - 1];
      ProjectFrom(front, from, common, p);
      assert Lines(es) == Lines(front) + [es[|es| - 1].1];
    }
  }

  function Column(rows: seq<seq<string>>, i: nat): seq<string>
    requires forall r :: 0 <= r < |rows| ==> i < |rows[r]|
  {
    seq(|rows|, r requires 0 <= r < |rows| => rows[r][i])
  }

  predicate Same(row: seq<string>) { forall i :: 0 <= i < |row| ==> row[i] == row[0] }

  function Batch(batch: map<Prefix, seq<Line>>, p: Prefix): seq<Line> { if p in batch then batch[p] else [] }

  /** Prefixes are distinct, belong to one text each, and differ from the common one. */
  ghost predicate Separate(order: seq<Prefix>, prefixes: seq<seq<Prefix>>, common: Prefix) {
    && NoDup(order)
    && (forall i, p :: 0 <= i < |prefixes| && p in prefixes[i] ==> p in order && p != common)
    && (forall i :: 0 <= i < |prefixes| ==> NoDup(prefixes[i]))
    && forall i, j, p :: 0 <= i < |prefixes| && 0 <= j < |prefixes| && p in prefixes[i] && p in prefixes[j] ==> i == j
  }

  /** Batches hold lines of their own prefix only. */
  ghost predicate Batched(order: seq<Prefix>, batch: map<Prefix, seq<Line>>, common: Prefix) {
    forall p :: p in batch ==> p in order && p != common && AllFrom(batch[p], p)
  }

  /** Every reader has seen, or will see from the batches, its text's lines so far. */
  ghost predicate Merged(rows: seq<seq<string>>, prefixes: seq<seq<Prefix>>, common: Prefix, out: seq<Line>,
                         batch: map<Prefix, seq<Line>>)
    requires forall r :: 0 <= r < |rows| ==> |rows[r]| == |prefixes|
  {
    forall i, p :: 0 <= i < |prefixes| && p in prefixes[i] ==>
      Project(out, common, p) + Lines(Batch(batch, p)) == Column(rows, i)
  }

  /** The lines that all texts have in common, where they have. */
  function SameLines(rows: seq<seq<string>>): seq<string>
    requires forall r :: 0 <= r < |rows| ==> rows[r] != []
  {
    if rows == [] then []
    else SameLines(rows[..|rows| - 1]) + (if Same(rows[|rows| - 1]) then [rows[|rows| - 1][0]] else [])
  }

  ghost predicate Outside(prefixes: seq<seq<Prefix>>, q: Prefix) {
    forall i :: 0 <= i < |prefixes| ==> q !in prefixes[i]
  }

  /** A reader of the common prefix alone has seen the common lines so far. */
  ghost predicate CommonSeen(rows: seq<seq<string>>, prefixes: seq<seq<Prefix>>, common: Prefix, out: seq<Line>,
                             batch: map<Prefix, seq<Line>>)
    requires forall r :: 0 <= r < |rows| ==> rows[r] != []
  {
    forall q :: q != common && Outside(prefixes, q) ==>
      Project(out, common, q) == SameLines(rows) && Batch(batch, q) == []
  }

  lemma NotShared(order: seq<Prefix>, prefixes: seq<seq<Prefix>>, common: Prefix, i: nat, p: Prefix)
    requires Separate(order, prefixes, common) && i < |prefixes| && p in prefixes[i]
    ensures p != common && p in order
  {}

  lemma NoBatch(p: Prefix)
    ensures Lines(Batch(map[], p)) == []
  {}

  /** Lines of a lesser prefix come first. */
  ghost predicate Rising(order: seq<Prefix>, es: seq<Line>) {
    forall i, j :: 0 <= i < j < |es| ==> es[i].0 == es[j].0 || Before(order, es[i].0, es[j].0)
  }

  lemma RisingNone(order: seq<Prefix>, out: seq<Line>)
    ensures Rising(order, out[|out|..])
  {}

  lemma RisingMore(order: seq<Prefix>, es: seq<Line>, more: seq<Line>, sorted: seq<Prefix>, k: nat)
    requires k < |sorted| && Ascending(order, sorted) && Rising(order, es) && AllFrom(more, sorted[k])
    requires forall i :: 0 <= i < |es| ==> es[i].0 in sorted[..k]
    ensures Rising(order, es + more)
    ensures forall i :: 0 <= i < |more| ==> more[i].0 == sorted[k]
  {
    hide Before;
  }

  /** Outputs the batches one prefix at a time. */
  method Flush(order: seq<Prefix>, out: seq<Line>, batch: map<Prefix, seq<Line>>, common: Prefix)
    returns (out': seq<Line>)
    requires NoDup(order) && Batched(order, batch, common)
    ensures out <= out'
    ensures forall q :: q != common ==> Project(out', common, q) == Project(out, common, q) + Lines(Batch(batch, q))
    ensures Rising(order, out'[|out|..])
  {
    var sorted := Sorted(order, batch.Keys);
    SortedHas(order, batch.Keys);
    SortedAscending(order, batch.Keys);
    hide Project, Lines, AllFrom, Sorted, Batch, Rising;
    RisingNone(order, out);
    NoneFlushed(out, batch, common, sorted);
    out' := out;
    for k := 0 to |sorted|
      invariant out <= out' && Flushed(out, out', batch, common, sorted[..k])
      invariant Rising(order, out'[|out|..]) && forall i :: |out| <= i < |out'| ==> out'[i].0 in sorted[..k]
    {
      var p := sorted[k];
      assert p in batch && p !in sorted[..k] && AllFrom(batch[p], p) && p != common;
      assert sorted[..k + 1] == sorted[..k] + [p];
      OneFlushed(out, out', batch, common, sorted[..k], p);
      RisingMore(order, out'[|out|..], batch[p], sorted, k);
      assert (out' + batch[p])[|out|..] == out'[|out|..] + batch[p];
      out' := out' + batch[p];
    }
    assert sorted[..|sorted|] == sorted;
    AllFlushed(out, out', batch, common, sorted);
  }

  /** The batches of the given prefixes have been output. */
  ghost predicate Flushed(out: seq<Line>, out': seq<Line>, batch: map<Prefix, seq<Line>>, common: Prefix,
                          done: seq<Prefix>) {
    forall q :: q != common ==>
      Project(out', common, q) == Project(out, common, q) + (if q in done then Lines(Batch(batch, q)) else [])
  }

  lemma NoneFlushed(out: seq<Line>, batch: map<Prefix, seq<Line>>, common: Prefix, sorted: seq<Prefix>)
    ensures Flushed(out, out, batch, common, sorted[..0])
  {}

  lemma OneFlushed(out: seq<Line>, out': seq<Line>, batch: map<Prefix, seq<Line>>, common: Prefix, done: seq<Prefix>,
                   p: Prefix)
    requires Flushed(out, out', batch, common, done) && p in batch && p !in done && AllFrom(batch[p], p) && p != common
    ensures Flushed(out, out' + batch[p], batch, common, done + [p])
  {
    hide Project, Lines, AllFrom;
    forall q | q != common
      ensures Project(out' + batch[p], common, q)
        == Project(out, common, q) + (if q in done + [p] then Lines(Batch(batch, q)) else [])
    {
      ProjectAppend(out', batch[p], common, q);
      ProjectFrom(batch[p], p, common, q);
    }
  }

  lemma AllFlushed(out: seq<Line>, out': seq<Line>, batch: map<Prefix, seq<Line>>, common: Prefix, done: seq<Prefix>)
    requires Flushed(out, out', batch, common, done) && forall p :: p in batch ==> p in done
    ensures forall q :: q != common ==> Project(out', common, q) == Project(out, common, q) + Lines(Batch(batch, q))
  {
    hide Project;
  }

  /** The lines of the first n texts have been added to the batches of those texts' prefixes. */
  ghost predicate RowAdded(row: seq<string>, prefixes: seq<seq<Prefix>>, n: nat, batch: map<Prefix, seq<Line>>,
                           batch': map<Prefix, seq<Line>>)
    requires |row| == |prefixes|
  {
    && (forall i, p :: 0 <= i < |prefixes| && p in prefixes[i] ==>
          Batch(batch', p) == Batch(batch, p) + if i < n then [(p, row[i])] else [])
    && forall q :: Outside(prefixes, q) ==> Batch(batch', q) == Batch(batch, q)
  }

  lemma NextAdded(order: seq<Prefix>, row: seq<string>, prefixes: seq<seq<Prefix>>, common: Prefix, n: nat,
                  batch: map<Prefix, seq<Line>>, batch1: map<Prefix, seq<Line>>, batch2: map<Prefix, seq<Line>>)
    requires |row| == |prefixes| && Separate(order, prefixes, common) && n < |row|
    requires RowAdded(row, prefixes, n, batch, batch1)
    requires forall p :: Batch(batch2, p) == Batch(batch1, p) + if p in prefixes[n] then [(p, row[n])] else []
    ensures RowAdded(row, prefixes, n + 1, batch, batch2)
  {
    hide Batch;
    forall i, p | 0 <= i < |prefixes| && p in prefixes[i]
      ensures Batch(batch2, p) == Batch(batch, p) + if i < n + 1 then [(p, row[i])] else []
    {
      if p in prefixes[n] {
        assert i == n;
        assert Batch(batch1, p) == Batch(batch, p) + [] == Batch(batch, p);
      }
    }
  }

  lemma NoneAdded(row: seq<string>, prefixes: seq<seq<Prefix>>, batch: map<Prefix, seq<Line>>)
    requires |row| == |prefixes|
    ensures RowAdded(row, prefixes, 0, batch, batch)
  {}

  lemma SeparateParts(order: seq<Prefix>, prefixes: seq<seq<Prefix>>, common: Prefix)
    requires Separate(order, prefixes, common)
    ensures NoDup(order)
    ensures forall i :: 0 <= i < |prefixes| ==>
      NoDup(prefixes[i]) && forall p :: p in prefixes[i] ==> p in order && p != common
  {
    hide NoDup;
    forall i | 0 <= i < |prefixes| ensures forall p :: p in prefixes[i] ==> p in order && p != common {}
  }

  /** Adds a line of each text to the batches of the text's prefixes. */
  method AddRow(order: seq<Prefix>, row: seq<string>, prefixes: seq<seq<Prefix>>, common: Prefix,
                batch: map<Prefix, seq<Line>>)
    returns (batch': map<Prefix, seq<Line>>)
    requires |row| == |prefixes| && Separate(order, prefixes, common) && Batched(order, batch, common)
    ensures Batched(order, batch', common) && RowAdded(row, prefixes, |row|, batch, batch')
  {
    batch' := batch;
    NoneAdded(row, prefixes, batch);
    SeparateParts(order, prefixes, common);
    hide Batch, Batched, RowAdded, Separate, NoDup;
    for i := 0 to |row|
      invariant Batched(order, batch', common) && RowAdded(row, prefixes, i, batch, batch')
    {
      ghost var before := batch';
      batch' := AddLine(order, row[i], prefixes[i], common, batch');
      NextAdded(order, row, prefixes, common, i, batch, before, batch');
    }
  }

  method AddLine(order: seq<Prefix>, line: string, prefixes: seq<Prefix>, common: Prefix, batch: map<Prefix, seq<Line>>)
    returns (batch': map<Prefix, seq<Line>>)
    requires NoDup(prefixes) && (forall p :: p in prefixes ==> p in order && p != common)
    requires Batched(order, batch, common)
    ensures Batched(order, batch', common)
    ensures forall p :: Batch(batch', p) == Batch(batch, p) + if p in prefixes then [(p, line)] else []
  {
    batch' := batch;
    for k := 0 to |prefixes|
      invariant Batched(order, batch', common)
      invariant forall p :: Batch(batch', p) == Batch(batch, p) + if p in prefixes[..k] then [(p, line)] else []
    {
      var p := prefixes[k];
      assert p in prefixes && p !in prefixes[..k];
      assert prefixes[..k + 1] == prefixes[..k] + [p];
      batch' := batch'[p := Batch(batch', p) + [(p, line)]];
    }
    assert prefixes[..|prefixes|] == prefixes;
  }

  /** Merges texts with equally many lines. An empty result means that they are left as they are: their first
      lines differ, or lines differ and the first text has no prefix. Otherwise whoever reads the common prefix
      and one prefix of a text reads exactly that text's lines in order, and whoever reads the common prefix alone
      exactly the lines that all texts have in common. */
  method BreakDown(order: seq<Prefix>, rows: seq<seq<string>>, prefixes: seq<seq<Prefix>>, common: Prefix)
    returns (out: seq<Line>)
    requires rows != [] && prefixes != [] && (forall r :: 0 <= r < |rows| ==> |rows[r]| == |prefixes|)
    requires Separate(order, prefixes, common)
    ensures out == [] <==> !Same(rows[0]) || (prefixes[0] == [] && exists r :: 0 <= r < |rows| && !Same(rows[r]))
    ensures out != [] ==>
      forall i, p :: 0 <= i < |prefixes| && p in prefixes[i] ==> Project(out, common, p) == Column(rows, i)
    ensures out != [] ==>
      forall q :: q != common && Outside(prefixes, q) ==> Project(out, common, q) == SameLines(rows)
  {
    SeparateParts(order, prefixes, common);
    hide Project, Batched, Batch, Lines, Column, SameLines, Merged, CommonSeen, Separate, RowAdded, NoDup;
    NothingSeen(order, rows, prefixes, common);
    if !Same(rows[0]) { return []; }
    out := [];
    var batch: map<Prefix, seq<Line>> := map[];
    for r := 0 to |rows|
      invariant Batched(order, batch, common) && Merged(rows[..r], prefixes, common, out, batch)
      invariant CommonSeen(rows[..r], prefixes, common, out, batch)
      invariant r > 0 ==> out != []
      invariant prefixes[0] == [] ==> forall q :: 0 <= q < r ==> Same(rows[q])
    {
      var line := rows[r];
      if Same(line) {
        var flushed := Flush(order, out, batch, common);
        FlushedRow(rows, r, prefixes, common, out, batch, flushed, order);
        CommonFlushed(rows, r, prefixes, common, out, batch, flushed);
        out := flushed + [(common, line[0])];
        batch := map[];
      } else {
        if prefixes[0] == [] { return []; }
        var batch' := AddRow(order, line, prefixes, common, batch);
        BatchedRow(rows, r, prefixes, common, out, batch, batch');
        CommonBatched(rows, r, prefixes, common, out, batch, batch');
        batch := batch';
      }
    }
    assert rows[..|rows|] == rows;
    ghost var before := out;
    out := Flush(order, out, batch, common);
    AllSeen(order, rows, prefixes, common, before, batch, out);
  }

  lemma FlushedRow(rows: seq<seq<string>>, r: nat, prefixes: seq<seq<Prefix>>, common: Prefix, out: seq<Line>,
                   batch: map<Prefix, seq<Line>>, flushed: seq<Line>, order: seq<Prefix>)
    requires r < |rows| && (forall q :: 0 <= q < |rows| ==> |rows[q]| == |prefixes|) && prefixes != []
    requires Separate(order, prefixes, common)
    requires Merged(rows[..r], prefixes, common, out, batch) && Same(rows[r])
    requires forall q :: q != common ==> Project(flushed, common, q) == Project(out, common, q) + Lines(Batch(batch, q))
    ensures Merged(rows[..r + 1], prefixes, common, flushed + [(common, rows[r][0])], map[])
  {
    forall i, p | 0 <= i < |prefixes| && p in prefixes[i]
      ensures Project(flushed + [(common, rows[r][0])], common, p) + Lines(Batch(map[], p)) == Column(rows[..r + 1], i)
    {
      var last := (common, rows[r][0]);
      assert (flushed + [last])[..|flushed|] == flushed;
      assert Project(flushed + [last], common, p) == Project(flushed, common, p) + [rows[r][i]];
      NotShared(order, prefixes, common, i, p);
      NoBatch(p);
      assert Project(out, common, p) + Lines(Batch(batch, p)) == Column(rows[..r], i);
      assert Column(rows[..r + 1], i) == Column(rows[..r], i) + [rows[r][i]];
    }
  }

  lemma BatchedRow(rows: seq<seq<string>>, r: nat, prefixes: seq<seq<Prefix>>, common: Prefix, out: seq<Line>,
                   batch: map<Prefix, seq<Line>>, batch': map<Prefix, seq<Line>>)
    requires r < |rows| && (forall q :: 0 <= q < |rows| ==> |rows[q]| == |prefixes|)
    requires Merged(rows[..r], prefixes, common, out, batch) && RowAdded(rows[r], prefixes, |rows[r]|, batch, batch')
    ensures Merged(rows[..r + 1], prefixes, common, out, batch')
  {
    hide Batch, Project;
    forall i, p | 0 <= i < |prefixes| && p in prefixes[i]
      ensures Project(out, common, p) + Lines(Batch(batch', p)) == Column(rows[..r + 1], i)
    {
      assert Project(out, common, p) + Lines(Batch(batch, p)) == Column(rows[..r], i);
      assert Batch(batch', p) == Batch(batch, p) + [(p, rows[r][i])];
      LineAdded(Batch(batch, p), p, rows[r][i]);
      ColumnSnoc(rows, r, i);
      hide Lines, Column;
    }
  }

  lemma LineAdded(es: seq<Line>, p: Prefix, line: string)
    ensures Lines(es + [(p, line)]) == Lines(es) + [line]
  {}

  lemma ColumnSnoc(rows: seq<seq<string>>, r: nat, i: nat)
    requires r < |rows| && forall q :: 0 <= q < |rows| ==> i < |rows[q]|
    ensures Column(rows[..r + 1], i) == Column(rows[..r], i) + [rows[r][i]]
  {}

  lemma NothingSeen(order: seq<Prefix>, rows: seq<seq<string>>, prefixes: seq<seq<Prefix>>, common: Prefix)
    requires (forall q :: 0 <= q < |rows| ==> |rows[q]| == |prefixes|) && prefixes != []
    ensures Batched(order, map[], common) && rows[..0] == []
    ensures Merged(rows[..0], prefixes, common, [], map[]) && CommonSeen(rows[..0], prefixes, common, [], map[])
  {
    forall i, p | 0 <= i < |prefixes| && p in prefixes[i]
      ensures Project([], common, p) + Lines(Batch(map[], p)) == Column(rows[..0], i)
    {
      NoBatch(p);
    }
  }

  lemma CommonFlushed(rows: seq<seq<string>>, r: nat, prefixes: seq<seq<Prefix>>, common: Prefix, out: seq<Line>,
                      batch: map<Prefix, seq<Line>>, flushed: seq<Line>)
    requires r < |rows| && (forall q :: 0 <= q < |rows| ==> |rows[q]| == |prefixes|) && prefixes != []
    requires CommonSeen(rows[..r], prefixes, common, out, batch) && Same(rows[r])
    requires forall q :: q != common ==> Project(flushed, common, q) == Project(out, common, q) + Lines(Batch(batch, q))
    ensures CommonSeen(rows[..r + 1], prefixes, common, flushed + [(common, rows[r][0])], map[])
  {
    var last := (common, rows[r][0]);
    assert rows[..r + 1][..r] == rows[..r];
    assert (flushed + [last])[..|flushed|] == flushed;
    forall q | q != common && Outside(prefixes, q)
      ensures Project(flushed + [last], common, q) == SameLines(rows[..r + 1]) && Batch(map[], q) == []
    {
      assert Lines([]) == [];
      assert Project(flushed, common, q) == Project(out, common, q);
    }
  }

  lemma CommonBatched(rows: seq<seq<string>>, r: nat, prefixes: seq<seq<Prefix>>, common: Prefix, out: seq<Line>,
                      batch: map<Prefix, seq<Line>>, batch': map<Prefix, seq<Line>>)
    requires r < |rows| && (forall q :: 0 <= q < |rows| ==> |rows[q]| == |prefixes|) && prefixes != []
    requires CommonSeen(rows[..r], prefixes, common, out, batch) && !Same(rows[r])
    requires RowAdded(rows[r], prefixes, |rows[r]|, batch, batch')
    ensures CommonSeen(rows[..r + 1], prefixes, common, out, batch')
  {
    assert rows[..r + 1][..r] == rows[..r];
    hide Project, Batch;
  }

  /** With the last batches output, everybody has seen everything. */
  lemma AllSeen(order: seq<Prefix>, rows: seq<seq<string>>, prefixes: seq<seq<Prefix>>, common: Prefix,
                out: seq<Line>, batch: map<Prefix, seq<Line>>, flushed: seq<Line>)
    requires (forall q :: 0 <= q < |rows| ==> |rows[q]| == |prefixes|) && prefixes != []
    requires Separate(order, prefixes, common)
    requires Merged(rows, prefixes, common, out, batch) && CommonSeen(rows, prefixes, common, out, batch)
    requires forall q :: q != common ==> Project(flushed, common, q) == Project(out, common, q) + Lines(Batch(batch, q))
    ensures forall i, p :: 0 <= i < |prefixes| && p in prefixes[i] ==> Project(flushed, common, p) == Column(rows, i)
    ensures forall q :: q != common && Outside(prefixes, q) ==> Project(flushed, common, q) == SameLines(rows)
  {
    hide Project, Column, SameLines;
    forall i, p | 0 <= i < |prefixes| && p in prefixes[i] ensures Project(flushed, common, p) == Column(rows, i) {
      NotShared(order, prefixes, common, i, p);
      assert Project(out, common, p) + Lines(Batch(batch, p)) == Column(rows, i);
    }
    assert Lines([]) == [];
  }
}
