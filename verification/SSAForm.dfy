/** Static single assignment form: every name is defined once, and every use is dominated by its
    definition. A certificate gives, for each block, names that are available on every path to it. */
module SSAForm {
  import opened Common
  import opened CMRegisters
  import opened TargetIR
  import opened CFG
  import opened CodeBuilder
  import opened Growth
  import opened Phis
  import opened Definitions

  // ----- dominance, stated over paths -----

  function PhiDsts(phis: seq<Phi>): set<nat> { set i | 0 <= i < |phis| :: phis[i].dst }

  /** A path of blocks from the entry along edges. */
  ghost predicate IsPath(bs: seq<Block>, path: seq<nat>) {
    && path != [] && path[0] == 0 && (forall k :: 0 <= k < |path| ==> path[k] < |bs|)
    && forall k :: 0 < k < |path| ==> path[k] in Succs(bs[path[k - 1]].term)
  }

  /** All names defined in the blocks of a path. */
  function NamesOn(bs: seq<Block>, path: seq<nat>): set<nat>
    requires forall k :: 0 <= k < |path| ==> path[k] < |bs|
  {
    if path == [] then {}
    else
      var b := path[|path| - 1];
      NamesOn(bs, path[..|path| - 1]) + (PhiDsts(bs[b].phis) + Dsts(bs[b].body))
  }

  predicate TermOk(term: Option<Term>, names: set<nat>) {
    match term
    case Some(CondBr(c, _, _)) => Defined(c, names)
    case Some(Switch(v, _, _)) => Defined(v, names)
    case _ => true
  }

  /** What the last block of a path uses has been defined on that path before it is used; a phi's operand
      has been defined at the end of the path to the block it comes from. */
  ghost predicate UsesDefined(bs: seq<Block>, path: seq<nat>)
    requires IsPath(bs, path)
  {
    var b := path[|path| - 1];
    && GoodCode(NamesOn(bs, path[..|path| - 1]) + PhiDsts(bs[b].phis), bs[b].body)
    && TermOk(bs[b].term, NamesOn(bs, path))
    && forall d, i, j :: 0 <= d < |bs| && 0 <= i < |bs[d].phis| && 0 <= j < |bs[d].phis[i].incoming| ==>
         bs[d].phis[i].incoming[j].0 == b ==> Defined(bs[d].phis[i].incoming[j].1, NamesOn(bs, path))
  }

  /** Definitions dominate uses. */
  ghost predicate Dominated(bs: seq<Block>) {
    forall path :: IsPath(bs, path) ==> UsesDefined(bs, path)
  }

  // ----- certificates -----

  function Starts(bs: seq<Block>, av: seq<set<nat>>, b: nat): set<nat>
    requires b < |bs| == |av|
  {
    av[b] + PhiDsts(bs[b].phis)
  }

  function Out(bs: seq<Block>, av: seq<set<nat>>, b: nat): set<nat>
    requires b < |bs| == |av|
  {
    Starts(bs, av, b) + Dsts(bs[b].body)
  }

  ghost predicate CodeOk(bs: seq<Block>, av: seq<set<nat>>, b: nat)
    requires b < |bs| == |av|
  {
    && GoodCode(Starts(bs, av, b), bs[b].body) && TermOk(bs[b].term, Out(bs, av, b))
    && forall d :: d in Succs(bs[b].term) ==> d < |bs| && av[d] <= Out(bs, av, b)
  }

  ghost predicate PhiOk(bs: seq<Block>, av: seq<set<nat>>, phi: Phi)
    requires |bs| == |av|
  {
    forall j :: 0 <= j < |phi.incoming| ==>
      phi.incoming[j].0 < |bs| && Defined(phi.incoming[j].1, Out(bs, av, phi.incoming[j].0))
  }

  ghost predicate Certificate(bs: seq<Block>, av: seq<set<nat>>) {
    && |bs| == |av|
    && (forall b :: 0 <= b < |bs| ==> CodeOk(bs, av, b))
    && (forall b, i :: 0 <= b < |bs| && 0 <= i < |bs[b].phis| ==> PhiOk(bs, av, bs[b].phis[i]))
  }

  lemma {:induction false} GoodCodeMore(names: set<nat>, more: set<nat>, code: seq<Instr>)
    requires GoodCode(names, code) && names <= more
    ensures GoodCode(more, code)
  {
    if code != [] {
      GoodCodeMore(names, more, code[..|code| - 1]);
    }
  }

  /** What a certificate promises for a block is there on every path to the block. */
  lemma {:induction false} CertifiedOnPath(bs: seq<Block>, av: seq<set<nat>>, path: seq<nat>)
    requires Certificate(bs, av) && IsPath(bs, path) && av[0] == {}
    ensures var b := path[|path| - 1]; av[b] <= NamesOn(bs, path[..|path| - 1]) && Out(bs, av, b) <= NamesOn(bs, path)
    decreases |path|
  {
    if |path| > 1 {
      var front := path[..|path| - 1];
      CertifiedOnPath(bs, av, front);
      var p := front[|front| - 1];
      assert CodeOk(bs, av, p);
      assert path[|path| - 1] in Succs(bs[p].term);
    }
  }

  lemma CertificateDominates(bs: seq<Block>, av: seq<set<nat>>)
    requires Certificate(bs, av) && |bs| > 0 && av[0] == {}
    ensures Dominated(bs)
  {
    forall path | IsPath(bs, path) ensures UsesDefined(bs, path) {
      var b := path[|path| - 1];
      CertifiedOnPath(bs, av, path);
      assert CodeOk(bs, av, b);
      GoodCodeMore(Starts(bs, av, b), NamesOn(bs, path[..|path| - 1]) + PhiDsts(bs[b].phis), bs[b].body);
      forall d, i, j | 0 <= d < |bs| && 0 <= i < |bs[d].phis| && 0 <= j < |bs[d].phis[i].incoming|
        && bs[d].phis[i].incoming[j].0 == b
        ensures Defined(bs[d].phis[i].incoming[j].1, NamesOn(bs, path))
      {
        assert PhiOk(bs, av, bs[d].phis[i]);
      }
    }
  }

  // ----- names -----

  /** The names a block defines: its phis', then its instructions'. */
  function NumNames(blk: Block): nat { |blk.phis| + |blk.body| }

  function NameAt(blk: Block, k: nat): nat
    requires k < NumNames(blk)
  {
    if k < |blk.phis| then blk.phis[k].dst else blk.body[k - |blk.phis|].dst
  }

  /** No name is defined twice. */
  ghost predicate SingleDefs(bs: seq<Block>) {
    forall b, k, b', k' :: 0 <= b < |bs| && 0 <= k < NumNames(bs[b]) && 0 <= b' < |bs| && 0 <= k' < NumNames(bs[b']) ==>
      NameAt(bs[b], k) == NameAt(bs[b'], k') ==> b == b' && k == k'
  }

  ghost predicate NamesBelow(bs: seq<Block>, n: nat) {
    forall b, k :: 0 <= b < |bs| && 0 <= k < NumNames(bs[b]) ==> NameAt(bs[b], k) < n
  }

  ghost predicate UniqueNames(bs: seq<Block>, n: nat) { SingleDefs(bs) && NamesBelow(bs, n) }

  lemma NamesSame(bs: seq<Block>, cs: seq<Block>, n: nat)
    requires UniqueNames(bs, n) && |bs| == |cs|
    requires forall b :: 0 <= b < |bs| ==>
      NumNames(cs[b]) == NumNames(bs[b])
      && forall k :: 0 <= k < NumNames(bs[b]) ==> NameAt(cs[b], k) == NameAt(bs[b], k)
    ensures UniqueNames(cs, n)
  {}

  lemma NamesLine(bs: seq<Block>, b: nat, l: Line, l': Line)
    requires UniqueNames(bs, l.next) && b < |bs| && bs[b].body == l.code && Fresh(l, l')
    ensures UniqueNames(bs[b := bs[b].(body := l'.code)], l'.next)
  {
    var blk := bs[b].(body := l'.code);
    forall k | 0 <= k < NumNames(blk)
      ensures k < NumNames(bs[b]) ==> NameAt(blk, k) == NameAt(bs[b], k)
      ensures k >= NumNames(bs[b]) ==> NameAt(blk, k) == l.next + (k - NumNames(bs[b])) < l'.next
    {}
    NamesBlock(bs, b, blk, l.next, l'.next);
  }

  /** A block that only gains new names, in order. */
  lemma NamesBlock(bs: seq<Block>, b: nat, blk: Block, n: nat, n': nat)
    requires UniqueNames(bs, n) && b < |bs| && n <= n' && NumNames(bs[b]) <= NumNames(blk)
    requires forall k :: 0 <= k < NumNames(bs[b]) ==> NameAt(blk, k) == NameAt(bs[b], k)
    requires forall k :: NumNames(bs[b]) <= k < NumNames(blk) ==> NameAt(blk, k) == n + (k - NumNames(bs[b])) < n'
    ensures UniqueNames(bs[b := blk], n')
  {
    hide NumNames, NameAt;
    var cs := bs[b := blk];
    assert forall x, k :: 0 <= x < |cs| && 0 <= k < NumNames(cs[x]) && !(x == b && k >= NumNames(bs[b])) ==>
      k < NumNames(bs[x]) && NameAt(cs[x], k) == NameAt(bs[x], k) < n;
  }

  /** A new block whose names are the next ones, in order. */
  lemma NamesAppend(bs: seq<Block>, blk: Block, n: nat, n': nat)
    requires UniqueNames(bs, n) && n' == n + NumNames(blk)
    requires forall k :: 0 <= k < NumNames(blk) ==> NameAt(blk, k) == n + k
    ensures UniqueNames(bs + [blk], n')
  {
    var empty := Block([], [], None);
    hide NameAt;
    assert UniqueNames(bs + [empty], n);
    NamesBlock(bs + [empty], |bs|, blk, n, n');
    assert (bs + [empty])[|bs| := blk] == bs + [blk];
  }
}
