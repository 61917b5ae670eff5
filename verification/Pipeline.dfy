/** Pass pipelines: nested lists of passes and pass managers, their printed form, and the operations the
    reducer uses. */
module Pipeline {
  import opened Common

  /** A pair of a kind and a content: no kind and a name, a kind and a list, or, once an operation has taken
      a list with an empty kind for a pass, no kind and a list. */
  datatype Node = Pass(name: string) | Manager(kind: string, kids: seq<Node>) | Loose(kids: seq<Node>)

  type Pipe = seq<Node>

  /** The test the code makes: an empty kind is taken for none. */
  predicate IsManager(n: Node) { n.Manager? && n.kind != "" }

  /** What the code appends for a node it takes for a pass. */
  function AsPass(n: Node): Node
    requires !IsManager(n)
  {
    match n case Pass(_) => n case Manager(_, kids) => Loose(kids) case Loose(_) => n
  }

  /** Every node, at any depth, is a pass or a manager with a kind. */
  predicate Kinded(p: Pipe)
    decreases p
  {
    p == [] || (Kinded(p[..|p| - 1]) && KindedNode(p[|p| - 1]))
  }

  predicate KindedNode(n: Node)
    decreases n
  {
    n.Pass? || (IsManager(n) && Kinded(n.kids))
  }

  predicate Plain(s: string) { s != "" && ',' !in s && '(' !in s && ')' !in s }

  /** All names are non-empty and free of the separators. */
  predicate Proper(p: Pipe)
    decreases p
  {
    p == [] || (Proper(p[..|p| - 1]) && ProperNode(p[|p| - 1]))
  }

  predicate ProperNode(n: Node)
    decreases n
  {
    match n
    case Pass(name) => Plain(name)
    case Manager(kind, kids) => Plain(kind) && Proper(kids)
    case Loose(_) => false
  }

  lemma {:induction false} ProperKinded(p: Pipe)
    requires Proper(p)
    ensures Kinded(p)
    decreases p
  {
    if p != [] {
      var last := p[|p| - 1];
      ProperKinded(p[..|p| - 1]);
      if last.Manager? { ProperKinded(last.kids); }
    }
  }

  // ----- printing -----

  function ToStr(p: Pipe): string
    decreases p, 0
  {
    if p == [] then "" else Separated(p[..|p| - 1]) + NodeStr(p[|p| - 1])
  }

  /** Nodes that are followed by another one. */
  function Separated(p: Pipe): string
    decreases p, 1
  {
    if p == [] then "" else ToStr(p) + ","
  }

  function NodeStr(n: Node): string
    decreases n, 0
  {
    match n
    case Pass(name) => name
    case Manager(kind, kids) => kind + "(" + ToStr(kids) + ")"
    case Loose(_) => ""
  }

  lemma {:induction false} KindedPrefix(p: Pipe, n: nat)
    requires n < |p| && !KindedNode(p[n])
    ensures !Kinded(p)
    decreases |p|
  {
    if n < |p| - 1 { KindedPrefix(p[..|p| - 1], n); }
  }

  /** None stands for the type error of appending a list to a string. */
  method Print(p: Pipe) returns (r: Option<string>)
    ensures r == if Kinded(p) then Some(ToStr(p)) else None
    decreases p
  {
    var res := "";
    for i := 0 to |p|
      invariant Kinded(p[..i]) && res == if i == |p| then ToStr(p) else Separated(p[..i])
    {
      assert p[..i + 1][..i] == p[..i];
      ghost var before := res;
      if IsManager(p[i]) {
        res := res + p[i].kind + "(";
        var inner := Print(p[i].kids);
        if inner.None? {
          KindedPrefix(p, i);
          return None;
        }
        res := res + inner.value;
        res := res + ")";
        assert res == before + (p[i].kind + "(" + inner.value + ")");
      } else if p[i].Pass? {
        res := res + p[i].name;
      } else {
        KindedPrefix(p, i);
        return None;
      }
      assert res == before + NodeStr(p[i]) == ToStr(p[..i + 1]);
      if i != |p| - 1 { res := res + ","; } else { assert p[..i + 1] == p; }
    }
    assert p[..|p|] == p;
    r := Some(res);
  }

  // ----- parsing -----

  /** The parser's variables: enclosing lists with their kinds, the list and token under construction, and
      the kind of the list. */
  datatype State = State(stack: seq<(string, Pipe)>, curr: Pipe, tok: string, kind: string)

  function Flush(curr: Pipe, tok: string): Pipe { if tok != "" then curr + [Pass(tok)] else curr }

  /** None stands for the error of popping an empty stack. */
  function Next(st: State, c: char): Option<State> {
    if c == ',' then Some(st.(curr := Flush(st.curr, st.tok), tok := ""))
    else if c == '(' then Some(State(st.stack + [(st.kind, st.curr)], [], "", st.tok))
    else if c == ')' then
      if st.stack == [] then None
      else
        var (kind, curr) := st.stack[|st.stack| - 1];
        Some(State(st.stack[..|st.stack| - 1], curr + [Manager(st.kind, Flush(st.curr, st.tok))], "", kind))
    else Some(st.(tok := st.tok + [c]))
  }

  function Run(st: Option<State>, s: string): Option<State>
    decreases |s|
  {
    if s == "" || st.None? then st
    else
      match Run(st, s[..|s| - 1])
      case None => None
      case Some(st') => Next(st', s[|s| - 1])
  }

  /** Lists left open at the end are dropped. */
  function FromStr(s: string): Option<Pipe> {
    match Run(Some(State([], [], "", "")), s)
    case None => None
    case Some(st) => Some(Flush(st.curr, st.tok))
  }

  method Parse(pipeStr: string) returns (p: Option<Pipe>)
    ensures p == FromStr(pipeStr)
  {
    var stack: seq<(string, Pipe)>, curr: Pipe, tok: string, kind: string := [], [], "", "";
    for i := 0 to |pipeStr|
      invariant Run(Some(State([], [], "", "")), pipeStr[..i]) == Some(State(stack, curr, tok, kind))
    {
      assert pipeStr[..i + 1][..i] == pipeStr[..i];
      ghost var st := State(stack, curr, tok, kind);
      var c := pipeStr[i];
      if c == ',' {
        if tok != "" { curr := curr + [Pass(tok)]; }
        tok := "";
      } else if c == '(' {
        stack := stack + [(kind, curr)];
        kind := tok;
        curr := [];
        tok := "";
      } else if c == ')' {
        if tok != "" { curr := curr + [Pass(tok)]; }
        tok := "";
        var oldKind, oldCurr := kind, curr;
        if stack == [] {
          RunFails(Some(State([], [], "", "")), pipeStr, i + 1);
          return None;
        }
        var top := stack[|stack| - 1];
        stack := stack[..|stack| - 1];
        kind, curr := top.0, top.1;
        curr := curr + [Manager(oldKind, oldCurr)];
      } else {
        tok := tok + [c];
      }
      assert Next(st, c) == Some(State(stack, curr, tok, kind));
    }
    assert pipeStr[..|pipeStr|] == pipeStr;
    if tok != "" { curr := curr + [Pass(tok)]; }
    p := Some(curr);
  }

  lemma {:induction false} RunFails(st: Option<State>, s: string, n: nat)
    requires st.Some? && n <= |s| && Run(st, s[..n]).None?
    ensures Run(st, s).None?
    decreases |s|
  {
    if n < |s| {
      assert s[..|s| - 1][..n] == s[..n];
      RunFails(st, s[..|s| - 1], n);
    } else {
      assert s[..n] == s;
    }
  }

  lemma {:induction false} RunAppend(st: Option<State>, s: string, t: string)
    ensures Run(st, s + t) == Run(Run(st, s), t)
    decreases |t|
  {
    if t == "" {
      assert s + t == s;
    } else {
      var front := t[..|t| - 1];
      assert (s + t)[..|s + t| - 1] == s + front;
      RunAppend(st, s, front);
    }
  }

  lemma RunOne(st: State, c: char)
    ensures Run(Some(st), [c]) == Next(st, c)
  {
    assert [c][..0] == "";
  }

  lemma {:induction false} RunToken(st: State, s: string)
    requires ',' !in s && '(' !in s && ')' !in s
    ensures Run(Some(st), s) == Some(st.(tok := st.tok + s))
    decreases |s|
  {
    if s != "" {
      RunToken(st, s[..|s| - 1]);
      assert st.tok + s == st.tok + s[..|s| - 1] + [s[|s| - 1]];
    } else {
      assert st.tok + s == st.tok;
    }
  }

  /** Reading a printed pipeline adds it to the list under construction; its last pass may still be a token. */
  ghost predicate Reads(st: State, s: string, p: Pipe) {
    match Run(Some(st), s)
    case None => false
    case Some(st') => st'.stack == st.stack && st'.kind == st.kind && Flush(st'.curr, st'.tok) == st.curr + p
  }

  lemma ToStrLast(p: Pipe)
    requires p != []
    ensures ToStr(p) == Separated(p[..|p| - 1]) + NodeStr(p[|p| - 1])
  {
    hide Separated, NodeStr;
  }

  lemma ReadsNone(st: State)
    requires st.tok == ""
    ensures Reads(st, ToStr([]), [])
  {
    assert st.curr + [] == st.curr;
  }

  lemma ReadsMore(st: State, s: string, t: string, front: Pipe, last: Node)
    requires Run(Some(st), s) == Some(st.(curr := st.curr + front)) && Reads(st.(curr := st.curr + front), t, [last])
    ensures Reads(st, s + t, front + [last])
  {
    RunAppend(Some(st), s, t);
    assert st.curr + (front + [last]) == st.curr + front + [last];
    hide Run;
  }

  lemma ProperParts(p: Pipe)
    requires Proper(p) && p != []
    ensures Proper(p[..|p| - 1]) && ProperNode(p[|p| - 1])
  {
    hide ProperNode;
  }

  lemma {:induction false} PrintedReads(st: State, p: Pipe)
    requires Proper(p) && st.tok == ""
    ensures Reads(st, ToStr(p), p)
    decreases p, 0
  {
    hide *;
    if p == [] {
      ReadsNone(st);
    } else {
      var front, last := p[..|p| - 1], p[|p| - 1];
      ProperParts(p);
      ToStrLast(p);
      SeparatedReads(st, front);
      NodeReads(st.(curr := st.curr + front), last);
      ReadsMore(st, Separated(front), NodeStr(last), front, last);
      assert p == front + [last];
    }
  }

  lemma {:induction false} SeparatedReads(st: State, p: Pipe)
    requires Proper(p) && st.tok == ""
    ensures Run(Some(st), Separated(p)) == Some(st.(curr := st.curr + p))
    decreases p, 1
  {
    if p == [] {
      assert st.curr + p == st.curr;
    } else {
      PrintedReads(st, p);
      RunAppend(Some(st), ToStr(p), ",");
      RunOne(Run(Some(st), ToStr(p)).value, ',');
    }
  }

  lemma {:induction false} NodeReads(st: State, n: Node)
    requires ProperNode(n) && st.tok == ""
    ensures Reads(st, NodeStr(n), [n])
    decreases n, 0
  {
    match n
    case Pass(name) =>
      RunToken(st, name);
      assert "" + name == name;
    case Manager(kind, kids) =>
      var st2 := State(st.stack + [(st.kind, st.curr)], [], "", kind);
      OpenReads(st, kind);
      PrintedReads(st2, kids);
      assert [] + kids == kids;
      CloseReads(st, n, Run(Some(st2), ToStr(kids)).value);
  }

  lemma OpenReads(st: State, kind: string)
    requires Plain(kind) && st.tok == ""
    ensures Run(Some(st), kind + "(") == Some(State(st.stack + [(st.kind, st.curr)], [], "", kind))
  {
    RunToken(st, kind);
    assert "" + kind == kind;
    hide *;
    OpenNext(st.(tok := kind));
    RunAppend(Some(st), kind, "(");
  }

  lemma OpenNext(st: State)
    ensures Run(Some(st), "(") == Some(State(st.stack + [(st.kind, st.curr)], [], "", st.tok))
  {
    RunOne(st, '(');
  }

  lemma CloseReads(st: State, n: Node, st3: State)
    requires n.Manager? && Flush(st3.curr, st3.tok) == n.kids && st3.kind == n.kind
    requires st3.stack == st.stack + [(st.kind, st.curr)]
    requires Run(Run(Some(st), n.kind + "("), ToStr(n.kids)) == Some(st3)
    ensures Reads(st, NodeStr(n), [n])
  {
    hide Run;
    RunAppend(Some(st), n.kind + "(", ToStr(n.kids));
    RunOne(st3, ')');
    RunAppend(Some(st), n.kind + "(" + ToStr(n.kids), ")");
    assert st3.stack[..|st3.stack| - 1] == st.stack;
  }

  /** Parsing what was printed gives the pipeline back. */
  lemma RoundTrip(p: Pipe)
    requires Proper(p)
    ensures FromStr(ToStr(p)) == Some(p)
  {
    PrintedReads(State([], [], "", ""), p);
    assert [] + p == p;
  }

  lemma PrintInjective(p: Pipe, q: Pipe)
    requires Proper(p) && Proper(q) && ToStr(p) == ToStr(q)
    ensures p == q
  {
    RoundTrip(p);
    RoundTrip(q);
  }

  /** Open parentheses minus closed ones. */
  function Depth(s: string): int {
    if s == "" then 0
    else Depth(s[..|s| - 1]) + (if s[|s| - 1] == '(' then 1 else if s[|s| - 1] == ')' then -1 else 0)
  }

  lemma NextDepth(st: State, c: char)
    ensures Next(st, c).None? <==> c == ')' && st.stack == []
    ensures Next(st, c).Some? ==>
      |Next(st, c).value.stack| == |st.stack| + (if c == '(' then 1 else if c == ')' then -1 else 0)
  {}

  lemma {:induction false} RunDepth(s: string)
    ensures var r := Run(Some(State([], [], "", "")), s);
      && (r.None? <==> exists n :: 0 <= n <= |s| && Depth(s[..n]) < 0)
      && (r.Some? ==> |r.value.stack| == Depth(s))
    decreases |s|
  {
    var start := Some(State([], [], "", ""));
    if s == "" {
      assert forall n :: 0 <= n <= |s| ==> s[..n] == "";
    } else {
      var front, c := s[..|s| - 1], s[|s| - 1];
      var r := Run(start, front);
      RunDepth(front);
      if r.Some? { NextDepth(r.value, c); }
      assert Run(start, s) == if r.None? then None else Next(r.value, c);
      assert Depth(s) == Depth(front) + (if c == '(' then 1 else if c == ')' then -1 else 0);
      hide Run, Next, Depth;
      assert forall n :: 0 <= n <= |front| ==> front[..n] == s[..n];
      assert s[..|s|] == s;
      if r.None? {
        var n :| 0 <= n <= |front| && Depth(front[..n]) < 0;
        assert Depth(s[..n]) < 0;
      } else if Run(start, s).None? {
        assert Depth(s[..|s|]) < 0;
      }
    }
  }

  /** Parsing fails exactly if some closing parenthesis has no opening one before it. */
  lemma ParseFails(s: string)
    ensures FromStr(s).None? <==> exists n :: 0 <= n <= |s| && Depth(s[..n]) < 0
  {
    RunDepth(s);
  }

  /** Every opening parenthesis comes right after a name. */
  predicate Named(s: string) {
    forall i :: 0 <= i < |s| && s[i] == '(' ==> i > 0 && s[i - 1] !in ",()"
  }

  /** No manager with an empty kind has been finished or begun. */
  ghost predicate Clean(st: State) {
    && Kinded(st.curr) && (forall i :: 0 <= i < |st.stack| ==> Kinded(st.stack[i].1))
    && (st.stack != [] ==> st.kind != "") && forall i :: 0 < i < |st.stack| ==> st.stack[i].0 != ""
  }

  lemma KindedSnoc(p: Pipe, n: Node)
    ensures Kinded(p + [n]) <==> Kinded(p) && KindedNode(n)
  {
    assert (p + [n])[..|p|] == p;
  }

  lemma NextClean(st: State, c: char)
    requires Next(st, c).Some? && (st.stack == [] ==> st.kind == "")
    ensures Clean(Next(st, c).value) <==> Clean(st) && (c == '(' ==> st.tok != "")
  {
    var st' := Next(st, c).value;
    KindedSnoc(st.curr, Pass(st.tok));
    if c == '(' {
      assert st'.stack[|st.stack|] == (st.kind, st.curr);
      assert forall i :: 0 <= i < |st.stack| ==> st'.stack[i] == st.stack[i];
    } else if c == ')' {
      var top := st.stack[|st.stack| - 1];
      assert st.stack == st'.stack + [top];
      KindedSnoc(top.1, Manager(st.kind, Flush(st.curr, st.tok)));
    }
  }

  lemma {:induction false} RunClean(s: string)
    requires Run(Some(State([], [], "", "")), s).Some?
    ensures var st := Run(Some(State([], [], "", "")), s).value;
      && (Clean(st) <==> Named(s))
      && (st.stack == [] ==> st.kind == "") && (st.stack != [] ==> st.stack[0].0 == "")
      && (st.tok == "" <==> s == "" || s[|s| - 1] in ",()")
    decreases |s|
  {
    if s != "" {
      var front, c := s[..|s| - 1], s[|s| - 1];
      RunClean(front);
      var st := Run(Some(State([], [], "", "")), front).value;
      NextClean(st, c);
      assert s == front + [c];
      assert Named(s) <==> Named(front) && (c == '(' ==> front != "" && front[|front| - 1] !in ",()");
    }
  }

  /** Where all parentheses are closed, parsing yields managers with kinds only exactly if every parenthesis
      opens right after a name. */
  lemma ParsesKinded(s: string)
    requires FromStr(s).Some? && Depth(s) == 0
    ensures Kinded(FromStr(s).value) <==> Named(s)
  {
    RunDepth(s);
    RunClean(s);
    var st := Run(Some(State([], [], "", "")), s).value;
    KindedSnoc(st.curr, Pass(st.tok));
  }

  // ----- nothing is lost -----

  /** All names and kinds, one after the other. */
  function Letters(p: Pipe): string
    decreases p
  {
    if p == [] then "" else Letters(p[..|p| - 1]) + NodeLetters(p[|p| - 1])
  }

  function NodeLetters(n: Node): string
    decreases n
  {
    match n
    case Pass(name) => name
    case Manager(kind, kids) => kind + Letters(kids)
    case Loose(kids) => Letters(kids)
  }

  function NoSeparators(s: string): string {
    if s == "" then ""
    else NoSeparators(s[..|s| - 1]) + (if s[|s| - 1] in ",()" then "" else [s[|s| - 1]])
  }

  function StackLetters(stack: seq<(string, Pipe)>): string {
    if stack == [] then ""
    else
      var (kind, curr) := stack[|stack| - 1];
      StackLetters(stack[..|stack| - 1]) + kind + Letters(curr)
  }

  function StateLetters(st: State): string { StackLetters(st.stack) + st.kind + Letters(st.curr) + st.tok }

  lemma LettersSnoc(p: Pipe, n: Node)
    ensures Letters(p + [n]) == Letters(p) + NodeLetters(n)
  {
    assert (p + [n])[..|p|] == p;
  }

  lemma StackLettersSnoc(stack: seq<(string, Pipe)>, kind: string, curr: Pipe)
    ensures StackLetters(stack + [(kind, curr)]) == StackLetters(stack) + kind + Letters(curr)
  {
    assert (stack + [(kind, curr)])[..|stack|] == stack;
  }

  lemma FlushLetters(curr: Pipe, tok: string)
    ensures Letters(Flush(curr, tok)) == Letters(curr) + tok
  {
    LettersSnoc(curr, Pass(tok));
    assert tok == "" ==> Letters(curr) + tok == Letters(curr);
  }

  lemma Joined(a: string, b: string, c: string)
    ensures a + (b + c) == a + b + c && a + "" == a && "" + a == a
  {}

  lemma CommaLetters(st: State, st': State)
    requires st' == st.(curr := Flush(st.curr, st.tok), tok := "")
    ensures StateLetters(st') == StateLetters(st)
  {
    FlushLetters(st.curr, st.tok);
    var before := StackLetters(st.stack) + st.kind;
    assert StateLetters(st) == before + Letters(st.curr) + st.tok;
    assert StateLetters(st') == before + Letters(st'.curr) + "";
    hide *;
    Joined(before, Letters(st.curr), st.tok);
    Joined(before + Letters(st'.curr), "", "");
  }

  lemma OpenLetters(st: State, st': State)
    requires st' == State(st.stack + [(st.kind, st.curr)], [], "", st.tok)
    ensures StateLetters(st') == StateLetters(st)
  {
    StackLettersSnoc(st.stack, st.kind, st.curr);
    assert Letters([]) == "";
    assert StateLetters(st') == StackLetters(st'.stack) + st.tok + "" + "";
    assert StateLetters(st) == StackLetters(st'.stack) + st.tok;
    hide *;
    Joined(StackLetters(st'.stack) + st.tok, "", "");
  }

  lemma CloseLetters(st: State, st': State)
    requires st.stack != []
    requires var top := st.stack[|st.stack| - 1];
      st' == State(st.stack[..|st.stack| - 1], top.1 + [Manager(st.kind, Flush(st.curr, st.tok))], "", top.0)
    ensures StateLetters(st') == StateLetters(st)
  {
    var top := st.stack[|st.stack| - 1];
    var n := Manager(st.kind, Flush(st.curr, st.tok));
    LettersSnoc(top.1, n);
    FlushLetters(st.curr, st.tok);
    var below := StackLetters(st'.stack) + top.0;
    var inside := Letters(st.curr) + st.tok;
    assert StateLetters(st') == below + (Letters(top.1) + (st.kind + inside)) + "";
    assert StateLetters(st) == below + Letters(top.1) + st.kind + Letters(st.curr) + st.tok;
    hide *;
    Joined(below, Letters(top.1), st.kind + inside);
    Joined(below + Letters(top.1), st.kind, inside);
    Joined(below + Letters(top.1) + st.kind, Letters(st.curr), st.tok);
    Joined(StateLetters(st), "", "");
  }

  lemma NextLetters(st: State, c: char)
    requires Next(st, c).Some?
    ensures StateLetters(Next(st, c).value) == StateLetters(st) + (if c in ",()" then "" else [c])
  {
    var st' := Next(st, c).value;
    Joined(StateLetters(st), "", "");
    if c == ',' {
      CommaLetters(st, st');
    } else if c == '(' {
      OpenLetters(st, st');
    } else if c == ')' {
      CloseLetters(st, st');
    } else {
      Joined(StackLetters(st.stack) + st.kind + Letters(st.curr), st.tok, [c]);
      assert st'.tok == st.tok + [c];
    }
  }

  lemma {:induction false} RunLetters(s: string)
    requires Run(Some(State([], [], "", "")), s).Some?
    ensures StateLetters(Run(Some(State([], [], "", "")), s).value) == NoSeparators(s)
    decreases |s|
  {
    if s != "" {
      RunLetters(s[..|s| - 1]);
      NextLetters(Run(Some(State([], [], "", "")), s[..|s| - 1]).value, s[|s| - 1]);
      hide StateLetters, Next;
    }
  }

  /** Where all parentheses are closed, the names and kinds are what is between the separators, in order. */
  lemma ParseKeeps(s: string)
    requires FromStr(s).Some? && Depth(s) == 0
    ensures Letters(FromStr(s).value) == NoSeparators(s)
  {
    RunDepth(s);
    RunClean(s);
    RunLetters(s);
    var st := Run(Some(State([], [], "", "")), s).value;
    FlushLetters(st.curr, st.tok);
    hide Run, Letters, NoSeparators;
    assert "" + "" + Letters(st.curr) + st.tok == Letters(st.curr) + st.tok;
  }

  /** st is st2 within enclosing lists. */
  ghost predicate Within(base: seq<(string, Pipe)>, st: State, st2: State) {
    && |st.stack| == |base| + |st2.stack| && st.stack[..|base|] == base && st.curr == st2.curr && st.tok == st2.tok
    && (forall i :: 0 <= i < |st2.stack| ==>
          st.stack[|base|..][i].1 == st2.stack[i].1 && (i > 0 ==> st.stack[|base|..][i].0 == st2.stack[i].0))
    && (st2.stack != [] ==> st.kind == st2.kind)
  }

  lemma NextWithin(base: seq<(string, Pipe)>, st: State, st2: State, c: char)
    requires Within(base, st, st2) && Next(st2, c).Some?
    ensures Next(st, c).Some? && Within(base, Next(st, c).value, Next(st2, c).value)
  {
    if c == '(' {
      assert (st.stack + [(st.kind, st.curr)])[|base|..] == st.stack[|base|..] + [(st.kind, st.curr)];
    } else if c == ')' {
      var n := |st2.stack| - 1;
      assert st.stack[|base|..][n] == st.stack[|st.stack| - 1];
      assert st.stack[..|st.stack| - 1][|base|..] == st.stack[|base|..][..n];
    }
  }

  lemma {:induction false} RunWithin(base: seq<(string, Pipe)>, st: State, t: string)
    requires Within(base, st, State([], [], "", "")) && Run(Some(State([], [], "", "")), t).Some?
    ensures Run(Some(st), t).Some? && Within(base, Run(Some(st), t).value, Run(Some(State([], [], "", "")), t).value)
    decreases |t|
  {
    if t != "" {
      var front := t[..|t| - 1];
      RunWithin(base, st, front);
      NextWithin(base, Run(Some(st), front).value, Run(Some(State([], [], "", "")), front).value, t[|t| - 1]);
      hide Within, Next;
    }
  }

  /** What stands before a parenthesis that is never closed is dropped, and the parenthesis too. */
  lemma UnclosedDropped(s: string, t: string)
    requires FromStr(s).Some? && FromStr(t).Some?
    ensures FromStr(s + "(" + t) == FromStr(t)
  {
    var start := State([], [], "", "");
    var st := Run(Some(start), s).value;
    var inner := State(st.stack + [(st.kind, st.curr)], [], "", st.tok);
    assert Within(inner.stack, inner, start);
    hide Run, Next, Within;
    RunAppend(Some(start), s, "(");
    OpenNext(st);
    RunAppend(Some(start), s + "(", t);
    RunWithin(inner.stack, inner, t);
    WithinSame(inner.stack, Run(Some(inner), t).value, Run(Some(start), t).value);
  }

  lemma WithinSame(base: seq<(string, Pipe)>, st: State, st2: State)
    requires Within(base, st, st2)
    ensures st.curr == st2.curr && st.tok == st2.tok
  {}

  // ----- operations on pipelines -----

  /** What a node taken for a pass stands for. */
  datatype Item = Name(s: string) | Kids(kids: Pipe)

  function ItemOf(n: Node): Item
    requires !IsManager(n)
  {
    match n case Pass(name) => Name(name) case Manager(_, kids) => Kids(kids) case Loose(kids) => Kids(kids)
  }

  /** What is taken for passes, in order, managers forgotten. */
  function Flatten(p: Pipe): seq<Item>
    decreases p
  {
    if p == [] then []
    else
      var last := p[|p| - 1];
      Flatten(p[..|p| - 1]) + (if IsManager(last) then Flatten(last.kids) else [ItemOf(last)])
  }

  /** Only names are taken for passes. */
  predicate AllNames(f: seq<Item>) { forall i :: 0 <= i < |f| ==> f[i].Name? }

  lemma AllNamesAppend(f: seq<Item>, g: seq<Item>)
    ensures AllNames(f + g) <==> AllNames(f) && AllNames(g)
  {
    assert forall i :: 0 <= i < |f| ==> (f + g)[i] == f[i];
    assert forall i :: 0 <= i < |g| ==> (f + g)[|f| + i] == g[i];
  }

  /** They are the pipeline's passes exactly if every manager has a kind. */
  lemma {:induction false} FlatNames(p: Pipe)
    ensures AllNames(Flatten(p)) <==> Kinded(p)
    decreases p
  {
    if p != [] {
      var front, last := p[..|p| - 1], p[|p| - 1];
      FlatNames(front);
      FlattenLast(p);
      AllNamesAppend(Flatten(front), NodePasses(last));
      if IsManager(last) { FlatNames(last.kids); } else { assert NodePasses(last)[0] == ItemOf(last); }
    }
  }

  method Count(p: Pipe) returns (cnt: nat)
    ensures cnt == |Flatten(p)|
    decreases p
  {
    cnt := 0;
    for i := 0 to |p|
      invariant cnt == |Flatten(p[..i])|
    {
      assert p[..i + 1][..i] == p[..i];
      if IsManager(p[i]) {
        var n := Count(p[i].kids);
        cnt := cnt + n;
      } else {
        cnt := cnt + 1;
      }
    }
    assert p[..|p|] == p;
  }

  /** The managers with the passes up to splitIndex, and with the others; passes are numbered from idx. */
  function SplitFrom(src: Pipe, splitIndex: nat, idx: nat): (r: (Pipe, Pipe, nat))
    decreases src
  {
    if src == [] then ([], [], idx)
    else
      var last := src[|src| - 1];
      var (a, b, i) := SplitFrom(src[..|src| - 1], splitIndex, idx);
      if IsManager(last) then
        var (a2, b2, i2) := SplitFrom(last.kids, splitIndex, i);
        (a + [Manager(last.kind, a2)], b + [Manager(last.kind, b2)], i2)
      else if i <= splitIndex then (a + [AsPass(last)], b, i + 1)
      else (a, b + [AsPass(last)], i + 1)
  }

  method SplitInt(src: Pipe, splitIndex: nat, start: nat) returns (dstA: Pipe, dstB: Pipe, idx: nat)
    ensures (dstA, dstB, idx) == SplitFrom(src, splitIndex, start)
    decreases src
  {
    dstA, dstB, idx := [], [], start;
    for i := 0 to |src|
      invariant (dstA, dstB, idx) == SplitFrom(src[..i], splitIndex, start)
    {
      assert src[..i + 1][..i] == src[..i];
      if IsManager(src[i]) {
        var dstA2, dstB2;
        dstA2, dstB2, idx := SplitInt(src[i].kids, splitIndex, idx);
        dstA := dstA + [Manager(src[i].kind, dstA2)];
        dstB := dstB + [Manager(src[i].kind, dstB2)];
      } else {
        if idx <= splitIndex {
          dstA := dstA + [AsPass(src[i])];
        } else {
          dstB := dstB + [AsPass(src[i])];
        }
        idx := idx + 1;
      }
    }
    assert src[..|src|] == src;
  }

  function Min(a: int, b: int): int { if a < b then a else b }

  /** How many of len passes numbered from idx are kept in the first part. */
  function Kept(splitIndex: nat, idx: nat, len: nat): nat {
    if idx <= splitIndex then Min(splitIndex + 1 - idx, len) else 0
  }

  lemma KeptAppend(f: seq<Item>, g: seq<Item>, splitIndex: nat, idx: nat)
    ensures var n, n1 := Kept(splitIndex, idx, |f + g|), Kept(splitIndex, idx, |f|);
      var n2 := Kept(splitIndex, idx + |f|, |g|);
      (f + g)[..n] == f[..n1] + g[..n2] && (f + g)[n..] == f[n1..] + g[n2..]
  {}

  /** The passes of one node. */
  function NodePasses(n: Node): seq<Item> { if IsManager(n) then Flatten(n.kids) else [ItemOf(n)] }

  lemma FlattenLast(p: Pipe)
    requires p != []
    ensures Flatten(p) == Flatten(p[..|p| - 1]) + NodePasses(p[|p| - 1])
  {}

  /** One more node, cut where it stands. */
  lemma SplitSnoc(src: Pipe, splitIndex: nat, idx: nat)
    requires src != []
    ensures var (a, b, i) := SplitFrom(src[..|src| - 1], splitIndex, idx);
      var (a', b', i') := SplitFrom(src, splitIndex, idx);
      var last := src[|src| - 1];
      if IsManager(last) then
        var (a2, b2, i2) := SplitFrom(last.kids, splitIndex, i);
        i' == i2 && a' == a + [Manager(last.kind, a2)] && b' == b + [Manager(last.kind, b2)]
      else
        i' == i + 1 && if i <= splitIndex then a' == a + [AsPass(last)] && b' == b
          else a' == a && b' == b + [AsPass(last)]
  {}

  lemma {:induction false} SplitFromFlat(src: Pipe, splitIndex: nat, idx: nat)
    ensures var (a, b, i) := SplitFrom(src, splitIndex, idx); var f := Flatten(src);
      var n := Kept(splitIndex, idx, |f|);
      i == idx + |f| && Flatten(a) == f[..n] && Flatten(b) == f[n..]
    decreases src
  {
    if src != [] {
      var front, last := src[..|src| - 1], src[|src| - 1];
      SplitFromFlat(front, splitIndex, idx);
      if IsManager(last) { SplitFromFlat(last.kids, splitIndex, SplitFrom(front, splitIndex, idx).2); }
      SplitSnoc(src, splitIndex, idx);
      FlattenLast(src);
      hide SplitFrom, Flatten;
      var (a, b, i) := SplitFrom(front, splitIndex, idx);
      KeptAppend(Flatten(front), NodePasses(last), splitIndex, idx);
      if IsManager(last) {
        hide Kept;
        FlattenSnoc(a, Manager(last.kind, SplitFrom(last.kids, splitIndex, i).0));
        FlattenSnoc(b, Manager(last.kind, SplitFrom(last.kids, splitIndex, i).1));
      } else {
        FlattenSnoc(a, AsPass(last));
        FlattenSnoc(b, AsPass(last));
      }
    }
  }

  lemma FlattenSnoc(p: Pipe, n: Node)
    ensures Flatten(p + [n]) == Flatten(p) + NodePasses(n)
  {
    assert (p + [n])[..|p|] == p;
  }

  /** Splitting cuts the list of passes after the one with the given index. */
  method Split(p: Pipe, splitIndex: nat) returns (listA: Pipe, listB: Pipe)
    ensures (listA, listB) == (SplitFrom(p, splitIndex, 0).0, SplitFrom(p, splitIndex, 0).1)
    ensures var n := Min(splitIndex + 1, |Flatten(p)|);
      Flatten(listA) == Flatten(p)[..n] && Flatten(listB) == Flatten(p)[n..]
  {
    var idx;
    listA, listB, idx := SplitInt(p, splitIndex, 0);
    SplitFromFlat(p, splitIndex, 0);
  }

  function RemoveFrom(src: Pipe, removeIndex: nat, idx: nat): (Pipe, nat)
    decreases src
  {
    if src == [] then ([], idx)
    else
      var last := src[|src| - 1];
      var (d, i) := RemoveFrom(src[..|src| - 1], removeIndex, idx);
      if IsManager(last) then
        var (d2, i2) := RemoveFrom(last.kids, removeIndex, i);
        (d + [Manager(last.kind, d2)], i2)
      else (if i != removeIndex then d + [AsPass(last)] else d, i + 1)
  }

  method RemoveInt(src: Pipe, removeIndex: nat, start: nat) returns (dst: Pipe, idx: nat)
    ensures (dst, idx) == RemoveFrom(src, removeIndex, start)
    decreases src
  {
    dst, idx := [], start;
    for i := 0 to |src|
      invariant (dst, idx) == RemoveFrom(src[..i], removeIndex, start)
    {
      assert src[..i + 1][..i] == src[..i];
      if IsManager(src[i]) {
        var dst2;
        dst2, idx := RemoveInt(src[i].kids, removeIndex, idx);
        dst := dst + [Manager(src[i].kind, dst2)];
      } else {
        if idx != removeIndex { dst := dst + [AsPass(src[i])]; }
        idx := idx + 1;
      }
    }
    assert src[..|src|] == src;
  }

  /** A list without its element at a position, if it has one there. */
  function Without(f: seq<Item>, i: int): seq<Item> { if 0 <= i < |f| then f[..i] + f[i + 1..] else f }

  lemma WithoutAppend(f: seq<Item>, g: seq<Item>, i: int)
    ensures Without(f + g, i) == if i < |f| then Without(f, i) + g else f + Without(g, i - |f|)
  {}

  lemma RemoveSnoc(src: Pipe, removeIndex: nat, idx: nat)
    requires src != []
    ensures var (d, i) := RemoveFrom(src[..|src| - 1], removeIndex, idx);
      var (d', i') := RemoveFrom(src, removeIndex, idx);
      var last := src[|src| - 1];
      if IsManager(last) then
        var (d2, i2) := RemoveFrom(last.kids, removeIndex, i);
        i' == i2 && d' == d + [Manager(last.kind, d2)]
      else
        i' == i + 1 && d' == if i != removeIndex then d + [AsPass(last)] else d
  {}

  lemma WithoutOnly(x: Item, i: int)
    ensures Without([x], i) == if i == 0 then [] else [x]
  {}

  lemma PassesKept(n: Node, kids: Pipe)
    ensures !IsManager(n) ==> NodePasses(AsPass(n)) == NodePasses(n) == [ItemOf(n)]
    ensures IsManager(n) ==> NodePasses(n) == Flatten(n.kids) && NodePasses(Manager(n.kind, kids)) == Flatten(kids)
  {}

  ghost predicate RemovesAt(src: Pipe, removeIndex: nat, idx: nat, r: (Pipe, nat)) {
    r.1 == idx + |Flatten(src)| && Flatten(r.0) == Without(Flatten(src), removeIndex - idx)
  }

  lemma {:induction false} RemoveFromFlat(src: Pipe, removeIndex: nat, idx: nat)
    ensures RemovesAt(src, removeIndex, idx, RemoveFrom(src, removeIndex, idx))
    decreases src
  {
    if src != [] {
      var front, last := src[..|src| - 1], src[|src| - 1];
      var (d, i) := RemoveFrom(front, removeIndex, idx);
      RemoveFromFlat(front, removeIndex, idx);
      RemoveSnoc(src, removeIndex, idx);
      FlattenLast(src);
      WithoutAppend(Flatten(front), NodePasses(last), removeIndex - idx);
      if IsManager(last) {
        var d2 := RemoveFrom(last.kids, removeIndex, i).0;
        RemoveFromFlat(last.kids, removeIndex, i);
        PassesKept(last, d2);
        FlattenSnoc(d, Manager(last.kind, d2));
        hide RemoveFrom, Flatten, NodePasses;
      } else {
        PassesKept(last, []);
        FlattenSnoc(d, AsPass(last));
        WithoutOnly(ItemOf(last), removeIndex - i);
        hide RemoveFrom, Flatten, NodePasses;
      }
    }
  }

  function Removed(p: Pipe, removeIndex: nat): Pipe { RemoveFrom(p, removeIndex, 0).0 }

  /** Removing deletes exactly the pass with the given index. */
  method Remove(p: Pipe, removeIndex: nat) returns (dst: Pipe)
    ensures dst == Removed(p, removeIndex) && Flatten(dst) == Without(Flatten(p), removeIndex)
  {
    var idx;
    dst, idx := RemoveInt(p, removeIndex, 0);
    RemoveFromFlat(p, removeIndex, 0);
  }

  function Copied(src: Pipe): Pipe
    decreases src
  {
    if src == [] then []
    else
      var last := src[|src| - 1];
      Copied(src[..|src| - 1]) + [if IsManager(last) then Manager(last.kind, Copied(last.kids)) else AsPass(last)]
  }

  method Copy(src: Pipe) returns (dst: Pipe)
    ensures dst == Copied(src)
    decreases src
  {
    dst := [];
    for i := 0 to |src|
      invariant dst == Copied(src[..i])
    {
      assert src[..i + 1][..i] == src[..i];
      if IsManager(src[i]) {
        var dst2 := Copy(src[i].kids);
        dst := dst + [Manager(src[i].kind, dst2)];
      } else {
        dst := dst + [AsPass(src[i])];
      }
    }
    assert src[..|src|] == src;
  }

  /** No list with an empty kind stands where an operation looks. */
  predicate NoEmptyKind(p: Pipe)
    decreases p
  {
    p == [] || (NoEmptyKind(p[..|p| - 1]) && NoEmptyKindNode(p[|p| - 1]))
  }

  predicate NoEmptyKindNode(n: Node)
    decreases n
  {
    if IsManager(n) then NoEmptyKind(n.kids) else !n.Manager?
  }

  lemma {:induction false} KindedNoEmptyKind(p: Pipe)
    requires Kinded(p)
    ensures NoEmptyKind(p)
    decreases p
  {
    if p != [] {
      var last := p[|p| - 1];
      KindedNoEmptyKind(p[..|p| - 1]);
      if IsManager(last) { KindedNoEmptyKind(last.kids); }
    }
  }

  /** A copy is equal exactly if there is none. */
  lemma {:induction false} CopyEqual(p: Pipe)
    ensures |Copied(p)| == |p| && (Copied(p) == p <==> NoEmptyKind(p))
    decreases p
  {
    if p != [] {
      var front, last := p[..|p| - 1], p[|p| - 1];
      CopyEqual(front);
      if IsManager(last) { CopyEqual(last.kids); }
      assert p == front + [last];
      assert Copied(p)[..|front|] == Copied(front);
    }
  }

  function Pruned(src: Pipe): Pipe
    decreases src
  {
    if src == [] then [] else Pruned(src[..|src| - 1]) + PrunedNode(src[|src| - 1])
  }

  function PrunedNode(n: Node): Pipe
    decreases n
  {
    if !IsManager(n) then [AsPass(n)] else if Flatten(n.kids) == [] then [] else [Manager(n.kind, Pruned(n.kids))]
  }

  method Prune(src: Pipe) returns (dst: Pipe)
    ensures dst == Pruned(src)
    decreases src
  {
    dst := [];
    for i := 0 to |src|
      invariant dst == Pruned(src[..i])
    {
      assert src[..i + 1][..i] == src[..i];
      if IsManager(src[i]) {
        var n := Count(src[i].kids);
        if n != 0 {
          var dst2 := Prune(src[i].kids);
          dst := dst + [Manager(src[i].kind, dst2)];
        }
      } else {
        dst := dst + [AsPass(src[i])];
      }
    }
    assert src[..|src|] == src;
  }

  /** Every manager, at any depth, has a pass somewhere inside. */
  predicate NoEmptyManager(p: Pipe)
    decreases p
  {
    p == [] || (NoEmptyManager(p[..|p| - 1]) && NoEmptyManagerNode(p[|p| - 1]))
  }

  predicate NoEmptyManagerNode(n: Node)
    decreases n
  {
    !IsManager(n) || (Flatten(n.kids) != [] && NoEmptyManager(n.kids))
  }

  lemma PrunedSnoc(p: Pipe, n: Node)
    requires NoEmptyManager(p) && NoEmptyKind(p) && NoEmptyManagerNode(n) && NoEmptyKindNode(n)
    ensures NoEmptyManager(p + [n]) && NoEmptyKind(p + [n])
  {
    assert (p + [n])[..|p|] == p;
  }

  /** Pruning keeps what is taken for passes, and leaves no empty manager and no empty kind. */
  lemma {:induction false} PruneKeeps(p: Pipe)
    ensures Flatten(Pruned(p)) == Flatten(p) && NoEmptyManager(Pruned(p)) && NoEmptyKind(Pruned(p))
    decreases p
  {
    if p != [] {
      var front, last := p[..|p| - 1], p[|p| - 1];
      PruneKeeps(front);
      FlattenLast(p);
      if !IsManager(last) {
        FlattenSnoc(Pruned(front), AsPass(last));
        PrunedSnoc(Pruned(front), AsPass(last));
      } else if Flatten(last.kids) == [] {
        assert Pruned(p) == Pruned(front);
      } else {
        PruneKeeps(last.kids);
        FlattenSnoc(Pruned(front), Manager(last.kind, Pruned(last.kids)));
        PrunedSnoc(Pruned(front), Manager(last.kind, Pruned(last.kids)));
      }
    }
  }

  /** Pruning changes exactly the pipelines that have an empty manager or an empty kind. */
  lemma PruneFixes(p: Pipe)
    ensures Pruned(p) == p <==> NoEmptyManager(p) && NoEmptyKind(p)
  {
    PruneKeeps(p);
    if NoEmptyManager(p) && NoEmptyKind(p) { AlreadyPruned(p); }
  }

  lemma {:induction false} AlreadyPruned(p: Pipe)
    requires NoEmptyManager(p) && NoEmptyKind(p)
    ensures Pruned(p) == p
    decreases p
  {
    if p != [] {
      hide Flatten;
      var front, last := p[..|p| - 1], p[|p| - 1];
      AlreadyPruned(front);
      if IsManager(last) { AlreadyPruned(last.kids); }
      assert p == front + [last];
    }
  }

  lemma PruneIdempotent(p: Pipe)
    ensures Pruned(Pruned(p)) == Pruned(p)
  {
    PruneKeeps(p);
    PruneFixes(Pruned(p));
  }

  // ----- where the passes and the managers stand -----

  /** What is taken for passes, each with the kinds of the managers around it, outermost first. */
  function Chains(p: Pipe, above: seq<string>): seq<(seq<string>, Item)>
    decreases p
  {
    if p == [] then [] else Chains(p[..|p| - 1], above) + NodeChains(p[|p| - 1], above)
  }

  function NodeChains(n: Node, above: seq<string>): seq<(seq<string>, Item)>
    decreases n
  {
    if IsManager(n) then Chains(n.kids, above + [n.kind]) else [(above, ItemOf(n))]
  }

  /** A manager: the kinds down to its own, and the passes it holds, numbered in the whole pipeline. */
  datatype Span = Span(chain: seq<string>, lo: nat, hi: nat)

  /** The managers, each before those inside it; passes are numbered from lo. */
  function Spans(p: Pipe, above: seq<string>, lo: nat): seq<Span>
    decreases p
  {
    if p == [] then []
    else Spans(p[..|p| - 1], above, lo) + NodeSpans(p[|p| - 1], above, lo + |Flatten(p[..|p| - 1])|)
  }

  function NodeSpans(n: Node, above: seq<string>, lo: nat): seq<Span>
    decreases n
  {
    if IsManager(n)
    then [Span(above + [n.kind], lo, lo + |Flatten(n.kids)|)] + Spans(n.kids, above + [n.kind], lo)
    else []
  }

  lemma ChainsSnoc(p: Pipe, n: Node, above: seq<string>)
    ensures Chains(p + [n], above) == Chains(p, above) + NodeChains(n, above)
  {
    assert (p + [n])[..|p|] == p;
  }

  lemma SpansSnoc(p: Pipe, n: Node, above: seq<string>, lo: nat)
    ensures Spans(p + [n], above, lo) == Spans(p, above, lo) + NodeSpans(n, above, lo + |Flatten(p)|)
  {
    assert (p + [n])[..|p|] == p;
  }

  /** The managers that hold a pass. */
  function Holding(ss: seq<Span>): seq<Span> {
    if ss == [] then []
    else Holding(ss[..|ss| - 1]) + (if ss[|ss| - 1].lo < ss[|ss| - 1].hi then [ss[|ss| - 1]] else [])
  }

  lemma {:induction false} HoldingAppend(s: seq<Span>, t: seq<Span>)
    ensures Holding(s + t) == Holding(s) + Holding(t)
    decreases |t|
  {
    if t == [] {
      assert s + t == s;
    } else {
      assert (s + t)[..|s + t| - 1] == s + t[..|t| - 1];
      HoldingAppend(s, t[..|t| - 1]);
    }
  }

  lemma HoldingOne(x: Span)
    ensures Holding([x]) == if x.lo < x.hi then [x] else []
  {
    assert [x][..0] == [];
  }

  lemma PlacesLast(p: Pipe, above: seq<string>, lo: nat)
    requires p != []
    ensures var front, last := p[..|p| - 1], p[|p| - 1];
      && Chains(p, above) == Chains(front, above) + NodeChains(last, above)
      && Spans(p, above, lo) == Spans(front, above, lo) + NodeSpans(last, above, lo + |Flatten(front)|)
  {
    hide NodeChains, NodeSpans, Flatten;
  }

  lemma NodePlaces(n: Node, above: seq<string>, lo: nat)
    ensures !IsManager(n) ==>
      NodePasses(n) == [ItemOf(n)] && NodeChains(n, above) == [(above, ItemOf(n))] && NodeSpans(n, above, lo) == []
    ensures IsManager(n) ==>
      && NodePasses(n) == Flatten(n.kids) && NodeChains(n, above) == Chains(n.kids, above + [n.kind])
      && NodeSpans(n, above, lo)
           == [Span(above + [n.kind], lo, lo + |Flatten(n.kids)|)] + Spans(n.kids, above + [n.kind], lo)
  {
    hide Chains, Spans, Flatten;
  }

  lemma NoPlaces(p: Pipe, above: seq<string>, lo: nat)
    requires p == []
    ensures Chains(p, above) == [] && Spans(p, above, lo) == [] && Flatten(p) == []
  {}

  lemma OneNode(n: Node, above: seq<string>, lo: nat)
    ensures Chains([n], above) == NodeChains(n, above) && Spans([n], above, lo) == NodeSpans(n, above, lo)
  {
    assert [n][..0] == [];
    PlacesLast([n], above, lo);
    NoPlaces([], above, lo);
    hide *;
    assert [] + NodeChains(n, above) == NodeChains(n, above);
    assert [] + NodeSpans(n, above, lo) == NodeSpans(n, above, lo);
  }

  /** A manager that holds none: all that are inside it hold none either. */
  lemma {:induction false} NoneHolding(p: Pipe, above: seq<string>, lo: nat)
    requires Flatten(p) == []
    ensures Chains(p, above) == [] && Holding(Spans(p, above, lo)) == []
    decreases p
  {
    if p == [] {
      NoPlaces(p, above, lo);
    } else {
      hide *;
      var front, last := p[..|p| - 1], p[|p| - 1];
      FlattenLast(p);
      NodePlaces(last, above, lo);
      PlacesLast(p, above, lo);
      NoneHolding(front, above, lo);
      if IsManager(last) {
        var chain := above + [last.kind];
        var x := Span(chain, lo, lo);
        NoneHolding(last.kids, chain, lo);
        HoldingOne(x);
        HoldingAppend([x], Spans(last.kids, chain, lo));
        HoldingAppend(Spans(front, above, lo), NodeSpans(last, above, lo));
      }
    }
  }

  /** Pruning keeps every pass inside the managers it was in, and of the managers exactly those that hold a pass. */
  lemma {:induction false} PruneStays(p: Pipe, above: seq<string>, lo: nat)
    ensures Chains(Pruned(p), above) == Chains(p, above)
    ensures Spans(Pruned(p), above, lo) == Holding(Spans(p, above, lo))
    decreases p
  {
    hide *;
    if p == [] {
      PrunedNone();
      NoPlaces(p, above, lo);
      HoldingNone();
    } else {
      PruneStays(p[..|p| - 1], above, lo);
      PruneNodeStays(p[|p| - 1], above, lo + |Flatten(p[..|p| - 1])|);
      PruneLastStays(p, above, lo);
    }
  }

  lemma PruneLastStays(p: Pipe, above: seq<string>, lo: nat)
    requires p != []
    requires var front, last := p[..|p| - 1], p[|p| - 1]; var m := lo + |Flatten(front)|;
      && Chains(Pruned(front), above) == Chains(front, above)
      && Spans(Pruned(front), above, lo) == Holding(Spans(front, above, lo))
      && Chains(PrunedNode(last), above) == NodeChains(last, above)
      && Spans(PrunedNode(last), above, m) == Holding(NodeSpans(last, above, m))
    ensures Chains(Pruned(p), above) == Chains(p, above)
    ensures Spans(Pruned(p), above, lo) == Holding(Spans(p, above, lo))
  {
    hide *;
    var front, last := p[..|p| - 1], p[|p| - 1];
    PruneKeeps(front);
    PlacesLast(p, above, lo);
    HoldingAppend(Spans(front, above, lo), NodeSpans(last, above, lo + |Flatten(front)|));
    PruneStep(p, above, lo);
  }

  lemma PrunedNone()
    ensures Pruned([]) == []
  {}

  lemma HoldingNone()
    ensures Holding([]) == []
  {}

  lemma PrunedLast(p: Pipe)
    requires p != []
    ensures Pruned(p) == Pruned(p[..|p| - 1]) + PrunedNode(p[|p| - 1])
  {
    hide PrunedNode;
  }

  lemma PrunedNodeIs(n: Node)
    ensures PrunedNode(n) ==
      if !IsManager(n) then [AsPass(n)] else if Flatten(n.kids) == [] then [] else [Manager(n.kind, Pruned(n.kids))]
  {
    hide Pruned, Flatten;
  }

  /** A pruned node is no node or one. */
  lemma PruneStep(p: Pipe, above: seq<string>, lo: nat)
    requires p != [] && Flatten(Pruned(p[..|p| - 1])) == Flatten(p[..|p| - 1])
    ensures var front, last := p[..|p| - 1], p[|p| - 1]; var ns := PrunedNode(last);
      && Chains(Pruned(p), above) == Chains(Pruned(front), above) + Chains(ns, above)
      && Spans(Pruned(p), above, lo) == Spans(Pruned(front), above, lo) + Spans(ns, above, lo + |Flatten(front)|)
  {
    hide *;
    var front, last := p[..|p| - 1], p[|p| - 1];
    var ns := PrunedNode(last);
    PrunedLast(p);
    PrunedNodeIs(last);
    if ns == [] {
      NoPlaces([], above, lo + |Flatten(front)|);
      assert Pruned(p) == Pruned(front);
    } else {
      var n := ns[0];
      assert ns == [n];
      ChainsSnoc(Pruned(front), n, above);
      SpansSnoc(Pruned(front), n, above, lo);
      OneNode(n, above, lo + |Flatten(front)|);
    }
  }

  lemma {:induction false} PruneNodeStays(n: Node, above: seq<string>, lo: nat)
    ensures Chains(PrunedNode(n), above) == NodeChains(n, above)
    ensures Spans(PrunedNode(n), above, lo) == Holding(NodeSpans(n, above, lo))
    decreases n
  {
    hide *;
    PrunedNodeIs(n);
    NodePlaces(n, above, lo);
    if IsManager(n) {
      IsManagerToo(n, []);
      var chain := above + [n.kind];
      var x := Span(chain, lo, lo + |Flatten(n.kids)|);
      HoldingOne(x);
      HoldingAppend([x], Spans(n.kids, chain, lo));
      if Flatten(n.kids) == [] {
        NoneHolding(n.kids, chain, lo);
        NoPlaces([], above, lo);
      } else {
        PruneStays(n.kids, chain, lo);
        PruneKeeps(n.kids);
        var n' := Manager(n.kind, Pruned(n.kids));
        IsManagerToo(n, Pruned(n.kids));
        OneNode(n', above, lo);
        NodePlaces(n', above, lo);
      }
    } else {
      HoldingNone();
      PassToo(n);
      OneNode(AsPass(n), above, lo);
      NodePlaces(AsPass(n), above, lo);
    }
  }

  lemma IsManagerToo(n: Node, kids: Pipe)
    requires IsManager(n)
    ensures n.Manager? && IsManager(Manager(n.kind, kids))
  {}

  lemma PassToo(n: Node)
    requires !IsManager(n)
    ensures !IsManager(AsPass(n)) && ItemOf(AsPass(n)) == ItemOf(n)
  {}

  lemma {:induction false} ChainsFlat(p: Pipe, above: seq<string>)
    ensures |Chains(p, above)| == |Flatten(p)|
    ensures forall i :: 0 <= i < |Flatten(p)| ==> Chains(p, above)[i].1 == Flatten(p)[i]
    decreases p
  {
    if p == [] {
      NoPlaces(p, above, 0);
    } else {
      hide *;
      var last := p[|p| - 1];
      ChainsFlat(p[..|p| - 1], above);
      FlattenLast(p);
      PlacesLast(p, above, 0);
      NodePlaces(last, above, 0);
      if IsManager(last) { ChainsFlat(last.kids, above + [last.kind]); }
    }
  }

  // ----- choosing passes by their numbers -----

  /** All managers, and the passes whose numbers are kept; passes are numbered from idx. */
  function Filtered(p: Pipe, keep: nat -> bool, idx: nat): Pipe
    decreases p
  {
    if p == [] then []
    else Filtered(p[..|p| - 1], keep, idx) + FilteredNode(p[|p| - 1], keep, idx + |Flatten(p[..|p| - 1])|)
  }

  function FilteredNode(n: Node, keep: nat -> bool, idx: nat): Pipe
    decreases n
  {
    if IsManager(n) then [Manager(n.kind, Filtered(n.kids, keep, idx))] else if keep(idx) then [AsPass(n)] else []
  }

  /** How many numbers below n are kept. */
  function Rank(keep: nat -> bool, n: nat): nat {
    if n == 0 then 0 else Rank(keep, n - 1) + (if keep(n - 1) then 1 else 0)
  }

  function Select<T>(xs: seq<T>, keep: nat -> bool, idx: nat): seq<T> {
    if xs == [] then []
    else Select(xs[..|xs| - 1], keep, idx) + (if keep(idx + |xs| - 1) then [xs[|xs| - 1]] else [])
  }

  lemma {:induction false} SelectAppend<T>(xs: seq<T>, ys: seq<T>, keep: nat -> bool, idx: nat)
    ensures Select(xs + ys, keep, idx) == Select(xs, keep, idx) + Select(ys, keep, idx + |xs|)
    decreases |ys|
  {
    if ys == [] {
      assert xs + ys == xs;
    } else {
      assert (xs + ys)[..|xs + ys| - 1] == xs + ys[..|ys| - 1];
      SelectAppend(xs, ys[..|ys| - 1], keep, idx);
    }
  }

  lemma SelectOne<T>(x: T, keep: nat -> bool, idx: nat)
    ensures Select([x], keep, idx) == if keep(idx) then [x] else []
  {
    assert [x][..0] == [];
  }

  /** Managers after their passes have been given other numbers. */
  function Renumbered(ss: seq<Span>, f: nat -> nat): seq<Span> {
    seq(|ss|, i requires 0 <= i < |ss| => Span(ss[i].chain, f(ss[i].lo), f(ss[i].hi)))
  }

  function Ranks(keep: nat -> bool): nat -> nat { n => Rank(keep, n) }

  lemma RenumberedAppend(s: seq<Span>, t: seq<Span>, f: nat -> nat)
    ensures Renumbered(s + t, f) == Renumbered(s, f) + Renumbered(t, f)
  {}

  lemma FilteredLast(p: Pipe, keep: nat -> bool, idx: nat)
    requires p != []
    ensures Filtered(p, keep, idx)
      == Filtered(p[..|p| - 1], keep, idx) + FilteredNode(p[|p| - 1], keep, idx + |Flatten(p[..|p| - 1])|)
  {
    hide FilteredNode, Flatten;
  }

  lemma FilteredNodeIs(n: Node, keep: nat -> bool, idx: nat)
    ensures FilteredNode(n, keep, idx) ==
      if IsManager(n) then [Manager(n.kind, Filtered(n.kids, keep, idx))] else if keep(idx) then [AsPass(n)] else []
  {
    hide Filtered;
  }

  lemma FilteredNone(keep: nat -> bool, idx: nat)
    ensures Filtered([], keep, idx) == [] && Select<(seq<string>, Item)>([], keep, idx) == []
    ensures Renumbered([], Ranks(keep)) == []
  {}

  lemma RankNext(keep: nat -> bool, n: nat)
    ensures Rank(keep, n + 1) == Rank(keep, n) + (if keep(n) then 1 else 0) && Ranks(keep)(n) == Rank(keep, n)
  {}

  lemma RenumberedOne(x: Span, f: nat -> nat)
    ensures Renumbered([x], f) == [Span(x.chain, f(x.lo), f(x.hi))]
  {}

  /** What is to be shown of a list of nodes, ns after filtering. */
  ghost predicate FilterKeeps(chains: seq<(seq<string>, Item)>, spans: seq<Span>, len: nat, keep: nat -> bool,
                              above: seq<string>, idx: nat, ns: Pipe) {
    && Chains(ns, above) == Select(chains, keep, idx)
    && Spans(ns, above, Rank(keep, idx)) == Renumbered(spans, Ranks(keep))
    && Rank(keep, idx) + |Flatten(ns)| == Rank(keep, idx + len)
  }

  lemma {:induction false} FilterStays(p: Pipe, keep: nat -> bool, above: seq<string>, idx: nat)
    ensures FilterKeeps(Chains(p, above), Spans(p, above, idx), |Flatten(p)|, keep, above, idx, Filtered(p, keep, idx))
    decreases p
  {
    hide *;
    if p == [] {
      NothingKept(p, keep, above, idx);
    } else {
      FilterStays(p[..|p| - 1], keep, above, idx);
      FilterNodeStays(p[|p| - 1], keep, above, idx + |Flatten(p[..|p| - 1])|);
      FilterLastStays(p, keep, above, idx);
    }
  }

  lemma NothingKept(p: Pipe, keep: nat -> bool, above: seq<string>, idx: nat)
    requires p == []
    ensures FilterKeeps(Chains(p, above), Spans(p, above, idx), |Flatten(p)|, keep, above, idx, Filtered(p, keep, idx))
  {
    FilteredNone(keep, idx);
    NoPlaces(p, above, idx);
    NoPlaces(p, above, Rank(keep, idx));
  }

  lemma FilterLastStays(p: Pipe, keep: nat -> bool, above: seq<string>, idx: nat)
    requires p != []
    requires var front, last := p[..|p| - 1], p[|p| - 1]; var m := idx + |Flatten(front)|;
      && FilterKeeps(Chains(front, above), Spans(front, above, idx), |Flatten(front)|, keep, above, idx,
                     Filtered(front, keep, idx))
      && FilterKeeps(NodeChains(last, above), NodeSpans(last, above, m), |NodePasses(last)|, keep, above, m,
                     FilteredNode(last, keep, m))
    ensures FilterKeeps(Chains(p, above), Spans(p, above, idx), |Flatten(p)|, keep, above, idx, Filtered(p, keep, idx))
  {
    hide *;
    var front, last := p[..|p| - 1], p[|p| - 1];
    var m := idx + |Flatten(front)|;
    ChainsFlat(front, above);
    PlacesLast(p, above, idx);
    FlattenLast(p);
    FilteredLast(p, keep, idx);
    FilteredNodeIs(last, keep, m);
    FilterJoin(Chains(front, above), Spans(front, above, idx), NodeChains(last, above), NodeSpans(last, above, m),
               |NodePasses(last)|, keep, above, idx, Filtered(front, keep, idx), FilteredNode(last, keep, m));
  }

  lemma FilterJoin(chains: seq<(seq<string>, Item)>, spans: seq<Span>, chains': seq<(seq<string>, Item)>,
                   spans': seq<Span>, len: nat, keep: nat -> bool, above: seq<string>, idx: nat, ns: Pipe, ns': Pipe)
    requires |ns'| <= 1 && FilterKeeps(chains, spans, |chains|, keep, above, idx, ns)
    requires FilterKeeps(chains', spans', len, keep, above, idx + |chains|, ns')
    ensures FilterKeeps(chains + chains', spans + spans', |chains| + len, keep, above, idx, ns + ns')
  {
    hide Chains, Spans, Select, Renumbered, Rank, Flatten;
    SelectAppend(chains, chains', keep, idx);
    RenumberedAppend(spans, spans', Ranks(keep));
    if ns' == [] {
      assert ns + ns' == ns;
      NoPlaces(ns', above, Rank(keep, idx + |chains|));
    } else {
      var n := ns'[0];
      assert ns' == [n];
      OneNode(n, above, Rank(keep, idx + |chains|));
      ChainsSnoc(ns, n, above);
      SpansSnoc(ns, n, above, Rank(keep, idx));
      FlattenSnoc(ns, n);
      FlattenSnoc([], n);
      NoPlaces([], above, 0);
      assert [] + [n] == [n];
    }
  }

  lemma {:induction false} FilterNodeStays(n: Node, keep: nat -> bool, above: seq<string>, idx: nat)
    ensures FilterKeeps(NodeChains(n, above), NodeSpans(n, above, idx), |NodePasses(n)|, keep, above, idx,
                        FilteredNode(n, keep, idx))
    decreases n
  {
    hide Chains, Spans, Select, Renumbered, Rank, Flatten, Filtered, FilteredNode, NodeChains, NodeSpans, NodePasses;
    NodePlaces(n, above, idx);
    FilteredNodeIs(n, keep, idx);
    var r := Rank(keep, idx);
    if IsManager(n) {
      var chain := above + [n.kind];
      var n' := Manager(n.kind, Filtered(n.kids, keep, idx));
      FilterStays(n.kids, keep, chain, idx);
      OneNode(n', above, r);
      NodePlaces(n', above, r);
      OneNodeFlat(n');
      var x := Span(chain, idx, idx + |Flatten(n.kids)|);
      RenumberedAppend([x], Spans(n.kids, chain, idx), Ranks(keep));
      RenumberedOne(x, Ranks(keep));
      RankNext(keep, x.lo);
      RankNext(keep, x.hi);
    } else {
      RankNext(keep, idx);
      SelectOne((above, ItemOf(n)), keep, idx);
      FilteredNone(keep, idx);
      OneNode(AsPass(n), above, r);
      NodePlaces(AsPass(n), above, r);
      OneNodeFlat(AsPass(n));
      PassToo(n);
      NoPlaces([], above, r);
    }
  }

  lemma OneNodeFlat(n: Node)
    ensures Flatten([n]) == NodePasses(n)
  {
    FlattenSnoc([], n);
    assert [] + [n] == [n];
  }

  // ----- splitting and removing choose passes -----

  function Upto(i: nat): nat -> bool { n => n <= i }

  function After(i: nat): nat -> bool { n => n > i }

  function Except(i: nat): nat -> bool { n => n != i }

  lemma SplitLastFilters(p: Pipe, i: nat, idx: nat)
    requires p != []
    requires var front, last := p[..|p| - 1], p[|p| - 1]; var m := idx + |Flatten(front)|;
      && SplitFrom(front, i, idx).0 == Filtered(front, Upto(i), idx)
      && SplitFrom(front, i, idx).1 == Filtered(front, After(i), idx) && SplitFrom(front, i, idx).2 == m
      && (IsManager(last) ==>
            && SplitFrom(last.kids, i, m).0 == Filtered(last.kids, Upto(i), m)
            && SplitFrom(last.kids, i, m).1 == Filtered(last.kids, After(i), m))
    ensures SplitFrom(p, i, idx).0 == Filtered(p, Upto(i), idx) && SplitFrom(p, i, idx).1 == Filtered(p, After(i), idx)
  {
    hide SplitFrom, Filtered, FilteredNode, Flatten;
    var last, m := p[|p| - 1], idx + |Flatten(p[..|p| - 1])|;
    SplitSnoc(p, i, idx);
    FilteredLast(p, Upto(i), idx);
    FilteredLast(p, After(i), idx);
    FilteredNodeIs(last, Upto(i), m);
    FilteredNodeIs(last, After(i), m);
  }

  lemma {:induction false} SplitFilters(p: Pipe, i: nat, idx: nat)
    ensures SplitFrom(p, i, idx).0 == Filtered(p, Upto(i), idx) && SplitFrom(p, i, idx).1 == Filtered(p, After(i), idx)
    decreases p
  {
    if p != [] {
      var front, last := p[..|p| - 1], p[|p| - 1];
      SplitFromFlat(front, i, idx);
      hide *;
      SplitFilters(front, i, idx);
      IsManagerKids(last);
      if IsManager(last) { SplitFilters(last.kids, i, idx + |Flatten(front)|); }
      SplitLastFilters(p, i, idx);
    }
  }

  lemma IsManagerKids(n: Node)
    ensures IsManager(n) ==> n.Manager?
  {}

  lemma {:induction false} RemoveFilters(p: Pipe, i: nat, idx: nat)
    ensures RemoveFrom(p, i, idx).0 == Filtered(p, Except(i), idx)
    decreases p
  {
    if p != [] {
      var front, last := p[..|p| - 1], p[|p| - 1];
      var m := idx + |Flatten(front)|;
      RemoveFilters(front, i, idx);
      RemoveFromFlat(front, i, idx);
      if IsManager(last) { RemoveFilters(last.kids, i, m); }
      RemoveSnoc(p, i, idx);
      FilteredLast(p, Except(i), idx);
      FilteredNodeIs(last, Except(i), m);
      hide RemoveFrom, Filtered, FilteredNode, Flatten;
    }
  }

  lemma {:induction false} RanksAre(i: nat, n: nat)
    ensures Rank(Upto(i), n) == Min(n, i + 1) && Rank(After(i), n) == n - Min(n, i + 1)
    ensures Rank(Except(i), n) == if n > i then n - 1 else n
  {
    if n > 0 { RanksAre(i, n - 1); }
  }

  lemma {:induction false} SelectUpto<T>(xs: seq<T>, i: nat)
    ensures Select(xs, Upto(i), 0) == xs[..Min(i + 1, |xs|)]
  {
    if xs != [] {
      var front := xs[..|xs| - 1];
      SelectUpto(front, i);
      SelectLast(xs, Upto(i));
      hide Select;
      if |front| <= i { assert xs == front + [xs[|front|]]; } else { assert front[..i + 1] == xs[..i + 1]; }
    }
  }

  lemma {:induction false} SelectAfter<T>(xs: seq<T>, i: nat)
    ensures Select(xs, After(i), 0) == xs[Min(i + 1, |xs|)..]
  {
    if xs != [] {
      var front := xs[..|xs| - 1];
      SelectAfter(front, i);
      SelectLast(xs, After(i));
      hide Select;
      if |front| > i { assert xs[i + 1..] == front[i + 1..] + [xs[|front|]]; }
    }
  }

  lemma {:induction false} SelectExcept<T>(xs: seq<T>, i: nat)
    ensures Select(xs, Except(i), 0) == if i < |xs| then xs[..i] + xs[i + 1..] else xs
  {
    if xs != [] {
      var front := xs[..|xs| - 1];
      SelectExcept(front, i);
      SelectLast(xs, Except(i));
      hide Select;
      assert xs == front + [xs[|front|]];
      if i < |front| {
        assert xs[..i] == front[..i] && xs[i + 1..] == front[i + 1..] + [xs[|front|]];
      } else if i == |front| {
        assert xs[..i] == front && xs[i + 1..] == [];
      }
    }
  }

  lemma SelectLast<T>(xs: seq<T>, keep: nat -> bool)
    requires xs != []
    ensures Select(xs, keep, 0) == Select(xs[..|xs| - 1], keep, 0) + if keep(|xs| - 1) then [xs[|xs| - 1]] else []
  {}

  /** The new numbers of a bound between passes: on the near side of the cut after pass i, on the far side, and
      after pass i has gone. */
  function Near(i: nat): nat -> nat { x => Min(x, i + 1) }

  function Far(i: nat): nat -> nat { x => x - Min(x, i + 1) }

  function Closed(i: nat): nat -> nat { x => if x > i then x - 1 else x }

  lemma RenumberedSame(ss: seq<Span>, f: nat -> nat, g: nat -> nat)
    requires forall x: nat :: f(x) == g(x)
    ensures Renumbered(ss, f) == Renumbered(ss, g)
  {
    forall j | 0 <= j < |ss| ensures Renumbered(ss, f)[j] == Renumbered(ss, g)[j] {
      assert f(ss[j].lo) == g(ss[j].lo) && f(ss[j].hi) == g(ss[j].hi);
    }
  }

  lemma FilterPlaces(p: Pipe, keep: nat -> bool, f: nat -> nat)
    requires forall x: nat :: f(x) == Ranks(keep)(x)
    ensures Chains(Filtered(p, keep, 0), []) == Select(Chains(p, []), keep, 0)
    ensures Spans(Filtered(p, keep, 0), [], 0) == Renumbered(Spans(p, [], 0), f)
  {
    FilterStays(p, keep, [], 0);
    assert Rank(keep, 0) == 0;
    hide Chains, Spans, Select, Rank, Filtered, Flatten, Renumbered;
    RenumberedSame(Spans(p, [], 0), f, Ranks(keep));
  }

  /** Both halves have all managers, with the passes they held on that side of the cut; every pass stays inside the
      managers it was in. */
  lemma SplitStays(p: Pipe, i: nat)
    ensures var (a, b, _) := SplitFrom(p, i, 0); var chains := Chains(p, []); var n := Min(i + 1, |chains|);
      && Chains(a, []) == chains[..n] && Chains(b, []) == chains[n..]
      && Spans(a, [], 0) == Renumbered(Spans(p, [], 0), Near(i))
      && Spans(b, [], 0) == Renumbered(Spans(p, [], 0), Far(i))
  {
    forall x: nat ensures Near(i)(x) == Ranks(Upto(i))(x) && Far(i)(x) == Ranks(After(i))(x) { RanksAre(i, x); }
    hide *;
    SplitFilters(p, i, 0);
    FilterPlaces(p, Upto(i), Near(i));
    FilterPlaces(p, After(i), Far(i));
    SelectUpto(Chains(p, []), i);
    SelectAfter(Chains(p, []), i);
  }

  /** Removing keeps all managers, with the passes they held but the removed one, and every other pass inside the
      managers it was in. */
  lemma RemoveStays(p: Pipe, i: nat)
    ensures var chains := Chains(p, []);
      && Chains(Removed(p, i), []) == (if i < |chains| then chains[..i] + chains[i + 1..] else chains)
      && Spans(Removed(p, i), [], 0) == Renumbered(Spans(p, [], 0), Closed(i))
  {
    forall x: nat ensures Closed(i)(x) == Ranks(Except(i))(x) { RanksAre(i, x); }
    assert Removed(p, i) == RemoveFrom(p, i, 0).0;
    hide *;
    RemoveFilters(p, i, 0);
    FilterPlaces(p, Except(i), Closed(i));
    SelectExcept(Chains(p, []), i);
  }

  // ----- pipelines in which every manager has a kind -----

  lemma NamesCut(f: seq<Item>, n: nat, i: int)
    requires AllNames(f) && n <= |f|
    ensures AllNames(f[..n]) && AllNames(f[n..]) && AllNames(Without(f, i))
  {}

  /** The operations keep kinds: what can be printed stays printable. */
  lemma KindsStay(p: Pipe, i: nat)
    requires Kinded(p)
    ensures Kinded(SplitFrom(p, i, 0).0) && Kinded(SplitFrom(p, i, 0).1) && Kinded(Removed(p, i)) && Kinded(Pruned(p))
  {
    FlatNames(p);
    FlatNames(SplitFrom(p, i, 0).0);
    FlatNames(SplitFrom(p, i, 0).1);
    FlatNames(Removed(p, i));
    FlatNames(Pruned(p));
    SplitFromFlat(p, i, 0);
    RemoveFromFlat(p, i, 0);
    PruneKeeps(p);
    assert Removed(p, i) == RemoveFrom(p, i, 0).0;
    hide *;
    NamesCut(Flatten(p), Kept(i, 0, |Flatten(p)|), i);
  }

  /** Five more characters, one at a time. */
  lemma RunFive(st: State, s: string)
    requires |s| == 5
    ensures Run(Some(st), s) ==
      Run(Run(Run(Run(Run(Some(st), [s[0]]), [s[1]]), [s[2]]), [s[3]]), [s[4]])
  {
    assert s == [s[0]] + [s[1]] + [s[2]] + [s[3]] + [s[4]];
    hide *;
    RunAppend(Some(st), [s[0]] + [s[1]] + [s[2]] + [s[3]], [s[4]]);
    RunAppend(Some(st), [s[0]] + [s[1]] + [s[2]], [s[3]]);
    RunAppend(Some(st), [s[0]] + [s[1]], [s[2]]);
    RunAppend(Some(st), [s[0]], [s[1]]);
  }

  lemma ParsesEmptyKind()
    ensures FromStr("(a,b)") == Some([Manager("", [Pass("a"), Pass("b")])])
  {
    var s := "(a,b)";
    var st0 := State([], [], "", "");
    var st1 := State([("", [])], [], "", "");
    var st2, st3 := st1.(tok := "a"), st1.(curr := [Pass("a")]);
    var st4 := st3.(tok := "b");
    RunFive(st0, s);
    RunOne(st0, '(');
    RunOne(st1, 'a');
    RunOne(st2, ',');
    RunOne(st3, 'b');
    RunOne(st4, ')');
    hide Run;
    assert s[0] == '(' && s[1] == 'a' && s[2] == ',' && s[3] == 'b' && s[4] == ')';
    assert st1.curr + [Pass("a")] == [Pass("a")] && "" + ['a'] == "a" && "" + ['b'] == "b";
    assert Next(st0, '(') == Some(st1) && Next(st1, 'a') == Some(st2) && Next(st2, ',') == Some(st3);
    assert Next(st3, 'b') == Some(st4);
    assert st4.stack[..|st4.stack| - 1] == [];
    assert [] + [Manager("", [Pass("a"), Pass("b")])] == [Manager("", [Pass("a"), Pass("b")])];
    assert Next(st4, ')') == Some(State([], [Manager("", [Pass("a"), Pass("b")])], "", "")) by {
      assert [Pass("a")] + [Pass("b")] == [Pass("a"), Pass("b")];
    }
  }

  /** What the empty kind does: the parser accepts it, but then two passes count as one, are removed together,
      are changed by copying, and cannot be printed. */
  lemma EmptyKind()
    ensures var p := [Manager("", [Pass("a"), Pass("b")])];
      && FromStr("(a,b)") == Some(p) && !Named("(a,b)") && !Kinded(p)
      && |Flatten(p)| == 1 && Removed(p, 0) == [] && Copied(p) == [Loose([Pass("a"), Pass("b")])] != p
  {
    var n := Manager("", [Pass("a"), Pass("b")]);
    assert [n][..0] == [];
    ParsesEmptyKind();
    assert "(a,b)"[0] == '(';
  }
}
