/** Spreading the return flag of an edge to the edges below it. */
module ForwardMarking {
  import opened Graphs
  import opened ControlFlow
  import opened Flags
  import opened EdgeFlags
  import opened ReturnMarking

  /** The flags of the edges from the listed predecessors into tb, leaving out the edge from src. */
  function IncomingFlags(edges: EdgeMap, src: Block, tb: Block, preds: seq<Block>): seq<Flag> {
    if preds == [] then []
    else (if preds[0] == src then [] else [At(edges, Edge(preds[0], tb))])
         + IncomingFlags(edges, src, tb, preds[1..])
  }

  lemma {:induction false} MergeAllAppend(flag: Flag, xs: seq<Flag>, ys: seq<Flag>)
    ensures MergeAll(flag, xs + ys) == MergeAll(MergeAll(flag, xs), ys)
    decreases |xs|
  {
    if xs == [] {
      assert xs + ys == ys;
    } else {
      assert (xs + ys)[1..] == xs[1..] + ys;
      MergeAllAppend(MergeFlag(flag, xs[0]), xs[1..], ys);
    }
  }

  lemma {:induction false} IncomingFlagsAppend(edges: EdgeMap, src: Block, tb: Block, ps: seq<Block>, p: Block)
    ensures IncomingFlags(edges, src, tb, ps + [p]) ==
            if p == src then IncomingFlags(edges, src, tb, ps)
            else IncomingFlags(edges, src, tb, ps) + [At(edges, Edge(p, tb))]
  {
    if ps == [] {
      assert ps + [p] == [p];
    } else {
      assert (ps + [p])[1..] == ps[1..] + [p];
      IncomingFlagsAppend(edges, src, tb, ps[1..], p);
    }
  }

  /** The flag integrated at the end of an edge: its own, merged with the other incoming edges. */
  method IntegrateIncoming(cfg: Cfg, ce: Edge, flag: Flag, edges: EdgeMap) returns (intFlag: Flag)
    requires cfg.HasBlock(ce.dst)
    ensures intFlag == MergeAll(flag, IncomingFlags(edges, ce.src, ce.dst, cfg.preds[ce.dst]))
  {
    intFlag := flag;
    var preds := cfg.preds[ce.dst];
    for i := 0 to |preds|
      invariant intFlag == MergeAll(flag, IncomingFlags(edges, ce.src, ce.dst, preds[..i]))
    {
      var pred := preds[i];
      assert preds[..i + 1] == preds[..i] + [pred];
      IncomingFlagsAppend(edges, ce.src, ce.dst, preds[..i], pred);
      if pred == ce.src {
        continue;
      }
      var newFlag := At(edges, Edge(pred, ce.dst));
      MergeAllAppend(flag, IncomingFlags(edges, ce.src, ce.dst, preds[..i]), [newFlag]);
      intFlag := MergeFlag(intFlag, newFlag);
      assert MergeAll(MergeAll(flag, IncomingFlags(edges, ce.src, ce.dst, preds[..i])), [newFlag]) == intFlag;
    }
    PrefixIsAll(preds);
  }

  /** One expansion: the edges out of tb take over the return nibble, the changed ones wait. */
  ghost predicate Expands(cfg: Cfg, tb: Block, flag: Flag, e0: EdgeMap, e1: EdgeMap, next: set<(Edge, Flag)>)
  {
    && ReturnMarked(e0, e1, EdgesOutOf(cfg, {tb}), flag)
    && (forall x | x in next :: x.0 in EdgesOutOf(cfg, {tb}) && x.1 == flag)
    && (forall x | x in next :: ReturnBits(At(e0, x.0)) != ReturnBits(flag))
    && (forall e: Edge | e in EdgesOutOf(cfg, {tb}) && ReturnBits(At(e0, e)) != ReturnBits(flag) :: (e, flag) in next)
  }

  /** The edges out of tb that take over another nibble, in the order of the listed successors. */
  ghost function OutNext(edges: EdgeMap, tb: Block, ss: seq<Block>, flag: Flag): seq<(Edge, Flag)> {
    if ss == [] then []
    else
      var n := |ss| - 1;
      var ce := Edge(tb, ss[n]);
      OutNext(edges, tb, ss[..n], flag)
      + if ReturnBits(At(edges, ce)) == ReturnBits(flag) || (ReturnBits(flag) != 0 && ss[n] in ss[..n]) then []
        else [(ce, flag)]
  }

  lemma {:induction false} OutNextHolds(edges: EdgeMap, tb: Block, ss: seq<Block>, flag: Flag)
    ensures forall x :: x in OutNext(edges, tb, ss, flag) <==>
              x.0.src == tb && x.0.dst in ss && ReturnBits(At(edges, x.0)) != ReturnBits(flag) && x.1 == flag
  {
    if ss != [] {
      OutNextHolds(edges, tb, ss[..|ss| - 1], flag);
      PrefixGrows(ss, |ss| - 1);
      assert ss[..|ss|] == ss;
    }
  }

  /** The edges to the given successors have taken over the nibble. */
  ghost predicate OutMarked(tb: Block, ss: set<Block>, flag: Flag, before: EdgeMap, after: EdgeMap) {
    forall e: Edge :: At(after, e) ==
      if e.src == tb && e.dst in ss then UpdateReturnFlag(At(before, e), flag) else At(before, e)
  }

  lemma OutMarkedOneMore(tb: Block, ss: set<Block>, s: Block, flag: Flag, e0: EdgeMap, e1: EdgeMap, e2: EdgeMap)
    requires OutMarked(tb, ss, flag, e0, e1)
    requires e2 == if ReturnBits(flag) == ReturnBits(At(e1, Edge(tb, s))) then e1
                   else e1[Edge(tb, s) := UpdateReturnFlag(At(e1, Edge(tb, s)), flag)]
    ensures OutMarked(tb, ss + {s}, flag, e0, e2)
    ensures ReturnBits(flag) == ReturnBits(At(e1, Edge(tb, s))) <==>
            ReturnBits(At(e0, Edge(tb, s))) == ReturnBits(flag) || (ReturnBits(flag) != 0 && s in ss)
  {
    UpdateReturnTwice(At(e0, Edge(tb, s)), flag);
  }

  /** The listed successors are dealt with. */
  ghost predicate OutDone(tb: Block, ss: seq<Block>, flag: Flag, before: EdgeMap, edges: EdgeMap,
                          next: seq<(Edge, Flag)>) {
    OutMarked(tb, Items(ss), flag, before, edges) && next == OutNext(before, tb, ss, flag)
  }

  lemma OutDoneOneMore(tb: Block, ss: seq<Block>, s: Block, flag: Flag, before: EdgeMap, e1: EdgeMap,
                       n1: seq<(Edge, Flag)>, e2: EdgeMap, n2: seq<(Edge, Flag)>)
    requires OutDone(tb, ss, flag, before, e1, n1)
    requires if ReturnBits(flag) == ReturnBits(At(e1, Edge(tb, s))) then e2 == e1 && n2 == n1
             else
               && e2 == e1[Edge(tb, s) := UpdateReturnFlag(At(e1, Edge(tb, s)), flag)]
               && n2 == n1 + [(Edge(tb, s), flag)]
    ensures OutDone(tb, ss + [s], flag, before, e2, n2)
  {
    OutMarkedOneMore(tb, Items(ss), s, flag, before, e1, e2);
    assert Items(ss + [s]) == Items(ss) + {s};
    assert (ss + [s])[..|ss|] == ss;
  }

  lemma OutMarkedExpands(cfg: Cfg, tb: Block, flag: Flag, before: EdgeMap, after: EdgeMap)
    requires cfg.HasBlock(tb) && OutMarked(tb, Items(cfg.succs[tb]), flag, before, after)
    ensures Expands(cfg, tb, flag, before, after, Items(OutNext(before, tb, cfg.succs[tb], flag)))
  {
    OutNextHolds(before, tb, cfg.succs[tb], flag);
    forall e: Edge ensures e in EdgesOutOf(cfg, {tb}) <==> e.src == tb && e.dst in cfg.succs[tb] {
      EdgeIsListed(cfg, e);
    }
  }

  /** Overwrites the edges out of one block; returns those whose return nibble differed. */
  method MarkOutgoing(cfg: Cfg, tb: Block, flag: Flag, before: EdgeMap)
    returns (edges: EdgeMap, next: seq<(Edge, Flag)>)
    requires cfg.HasBlock(tb)
    ensures Expands(cfg, tb, flag, before, edges, Items(next)) && next == OutNext(before, tb, cfg.succs[tb], flag)
  {
    edges, next := before, [];
    var succs := cfg.succs[tb];
    for i := 0 to |succs|
      invariant OutDone(tb, succs[..i], flag, before, edges, next)
    {
      var ce := Edge(tb, succs[i]);
      ghost var e1, n1 := edges, next;
      if ReturnBits(flag) != ReturnBits(At(edges, ce)) {
        edges := edges[ce := UpdateReturnFlag(At(edges, ce), flag)];
        next := next + [(ce, flag)];
      }
      OutDoneOneMore(tb, succs[..i], succs[i], flag, before, e1, n1, edges, next);
      assert succs[..i + 1] == succs[..i] + [succs[i]];
    }
    PrefixIsAll(succs);
    OutMarkedExpands(cfg, tb, flag, before, edges);
  }

  /** Only return nibbles of edges below start change, and none goes back to zero. */
  ghost predicate SpreadsBelow(cfg: Cfg, start: Block, before: EdgeMap, after: EdgeMap) {
    forall e: Edge ::
      && OtherBits(At(after, e)) == OtherBits(At(before, e))
      && (At(after, e) != At(before, e) ==> cfg.HasEdge(e) && Reaches(cfg.Forward(), start, e.src))
      && (ReturnBits(At(before, e)) != 0 ==> ReturnBits(At(after, e)) != 0)
  }

  /** Every edge that leaves block b carries a return flag. */
  ghost predicate LeavesMarked(cfg: Cfg, edges: EdgeMap, b: Block) {
    forall e: Edge | cfg.HasEdge(e) && e.src == b :: ReturnBits(At(edges, e)) != 0
  }

  /** From a block over the outgoing edges whose return nibble differs from the flag. */
  ghost function ReturnForward(cfg: Cfg, edges: EdgeMap, flag: Flag): Graph {
    (b: Block) =>
      if cfg.HasBlock(b)
      then set s | s in cfg.succs[b] && ReturnBits(At(edges, Edge(b, s))) != ReturnBits(flag)
      else {}
  }

  /** Exactly the edges out of blocks reached from start over edges with another return nibble. */
  ghost predicate ForwardClosure(cfg: Cfg, start: Block, flag: Flag, before: EdgeMap, after: EdgeMap) {
    forall e: Edge :: At(after, e) ==
      if cfg.HasEdge(e) && Reaches(ReturnForward(cfg, before, flag), start, e.src)
      then UpdateReturnFlag(At(before, e), flag) else At(before, e)
  }

  /** The flag prevails over everything the edges of the graph carry. */
  ghost predicate PrevailsOnEdges(cfg: Cfg, flag: Flag, edges: EdgeMap)
  {
    Prevails(flag, set e | e in cfg.Edges() :: At(edges, e))
  }

  /** Worklist invariant: marking below the edge ce goes on at the waiting edges. */
  ghost predicate Spreading(cfg: Cfg, ce: Edge, flag: Flag, before: EdgeMap, edges: EdgeMap,
                            done: set<Edge>, waiting: set<(Edge, Flag)>)
  {
    && SpreadsBelow(cfg, ce.dst, before, edges)
    && (forall x | x in done :: cfg.HasEdge(x))
    && (forall x | x in waiting :: cfg.HasEdge(x.0) && Reaches(cfg.Forward(), ce.dst, x.0.dst))
    && (AllMarks(before) && IsMark(flag) ==> AllMarks(edges) && forall x | x in waiting :: IsMark(x.1))
  }

  /** Whatever changed leads on to marked edges, or still waits. */
  ghost predicate Covering(cfg: Cfg, ce: Edge, before: EdgeMap, edges: EdgeMap,
                           done: set<Edge>, waiting: set<(Edge, Flag)>)
  {
    && (forall x | x in waiting :: ReturnBits(x.1) != 0)
    && (forall x | x in done :: LeavesMarked(cfg, edges, x.dst))
    && (forall e: Edge | e == ce || At(edges, e) != At(before, e) :: e in done || e in Waits(waiting))
  }

  lemma ExpandsBelow(cfg: Cfg, start: Block, tb: Block, flag: Flag, before: EdgeMap, e0: EdgeMap, e1: EdgeMap,
                     next: set<(Edge, Flag)>)
    requires SpreadsBelow(cfg, start, before, e0) && Expands(cfg, tb, flag, e0, e1, next)
    requires Reaches(cfg.Forward(), start, tb)
    ensures SpreadsBelow(cfg, start, before, e1)
    ensures forall x | x in next :: cfg.HasEdge(x.0) && Reaches(cfg.Forward(), start, x.0.dst)
  {
    forall e: Edge
      ensures OtherBits(At(e1, e)) == OtherBits(At(e0, e))
      ensures At(e1, e) != At(e0, e) ==> cfg.HasEdge(e) && e.src == tb
      ensures ReturnBits(At(e0, e)) != 0 ==> ReturnBits(At(e1, e)) != 0
    {
      EdgeIsListed(cfg, e);
    }
    forall x | x in next ensures cfg.HasEdge(x.0) && Reaches(cfg.Forward(), start, x.0.dst) {
      EdgeIsListed(cfg, x.0);
      ReachNext(cfg.Forward(), start, tb, x.0.dst);
    }
  }

  lemma SpreadStep(cfg: Cfg, ce: Edge, flag: Flag, before: EdgeMap, e0: EdgeMap, e1: EdgeMap, done: set<Edge>,
                   rest: set<(Edge, Flag)>, x0: (Edge, Flag), intFlag: Flag, next: set<(Edge, Flag)>)
    requires Spreading(cfg, ce, flag, before, e0, done, {x0} + rest)
    requires Expands(cfg, x0.0.dst, intFlag, e0, e1, next)
    requires AllMarks(e0) && IsMark(x0.1) ==> IsMark(intFlag)
    ensures Spreading(cfg, ce, flag, before, e1, done + {x0.0}, rest + next)
  {
    assert x0 in {x0} + rest;
    ExpandsBelow(cfg, ce.dst, x0.0.dst, intFlag, before, e0, e1, next);
  }

  lemma CoverStep(cfg: Cfg, ce: Edge, before: EdgeMap, e0: EdgeMap, e1: EdgeMap, done: set<Edge>,
                  rest: set<(Edge, Flag)>, x0: (Edge, Flag), intFlag: Flag, next: set<(Edge, Flag)>)
    requires Covering(cfg, ce, before, e0, done, {x0} + rest)
    requires Expands(cfg, x0.0.dst, intFlag, e0, e1, next) && ReturnBits(intFlag) != 0
    ensures Covering(cfg, ce, before, e1, done + {x0.0}, rest + next)
  {
    forall e: Edge
      ensures ReturnBits(At(e0, e)) != 0 ==> ReturnBits(At(e1, e)) != 0
      ensures cfg.HasEdge(e) && e.src == x0.0.dst ==> ReturnBits(At(e1, e)) != 0
    {
      EdgeIsListed(cfg, e);
    }
    forall e: Edge | e == ce || At(e1, e) != At(before, e) ensures e in done + {x0.0} || e in Waits(rest + next) {
      UpdateReturnTwice(At(e0, e), intFlag);
      if At(e1, e) != At(e0, e) {
        assert (e, intFlag) in rest + next;
      } else if e !in done {
        var x :| x in {x0} + rest && x.0 == e;
        assert x == x0 || x in rest + next;
      }
    }
  }

  ghost function Targets(es: set<Edge>): set<Block> {
    set e | e in es :: e.dst
  }

  ghost function Ends(waiting: set<(Edge, Flag)>): set<Block> {
    set x | x in waiting :: x.0.dst
  }

  lemma EndsJoin(a: set<(Edge, Flag)>, b: set<(Edge, Flag)>)
    ensures Ends(a + b) == Ends(a) + Ends(b)
  {
  }

  /** Worklist invariant of a prevailing flag: the exact set of edges swept so far. */
  ghost predicate Sweeping(cfg: Cfg, start: Block, flag: Flag, before: EdgeMap, edges: EdgeMap,
                           done: set<Edge>, waiting: set<(Edge, Flag)>)
  {
    && Searching(ReturnForward(cfg, before, flag), {start}, Targets(done), Ends(waiting))
    && ReturnMarked(before, edges, EdgesOutOf(cfg, Targets(done)), flag)
    && (forall x | x in waiting :: IsMark(x.1) && ReturnBits(x.1) == ReturnBits(flag))
  }

  lemma SweepSearchStep(g: Graph, start: Block, bs: set<Block>, tb: Block, rest: set<Block>, next: set<Block>)
    requires Searching(g, {start}, bs, {tb} + rest)
    requires next == if tb in bs then {} else g(tb)
    ensures Searching(g, {start}, bs + {tb}, rest + next)
  {
    if tb in bs {
      assert bs + {tb} == bs && rest + next == rest;
    } else {
      ExpandNode(g, {start}, bs, tb, rest, next);
    }
  }

  lemma SweepStep(cfg: Cfg, start: Block, flag: Flag, before: EdgeMap, e0: EdgeMap, e1: EdgeMap, done: set<Edge>,
                  rest: set<(Edge, Flag)>, x0: (Edge, Flag), intFlag: Flag, next: set<(Edge, Flag)>)
    requires cfg.HasBlock(x0.0.dst) && Sweeping(cfg, start, flag, before, e0, done, {x0} + rest)
    requires Expands(cfg, x0.0.dst, intFlag, e0, e1, next)
    requires IsMark(intFlag) && ReturnBits(intFlag) == ReturnBits(flag) != 0
    ensures Sweeping(cfg, start, flag, before, e1, done + {x0.0}, rest + next)
  {
    var tb := x0.0.dst;
    assert Targets(done + {x0.0}) == Targets(done) + {tb};
    SweepMarks(cfg, tb, flag, before, e0, e1, Targets(done), intFlag, next);
    if tb in Targets(done) {
    } else {
      SweepFirst(cfg, tb, flag, before, e0, Targets(done), intFlag, e1, next);
    }
    EndsJoin({x0}, rest);
    EndsJoin(rest, next);
    assert Ends({x0}) == {tb};
    SweepSearchStep(ReturnForward(cfg, before, flag), start, Targets(done), tb, Ends(rest), Ends(next));
  }

  lemma SweepMarks(cfg: Cfg, tb: Block, flag: Flag, before: EdgeMap, e0: EdgeMap, e1: EdgeMap,
                   bs: set<Block>, intFlag: Flag, next: set<(Edge, Flag)>)
    requires ReturnMarked(before, e0, EdgesOutOf(cfg, bs), flag)
    requires Expands(cfg, tb, intFlag, e0, e1, next) && ReturnBits(intFlag) == ReturnBits(flag)
    ensures ReturnMarked(before, e1, EdgesOutOf(cfg, bs + {tb}), flag)
  {
    forall e: Edge
      ensures At(e1, e) == if e in EdgesOutOf(cfg, {tb}) then UpdateReturnFlag(At(e0, e), flag) else At(e0, e)
    {
    }
    assert ReturnMarked(e0, e1, EdgesOutOf(cfg, {tb}), flag);
    assert EdgesOutOf(cfg, bs) + EdgesOutOf(cfg, {tb}) == EdgesOutOf(cfg, bs + {tb});
  }

  lemma SweepFirst(cfg: Cfg, tb: Block, flag: Flag, before: EdgeMap, e0: EdgeMap, bs: set<Block>,
                   intFlag: Flag, e1: EdgeMap, next: set<(Edge, Flag)>)
    requires cfg.HasBlock(tb) && tb !in bs && ReturnMarked(before, e0, EdgesOutOf(cfg, bs), flag)
    requires Expands(cfg, tb, intFlag, e0, e1, next) && ReturnBits(intFlag) == ReturnBits(flag)
    ensures Ends(next) == ReturnForward(cfg, before, flag)(tb)
  {
    forall s ensures s in Ends(next) <==> s in ReturnForward(cfg, before, flag)(tb) {
      var e := Edge(tb, s);
      EdgeIsListed(cfg, e);
      assert At(e0, e) == At(before, e);
      if s in Ends(next) {
        var x :| x in next && x.0.dst == s;
        assert x.0 == e;
      }
      if s in ReturnForward(cfg, before, flag)(tb) {
        assert (e, intFlag) in next;
      }
    }
  }

  lemma {:induction false} IncomingAreEdges(cfg: Cfg, edges: EdgeMap, src: Block, tb: Block, preds: seq<Block>, f: Flag)
    requires cfg.HasBlock(tb) && forall p | p in preds :: p in cfg.preds[tb]
    requires f in IncomingFlags(edges, src, tb, preds)
    ensures exists e: Edge | e in cfg.Edges() :: At(edges, e) == f
  {
    EdgeIsListed(cfg, Edge(preds[0], tb));
    if preds[0] == src || f != At(edges, Edge(preds[0], tb)) {
      IncomingAreEdges(cfg, edges, src, tb, preds[1..], f);
    }
  }

  /** What integrating the incoming edges keeps: non-zero flags, marks and prevailing flags. */
  lemma IntegrationKeeps(cfg: Cfg, edges: EdgeMap, ce: Edge, flag: Flag)
    requires cfg.HasBlock(ce.dst)
    ensures var r := MergeAll(flag, IncomingFlags(edges, ce.src, ce.dst, cfg.preds[ce.dst]));
            && (ReturnBits(flag) != 0 ==> ReturnBits(r) != 0)
            && (AllMarks(edges) && IsMark(flag) ==> IsMark(r))
            && (PrevailsOnEdges(cfg, flag, edges) ==> IsMark(r) && ReturnBits(r) == ReturnBits(flag))
  {
    var incoming := IncomingFlags(edges, ce.src, ce.dst, cfg.preds[ce.dst]);
    forall f | f in incoming ensures exists e: Edge | e in cfg.Edges() :: At(edges, e) == f {
      IncomingAreEdges(cfg, edges, ce.src, ce.dst, cfg.preds[ce.dst], f);
    }
    if ReturnBits(flag) != 0 {
      MergeAllKeepsReturn(flag, incoming);
    }
    if AllMarks(edges) && IsMark(flag) {
      MergeAllOfMarks(flag, incoming);
    }
    if PrevailsOnEdges(cfg, flag, edges) {
      assert forall f | f in incoming :: f in set e | e in cfg.Edges() :: At(edges, e);
      PrevailingFlagStays(flag, incoming);
    }
  }

  ghost predicate FromSearch(cfg: Cfg, ce: Edge, flag: Flag, before: EdgeMap, edges: EdgeMap,
                             done: set<Edge>, waiting: set<(Edge, Flag)>)
  {
    && Spreading(cfg, ce, flag, before, edges, done, waiting)
    && (ReturnBits(flag) != 0 ==> Covering(cfg, ce, before, edges, done, waiting))
    && (PrevailsOnEdges(cfg, flag, before) ==> Sweeping(cfg, ce.dst, flag, before, edges, done, waiting))
  }

  lemma FromStart(cfg: Cfg, ce: Edge, flag: Flag, before: EdgeMap)
    requires cfg.HasEdge(ce)
    ensures FromSearch(cfg, ce, flag, before, before, {}, {(ce, flag)})
  {
    ReachSelf(cfg.Forward(), ce.dst);
    assert (ce, flag) in {(ce, flag)} && ce in Waits({(ce, flag)});
    if PrevailsOnEdges(cfg, flag, before) {
      SweepStart(cfg, ce, flag, before);
    }
  }

  lemma SweepStart(cfg: Cfg, ce: Edge, flag: Flag, before: EdgeMap)
    requires IsMark(flag)
    ensures Sweeping(cfg, ce.dst, flag, before, before, {}, {(ce, flag)})
  {
    StartSearch(ReturnForward(cfg, before, flag), ce.dst);
    assert Ends({(ce, flag)}) == {ce.dst} && Targets({}) == {};
  }

  lemma SweepSkip(cfg: Cfg, start: Block, flag: Flag, before: EdgeMap, edges: EdgeMap, done: set<Edge>,
                  rest: set<(Edge, Flag)>, x0: (Edge, Flag))
    requires Sweeping(cfg, start, flag, before, edges, done, {x0} + rest) && x0.0 in done
    ensures Sweeping(cfg, start, flag, before, edges, done, rest)
  {
    EndsJoin({x0}, rest);
    assert Ends({x0}) == {x0.0.dst} && x0.0.dst in Targets(done);
  }

  lemma FromSkip(cfg: Cfg, ce: Edge, flag: Flag, before: EdgeMap, edges: EdgeMap, done: set<Edge>,
                 rest: set<(Edge, Flag)>, x0: (Edge, Flag))
    requires FromSearch(cfg, ce, flag, before, edges, done, {x0} + rest) && x0.0 in done
    ensures FromSearch(cfg, ce, flag, before, edges, done, rest)
  {
    assert forall e: Edge | e in Waits({x0} + rest) :: e == x0.0 || e in Waits(rest);
    if PrevailsOnEdges(cfg, flag, before) {
      SweepSkip(cfg, ce.dst, flag, before, edges, done, rest, x0);
    }
  }

  lemma StillPrevails(cfg: Cfg, flag: Flag, before: EdgeMap, edges: EdgeMap, marked: set<Edge>, f: Flag)
    requires PrevailsOnEdges(cfg, flag, before) && ReturnMarked(before, edges, marked, flag)
    requires IsMark(f) && ReturnBits(f) == ReturnBits(flag)
    ensures PrevailsOnEdges(cfg, f, edges)
  {
    forall e: Edge | e in cfg.Edges()
      ensures IsMark(At(edges, e))
      ensures ReturnBits(flag) == MUST_RETURN_ERR ==> ReturnBits(At(edges, e)) != MAY_RETURN_ERR
    {
      assert At(before, e) in set d | d in cfg.Edges() :: At(before, d);
    }
  }

  lemma FromStep(cfg: Cfg, ce: Edge, flag: Flag, before: EdgeMap, e0: EdgeMap, e1: EdgeMap, done: set<Edge>,
                 rest: set<(Edge, Flag)>, x0: (Edge, Flag), intFlag: Flag, next: set<(Edge, Flag)>)
    requires FromSearch(cfg, ce, flag, before, e0, done, {x0} + rest) && cfg.HasBlock(x0.0.dst)
    requires intFlag == MergeAll(x0.1, IncomingFlags(e0, x0.0.src, x0.0.dst, cfg.preds[x0.0.dst]))
    requires Expands(cfg, x0.0.dst, intFlag, e0, e1, next)
    ensures FromSearch(cfg, ce, flag, before, e1, done + {x0.0}, rest + next)
  {
    assert x0 in {x0} + rest;
    IntegrationKeeps(cfg, e0, x0.0, x0.1);
    SpreadStep(cfg, ce, flag, before, e0, e1, done, rest, x0, intFlag, next);
    if ReturnBits(flag) != 0 {
      CoverStep(cfg, ce, before, e0, e1, done, rest, x0, intFlag, next);
    }
    if PrevailsOnEdges(cfg, flag, before) {
      StillPrevails(cfg, flag, before, e0, EdgesOutOf(cfg, Targets(done)), x0.1);
      SweepStep(cfg, ce.dst, flag, before, e0, e1, done, rest, x0, intFlag, next);
    }
  }

  lemma NothingLeaves(cfg: Cfg, tb: Block, flag: Flag, edges: EdgeMap)
    requires cfg.HasBlock(tb) && cfg.succs[tb] == []
    ensures Expands(cfg, tb, flag, edges, edges, {})
  {
    forall e: Edge | e in EdgesOutOf(cfg, {tb}) ensures false {
      EdgeIsListed(cfg, e);
    }
  }

  lemma {:induction false} FromEnd(cfg: Cfg, ce: Edge, flag: Flag, before: EdgeMap, edges: EdgeMap, done: set<Edge>)
    requires FromSearch(cfg, ce, flag, before, edges, done, {})
    ensures ReturnBits(flag) != 0 ==> CoversBelow(cfg, ce.dst, before, edges)
    ensures PrevailsOnEdges(cfg, flag, before) ==> ForwardClosure(cfg, ce.dst, flag, before, edges)
  {
    if PrevailsOnEdges(cfg, flag, before) {
      var g := ReturnForward(cfg, before, flag);
      assert Ends({}) == {};
      EndSearch(g, ce.dst, Targets(done));
      forall e: Edge ensures e in EdgesOutOf(cfg, Targets(done)) <==> cfg.HasEdge(e) && Reaches(g, ce.dst, e.src) {
        EdgeIsListed(cfg, e);
      }
    }
  }

  /** One step: the integrated flag goes to the edges out of the block, and the changed ones wait in order. */
  ghost predicate FromSteps(cfg: Cfg, x: (Edge, Flag), before: EdgeMap, after: EdgeMap, next: seq<(Edge, Flag)>)
    requires cfg.HasBlock(x.0.dst)
  {
    var tb := x.0.dst;
    if cfg.succs[tb] == [] then after == before && next == []
    else
      var flag := MergeAll(x.1, IncomingFlags(before, x.0.src, tb, cfg.preds[tb]));
      Expands(cfg, tb, flag, before, after, Items(next)) && next == OutNext(before, tb, cfg.succs[tb], flag)
  }

  /** A first-in-first-out run from a map, finished edges and a worklist ends with the map after. */
  ghost predicate FromRuns(cfg: Cfg, edges: EdgeMap, done: set<Edge>, todo: seq<(Edge, Flag)>, after: EdgeMap)
    decreases cfg.Edges() - done, |todo|
  {
    if todo == [] then after == edges
    else if todo[0].0 in done then FromRuns(cfg, edges, done, todo[1..], after)
    else
      && todo[0].0 in cfg.Edges() && cfg.HasBlock(todo[0].0.dst)
      && exists now, next ::
           && FromSteps(cfg, todo[0], edges, now, next)
           && FromRuns(cfg, now, done + {todo[0].0}, todo[1..] + next, after)
  }

  /** Whatever the rest of the run ends with, the whole run ends with. */
  ghost predicate FromRunsOn(cfg: Cfg, ce: Edge, flag: Flag, before: EdgeMap, edges: EdgeMap,
                             done: set<Edge>, todo: seq<(Edge, Flag)>)
  {
    forall after :: FromRuns(cfg, edges, done, todo, after) ==> FromRuns(cfg, before, {}, [(ce, flag)], after)
  }

  lemma FromRunsOnStep(cfg: Cfg, ce: Edge, flag: Flag, before: EdgeMap, e0: EdgeMap, e1: EdgeMap,
                       done: set<Edge>, todo: seq<(Edge, Flag)>, next: seq<(Edge, Flag)>)
    requires todo != [] && todo[0].0 !in done && todo[0].0 in cfg.Edges() && cfg.HasBlock(todo[0].0.dst)
    requires FromRunsOn(cfg, ce, flag, before, e0, done, todo) && FromSteps(cfg, todo[0], e0, e1, next)
    ensures FromRunsOn(cfg, ce, flag, before, e1, done + {todo[0].0}, todo[1..] + next)
  {
    forall after | FromRuns(cfg, e1, done + {todo[0].0}, todo[1..] + next, after)
      ensures FromRuns(cfg, before, {}, [(ce, flag)], after)
    {
      assert FromRuns(cfg, e0, done, todo, after);
    }
  }

  /** Setting the flag of one edge, and the run that follows unless the edge enters a returning block. */
  ghost predicate FromEdgeRuns(cfg: Cfg, ce: Edge, flag: Flag, bbErr: BlockMap, before: EdgeMap, after: EdgeMap) {
    var now := before[ce := UpdateReturnFlag(At(before, ce), flag)];
    if Resets(bbErr, ce.dst) then after == now
    else
      && FromRuns(cfg, now, {}, [(ce, flag)], after)
      && (PrevailsOnEdges(cfg, flag, now) ==> ForwardClosure(cfg, ce.dst, flag, now, after))
  }

  /** Every edge that leaves the start block, or the end of a changed edge, is marked. */
  ghost predicate CoversBelow(cfg: Cfg, start: Block, before: EdgeMap, after: EdgeMap) {
    && LeavesMarked(cfg, after, start)
    && (forall e: Edge | At(after, e) != At(before, e) :: LeavesMarked(cfg, after, e.dst))
  }

  method RecurMarkEdgesFromBlock(cfg: Cfg, ce: Edge, flag: Flag, bbErr: BlockMap, before: EdgeMap)
    returns (edges: EdgeMap)
    requires cfg.HasEdge(ce)
    ensures Resets(bbErr, ce.dst) ==> edges == before
    ensures SpreadsBelow(cfg, ce.dst, before, edges)
    ensures AllMarks(before) && IsMark(flag) ==> AllMarks(edges)
    ensures !Resets(bbErr, ce.dst) && ReturnBits(flag) != 0 ==> CoversBelow(cfg, ce.dst, before, edges)
    ensures !Resets(bbErr, ce.dst) && PrevailsOnEdges(cfg, flag, before) ==>
              ForwardClosure(cfg, ce.dst, flag, before, edges)
    ensures !Resets(bbErr, ce.dst) ==> FromRuns(cfg, before, {}, [(ce, flag)], edges)
  {
    edges := before;
    // A block with a return flag of its own shields what lies below it
    if Resets(bbErr, ce.dst) {
      return;
    }
    var done: set<Edge>, todo := {}, [(ce, flag)];
    FromStart(cfg, ce, flag, before);
    assert Items(todo) == {(ce, flag)};
    while todo != []
      invariant FromSearch(cfg, ce, flag, before, edges, done, Items(todo))
      invariant FromRunsOn(cfg, ce, flag, before, edges, done, todo)
      decreases cfg.Edges() - done, |todo|
    {
      var x0 := todo[0];
      ItemsPop(todo, []);
      assert x0 in Items(todo);
      EdgeIsListed(cfg, x0.0);
      if x0.0 in done {
        FromSkip(cfg, ce, flag, before, edges, done, Items(todo[1..]), x0);
        todo := todo[1..];
        continue;
      }
      var tb := x0.0.dst;
      ghost var edges0 := edges;
      var next := [];
      // An exit block: nothing lies below it
      if |cfg.succs[tb]| == 0 {
        ghost var f := MergeAll(x0.1, IncomingFlags(edges, x0.0.src, tb, cfg.preds[tb]));
        NothingLeaves(cfg, tb, f, edges);
        assert Items<(Edge, Flag)>([]) == {};
        FromStep(cfg, ce, flag, before, edges, edges, done, Items(todo[1..]), x0, f, {});
      } else {
        var intFlag := IntegrateIncoming(cfg, x0.0, x0.1, edges);
        edges, next := MarkOutgoing(cfg, tb, intFlag, edges);
        FromStep(cfg, ce, flag, before, edges0, edges, done, Items(todo[1..]), x0, intFlag, Items(next));
      }
      FromRunsOnStep(cfg, ce, flag, before, edges0, edges, done, todo, next);
      ItemsPop(todo, next);
      done := done + {x0.0};
      todo := todo[1..] + next;
    }
    assert Items(todo) == {};
    assert FromRuns(cfg, edges, done, [], edges);
    FromEnd(cfg, ce, flag, before, edges, done);
  }
}
