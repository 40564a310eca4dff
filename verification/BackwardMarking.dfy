/** Spreading the return flag of an edge to the edges above it. */
module BackwardMarking {
  import opened Graphs
  import opened ControlFlow
  import opened Flags
  import opened EdgeFlags
  import opened ReturnMarking

  /** The flags of the other edges out of the source of ce. */
  ghost predicate SiblingsAllMust(cfg: Cfg, edges: EdgeMap, ce: Edge) {
    forall e: Edge | cfg.HasEdge(e) && e.src == ce.src && e != ce :: HasMust(At(edges, e)) && !HasMay(At(edges, e))
  }

  ghost predicate SiblingsNeverMust(cfg: Cfg, edges: EdgeMap, ce: Edge) {
    forall e: Edge | cfg.HasEdge(e) && e.src == ce.src && e != ce :: !HasMust(At(edges, e))
  }

  method CheckSiblings(cfg: Cfg, ce: Edge, edges: EdgeMap) returns (allMust: bool, allZero: bool)
    requires cfg.HasBlock(ce.src)
    ensures allMust <==> SiblingsAllMust(cfg, edges, ce)
    ensures !allMust ==> (allZero <==> SiblingsNeverMust(cfg, edges, ce))
  {
    allMust, allZero := true, true;
    var succs := cfg.succs[ce.src];
    for i := 0 to |succs|
      invariant allMust <==> forall s | s in succs[..i] && s != ce.dst ::
                  HasMust(At(edges, Edge(ce.src, s))) && !HasMay(At(edges, Edge(ce.src, s)))
      invariant allZero <==> forall s | s in succs[..i] && s != ce.dst :: !HasMust(At(edges, Edge(ce.src, s)))
    {
      PrefixGrows(succs, i);
      if succs[i] == ce.dst {
        continue;
      }
      var f := At(edges, Edge(ce.src, succs[i]));
      if !HasMust(f) {
        allMust := false;
      } else if HasMay(f) {
        allMust, allZero := false, false;
      } else {
        allZero := false;
      }
      if !allZero && !allMust {
        assert forall s | s in succs[..i + 1] :: s in succs;
        return;
      }
    }
    PrefixIsAll(succs);
  }

  ghost predicate MustEntered(cfg: Cfg, tb: Block, before: EdgeMap, after: EdgeMap) {
    forall e: Edge :: At(after, e) ==
      if cfg.HasEdge(e) && e.dst == tb && !HasMust(At(before, e))
      then UpdateReturnFlag(At(before, e), MUST_RETURN_ERR) else At(before, e)
  }

  /** The edges into tb that become Must, in the order of the listed predecessors. */
  ghost function MustNext(edges: EdgeMap, tb: Block, ps: seq<Block>): seq<(Edge, Flag)> {
    if ps == [] then []
    else
      var n := |ps| - 1;
      var ce := Edge(ps[n], tb);
      MustNext(edges, tb, ps[..n])
      + if HasMust(At(edges, ce)) || ps[n] in ps[..n] then [] else [(ce, MUST_RETURN_ERR)]
  }

  lemma {:induction false} MustNextHolds(edges: EdgeMap, tb: Block, ps: seq<Block>)
    ensures forall x :: x in MustNext(edges, tb, ps) <==>
              x.0.dst == tb && x.0.src in ps && !HasMust(At(edges, x.0)) && x.1 == MUST_RETURN_ERR
  {
    if ps != [] {
      MustNextHolds(edges, tb, ps[..|ps| - 1]);
      PrefixGrows(ps, |ps| - 1);
      assert ps[..|ps|] == ps;
    }
  }

  lemma MustNextIsEntered(cfg: Cfg, edges: EdgeMap, tb: Block)
    requires cfg.HasBlock(tb)
    ensures var next := MustNext(edges, tb, cfg.preds[tb]);
            && (forall x | x in next :: cfg.HasEdge(x.0) && x.0.dst == tb && x.1 == MUST_RETURN_ERR)
            && (forall e: Edge | cfg.HasEdge(e) && e.dst == tb && !HasMust(At(edges, e)) ::
                  (e, MUST_RETURN_ERR) in next)
  {
    MustNextHolds(edges, tb, cfg.preds[tb]);
    forall e: Edge ensures cfg.HasEdge(e) && e.dst == tb <==> e.dst == tb && e.src in cfg.preds[tb] {
      EdgeIsListed(cfg, e);
    }
  }

  /** The edges from the given predecessors have become Must where they were not. */
  ghost predicate MustFrom(tb: Block, ps: set<Block>, before: EdgeMap, after: EdgeMap) {
    forall e: Edge :: At(after, e) ==
      if e.dst == tb && e.src in ps && !HasMust(At(before, e))
      then UpdateReturnFlag(At(before, e), MUST_RETURN_ERR) else At(before, e)
  }

  /** The listed predecessors are dealt with. */
  ghost predicate MustDone(tb: Block, ps: seq<Block>, before: EdgeMap, edges: EdgeMap, next: seq<(Edge, Flag)>) {
    MustFrom(tb, Items(ps), before, edges) && next == MustNext(before, tb, ps)
  }

  lemma MustDoneOneMore(tb: Block, ps: seq<Block>, p: Block, before: EdgeMap, e1: EdgeMap, n1: seq<(Edge, Flag)>,
                        e2: EdgeMap, n2: seq<(Edge, Flag)>)
    requires MustDone(tb, ps, before, e1, n1)
    requires if HasMust(At(e1, Edge(p, tb))) then e2 == e1 && n2 == n1
             else e2 == e1[Edge(p, tb) := UpdateReturnFlag(At(e1, Edge(p, tb)), MUST_RETURN_ERR)]
                  && n2 == n1 + [(Edge(p, tb), MUST_RETURN_ERR)]
    ensures MustDone(tb, ps + [p], before, e2, n2)
  {
    MustIsMarked(At(before, Edge(p, tb)));
    assert Items(ps + [p]) == Items(ps) + {p};
    assert (ps + [p])[..|ps|] == ps;
  }

  lemma MustIsMarked(f: Flag)
    ensures HasMust(f) ==> ReturnBits(f) != 0
    ensures var r := UpdateReturnFlag(f, MUST_RETURN_ERR); ReturnBits(r) == MUST_RETURN_ERR && HasMust(r)
  {
  }

  lemma AllFromIsEntered(cfg: Cfg, tb: Block, before: EdgeMap, after: EdgeMap)
    requires cfg.HasBlock(tb) && MustFrom(tb, Items(cfg.preds[tb]), before, after)
    ensures MustEntered(cfg, tb, before, after)
  {
    forall e: Edge ensures cfg.HasEdge(e) && e.dst == tb <==> e.dst == tb && e.src in cfg.preds[tb] {
      EdgeIsListed(cfg, e);
    }
  }

  /** Makes the edges into a block Must where they are not; returns the changed edges. */
  method MarkMustPreds(cfg: Cfg, tb: Block, before: EdgeMap) returns (edges: EdgeMap, next: seq<(Edge, Flag)>)
    requires cfg.HasBlock(tb)
    ensures MustEntered(cfg, tb, before, edges) && next == MustNext(before, tb, cfg.preds[tb])
  {
    edges, next := before, [];
    var preds := cfg.preds[tb];
    for i := 0 to |preds|
      invariant MustDone(tb, preds[..i], before, edges, next)
    {
      var ce := Edge(preds[i], tb);
      ghost var e1, n1 := edges, next;
      if !HasMust(At(edges, ce)) {
        edges := edges[ce := UpdateReturnFlag(At(edges, ce), MUST_RETURN_ERR)];
        next := next + [(ce, MUST_RETURN_ERR)];
      }
      MustDoneOneMore(tb, preds[..i], preds[i], before, e1, n1, edges, next);
      assert preds[..i + 1] == preds[..i] + [preds[i]];
    }
    PrefixIsAll(preds);
    AllFromIsEntered(cfg, tb, before, edges);
  }

  /** Only return nibbles of edges that lead to start change, to Must or May. */
  ghost predicate SpreadsAbove(cfg: Cfg, start: Block, before: EdgeMap, after: EdgeMap) {
    forall e: Edge ::
      && OtherBits(At(after, e)) == OtherBits(At(before, e))
      && (At(after, e) != At(before, e) ==>
            && cfg.HasEdge(e) && Reaches(cfg.Backward(), start, e.dst)
            && (ReturnBits(At(after, e)) == MUST_RETURN_ERR || ReturnBits(At(after, e)) == MAY_RETURN_ERR))
  }

  lemma ClosureIsAbove(cfg: Cfg, start: Block, tb: Block, e0: EdgeMap, e1: EdgeMap)
    requires ReturnClosure(cfg, tb, MAY_RETURN_ERR, e0, e1)
    requires Reaches(cfg.Backward(), start, tb)
    ensures SpreadsAbove(cfg, start, e0, e1)
  {
    var g := ReturnBack(cfg, e0, MAY_RETURN_ERR);
    forall e: Edge | Reaches(g, tb, e.dst) ensures Reaches(cfg.Backward(), start, e.dst) {
      SubgraphReaches(g, cfg.Backward(), tb, e.dst);
      ReachTrans(cfg.Backward(), start, tb, e.dst);
    }
  }

  lemma AboveKeepsMarks(cfg: Cfg, start: Block, before: EdgeMap, after: EdgeMap)
    requires SpreadsAbove(cfg, start, before, after)
    ensures AllMarks(before) ==> AllMarks(after)
    ensures forall e: Edge :: ReturnBits(At(before, e)) != 0 ==> ReturnBits(At(after, e)) != 0
  {
    if AllMarks(before) {
      forall e: Edge ensures IsMark(At(after, e)) {
        assert IsMark(At(before, e));
      }
    }
  }

  /** Every edge out of the block ends in the same block. */
  ghost predicate OneTarget(cfg: Cfg, b: Block)
    requires cfg.HasBlock(b)
  {
    forall s, t | s in cfg.succs[b] && t in cfg.succs[b] :: s == t
  }

  ghost predicate EntersMarked(cfg: Cfg, edges: EdgeMap, b: Block) {
    forall e: Edge | cfg.HasEdge(e) && e.dst == b :: ReturnBits(At(edges, e)) != 0
  }

  /** From a block with a single target back over the edges that are not yet Must. */
  ghost function MustBack(cfg: Cfg, edges: EdgeMap): Graph
  {
    (b: Block) =>
      if cfg.HasBlock(b) && OneTarget(cfg, b)
      then set p | p in cfg.preds[b] && !HasMust(At(edges, Edge(p, b)))
      else {}
  }

  ghost function Sources(es: set<Edge>): set<Block> {
    set e | e in es :: e.src
  }

  ghost predicate ToSearch(cfg: Cfg, ce: Edge, before: EdgeMap, edges: EdgeMap,
                           done: set<Edge>, waiting: set<(Edge, Flag)>)
  {
    && SpreadsAbove(cfg, ce.src, before, edges)
    && (forall x | x in waiting :: cfg.HasEdge(x.0) && Reaches(cfg.Backward(), ce.src, x.0.src))
  }

  /** A Must flag climbs through every block that has a single target. */
  ghost predicate Climbing(cfg: Cfg, ce: Edge, before: EdgeMap, edges: EdgeMap,
                           done: set<Edge>, waiting: set<(Edge, Flag)>)
  {
    && (forall x | x in waiting :: ReturnBits(x.1) != 0 && !HasMay(x.1))
    && (forall e: Edge | e == ce || (HasMust(At(edges, e)) && !HasMust(At(before, e))) ::
          e in done || e in Waits(waiting))
    && (forall x | x in done && cfg.HasEdge(x) && OneTarget(cfg, x.src) ::
          && EntersMarked(cfg, edges, x.src)
          && (forall e: Edge | cfg.HasEdge(e) && e.dst == x.src ::
                HasMust(At(before, e)) || e in done || e in Waits(waiting)))
  }

  lemma ClimbSkip(cfg: Cfg, ce: Edge, before: EdgeMap, e0: EdgeMap, e1: EdgeMap, done: set<Edge>,
                  rest: set<(Edge, Flag)>, x0: (Edge, Flag))
    requires Climbing(cfg, ce, before, e0, done, {x0} + rest)
    requires forall e: Edge :: HasMust(At(e1, e)) ==> HasMust(At(e0, e))
    requires forall e: Edge :: ReturnBits(At(e0, e)) != 0 ==> ReturnBits(At(e1, e)) != 0
    requires x0.0 in done || (cfg.HasEdge(x0.0) && (OneTarget(cfg, x0.0.src) ==> cfg.preds[x0.0.src] == []))
    ensures Climbing(cfg, ce, before, e1, done + {x0.0}, rest)
  {
    assert forall e: Edge | e in Waits({x0} + rest) :: e == x0.0 || e in Waits(rest);
    forall e: Edge | cfg.HasEdge(e) && e.dst == x0.0.src && x0.0 !in done && OneTarget(cfg, x0.0.src) ensures false {
      EdgeIsListed(cfg, e);
    }
  }

  lemma ClimbStep(cfg: Cfg, ce: Edge, before: EdgeMap, e0: EdgeMap, e1: EdgeMap, done: set<Edge>,
                  rest: set<(Edge, Flag)>, x0: (Edge, Flag), next: set<(Edge, Flag)>)
    requires cfg.HasEdge(x0.0) && Climbing(cfg, ce, before, e0, done, {x0} + rest)
    requires MustEntered(cfg, x0.0.src, e0, e1)
    requires forall x | x in next :: x.1 == MUST_RETURN_ERR
    requires forall e: Edge | cfg.HasEdge(e) && e.dst == x0.0.src && !HasMust(At(e0, e)) :: (e, MUST_RETURN_ERR) in next
    ensures Climbing(cfg, ce, before, e1, done + {x0.0}, rest + next)
  {
    var done', waiting' := done + {x0.0}, rest + next;
    forall e: Edge | e in Waits({x0} + rest) ensures e in done' || e in Waits(waiting') {
      var x :| x in {x0} + rest && x.0 == e;
      assert x == x0 || x in waiting';
    }
    forall e: Edge ensures HasMust(At(e1, e)) && !HasMust(At(e0, e)) ==> e in Waits(waiting')
             ensures ReturnBits(At(e0, e)) != 0 ==> ReturnBits(At(e1, e)) != 0
             ensures HasMust(At(e0, e)) ==> HasMust(At(e1, e))
    {
      if HasMust(At(e1, e)) && !HasMust(At(e0, e)) {
        assert (e, MUST_RETURN_ERR) in waiting';
      }
    }
    forall e: Edge | cfg.HasEdge(e) && e.dst == x0.0.src
      ensures ReturnBits(At(e1, e)) != 0
      ensures HasMust(At(before, e)) || e in done' || e in Waits(waiting')
    {
      assert HasMust(At(e1, e));
    }
  }

  lemma ToMay(cfg: Cfg, ce: Edge, before: EdgeMap, e0: EdgeMap, e1: EdgeMap, done: set<Edge>,
              rest: set<(Edge, Flag)>, x0: (Edge, Flag))
    requires ToSearch(cfg, ce, before, e0, done, {x0} + rest)
    requires ReturnClosure(cfg, x0.0.src, MAY_RETURN_ERR, e0, e1)
    ensures ToSearch(cfg, ce, before, e1, done + {x0.0}, rest)
    ensures forall e: Edge :: HasMust(At(e1, e)) ==> HasMust(At(e0, e))
    ensures forall e: Edge :: ReturnBits(At(e0, e)) != 0 ==> ReturnBits(At(e1, e)) != 0
  {
    assert x0 in {x0} + rest;
    ClosureIsAbove(cfg, ce.src, x0.0.src, e0, e1);
    AboveKeepsMarks(cfg, ce.src, e0, e1);
  }

  lemma ToMust(cfg: Cfg, ce: Edge, before: EdgeMap, e0: EdgeMap, e1: EdgeMap, done: set<Edge>,
               rest: set<(Edge, Flag)>, x0: (Edge, Flag), next: set<(Edge, Flag)>)
    requires ToSearch(cfg, ce, before, e0, done, {x0} + rest)
    requires MustEntered(cfg, x0.0.src, e0, e1)
    requires forall x | x in next :: cfg.HasEdge(x.0) && x.0.dst == x0.0.src
    ensures ToSearch(cfg, ce, before, e1, done + {x0.0}, rest + next)
  {
    assert x0 in {x0} + rest;
    assert SpreadsAbove(cfg, ce.src, e0, e1);
    forall x | x in next ensures Reaches(cfg.Backward(), ce.src, x.0.src) {
      EdgeIsListed(cfg, x.0);
      ReachNext(cfg.Backward(), ce.src, x0.0.src, x.0.src);
    }
  }

  /** What happens when marking an edge does not make the edges before it Must. */
  ghost predicate FirstStep(cfg: Cfg, ce: Edge, flag: Flag, before: EdgeMap, after: EdgeMap)
    requires cfg.HasBlock(ce.src)
  {
    if cfg.preds[ce.src] == [] || ReturnBits(flag) == 0 then after == before
    else if HasMay(flag) then ReturnClosure(cfg, ce.src, MAY_RETURN_ERR, before, after)
    else if SiblingsNeverMust(cfg, before, ce) then after == before
    else ReturnClosure(cfg, ce.src, MAY_RETURN_ERR, before, after)
  }

  ghost predicate Climbs(cfg: Cfg, ce: Edge, flag: Flag, before: EdgeMap)
    requires cfg.HasBlock(ce.src)
  {
    cfg.preds[ce.src] != [] && ReturnBits(flag) != 0 && !HasMay(flag) && SiblingsAllMust(cfg, before, ce)
  }

  /** Every edge into a block that must run into the marked edge carries a return flag. */
  ghost predicate ClimbedAbove(cfg: Cfg, ce: Edge, before: EdgeMap, after: EdgeMap)
  {
    forall b | Reaches(MustBack(cfg, before), ce.src, b) && cfg.HasBlock(b) && OneTarget(cfg, b) ::
      EntersMarked(cfg, after, b)
  }

  lemma ClimbEnds(cfg: Cfg, ce: Edge, before: EdgeMap, edges: EdgeMap, done: set<Edge>)
    requires Climbing(cfg, ce, before, edges, done, {})
    requires forall e | e in done :: cfg.HasEdge(e)
    ensures ClimbedAbove(cfg, ce, before, edges)
  {
    var g := MustBack(cfg, before);
    forall x, y | x in Sources(done) && y in g(x) ensures y in Sources(done) {
      var e :| e in done && e.src == x;
      EdgeIsListed(cfg, Edge(y, x));
      assert Edge(y, x) in done;
    }
    forall b | Reaches(g, ce.src, b) ensures b in Sources(done) {
      assert ce in done;
      ClosedHoldsReach(g, Sources(done), ce.src, b);
    }
  }

  ghost predicate MarksBefore(cfg: Cfg, ce: Edge, flag: Flag, before: EdgeMap, after: EdgeMap, next: set<(Edge, Flag)>)
    requires cfg.HasBlock(ce.src)
  {
    if Climbs(cfg, ce, flag, before) then
      && MustEntered(cfg, ce.src, before, after)
      && (forall x | x in next :: cfg.HasEdge(x.0) && x.0.dst == ce.src && x.1 == MUST_RETURN_ERR)
      && (forall e: Edge | cfg.HasEdge(e) && e.dst == ce.src && !HasMust(At(before, e)) :: (e, MUST_RETURN_ERR) in next)
    else next == {} && FirstStep(cfg, ce, flag, before, after)
  }

  /** One step of the worklist, with the changed edges in order. */
  ghost predicate Steps(cfg: Cfg, x: (Edge, Flag), before: EdgeMap, after: EdgeMap, next: seq<(Edge, Flag)>)
    requires cfg.HasBlock(x.0.src)
  {
    && MarksBefore(cfg, x.0, x.1, before, after, Items(next))
    && next == if Climbs(cfg, x.0, x.1, before) then MustNext(before, x.0.src, cfg.preds[x.0.src]) else []
  }

  /** A first-in-first-out run from a map, finished edges and a worklist ends with the map after. */
  ghost predicate Runs(cfg: Cfg, edges: EdgeMap, done: set<Edge>, todo: seq<(Edge, Flag)>, after: EdgeMap)
    decreases cfg.Edges() - done, |todo|
  {
    if todo == [] then after == edges
    else if todo[0].0 in done then Runs(cfg, edges, done, todo[1..], after)
    else
      && todo[0].0 in cfg.Edges() && cfg.HasBlock(todo[0].0.src)
      && exists now, next ::
           && Steps(cfg, todo[0], edges, now, next)
           && Runs(cfg, now, done + {todo[0].0}, todo[1..] + next, after)
  }

  /** Setting the flag of one edge, and the run that follows. */
  ghost predicate EdgeRuns(cfg: Cfg, ce: Edge, flag: Flag, before: EdgeMap, after: EdgeMap) {
    Runs(cfg, before[ce := UpdateReturnFlag(At(before, ce), flag)], {}, [(ce, flag)], after)
  }

  lemma StepKeepsMarks(cfg: Cfg, x: (Edge, Flag), before: EdgeMap, after: EdgeMap, next: seq<(Edge, Flag)>)
    requires cfg.HasBlock(x.0.src) && Steps(cfg, x, before, after, next)
    ensures forall e: Edge :: ReturnBits(At(before, e)) != 0 ==> ReturnBits(At(after, e)) != 0
  {
  }

  /** No run takes a return flag away. */
  lemma {:induction false} RunKeepsMarks(cfg: Cfg, edges: EdgeMap, done: set<Edge>, todo: seq<(Edge, Flag)>,
                                         after: EdgeMap)
    requires Runs(cfg, edges, done, todo, after)
    ensures forall e: Edge :: ReturnBits(At(edges, e)) != 0 ==> ReturnBits(At(after, e)) != 0
    decreases cfg.Edges() - done, |todo|
  {
    if todo != [] && todo[0].0 in done {
      RunKeepsMarks(cfg, edges, done, todo[1..], after);
    } else if todo != [] {
      var now, next :| Steps(cfg, todo[0], edges, now, next)
                       && Runs(cfg, now, done + {todo[0].0}, todo[1..] + next, after);
      StepKeepsMarks(cfg, todo[0], edges, now, next);
      RunKeepsMarks(cfg, now, done + {todo[0].0}, todo[1..] + next, after);
    }
  }

  lemma RunBegins(cfg: Cfg, ce: Edge, flag: Flag, before: EdgeMap, after: EdgeMap)
    requires cfg.HasEdge(ce) && cfg.HasBlock(ce.src) && Runs(cfg, before, {}, [(ce, flag)], after)
    ensures !Climbs(cfg, ce, flag, before) ==> FirstStep(cfg, ce, flag, before, after)
    ensures Climbs(cfg, ce, flag, before) ==> EntersMarked(cfg, after, ce.src)
  {
    var now, next :| Steps(cfg, (ce, flag), before, now, next) && Runs(cfg, now, {ce}, next, after) by {
      assert {} + {ce} == {ce} && [(ce, flag)][1..] == [];
      assert forall next: seq<(Edge, Flag)> :: [] + next == next;
    }
    if Climbs(cfg, ce, flag, before) {
      RunKeepsMarks(cfg, now, {ce}, next, after);
      forall e: Edge | cfg.HasEdge(e) && e.dst == ce.src ensures ReturnBits(At(now, e)) != 0 {
        MustIsMarked(At(before, e));
      }
    }
  }

  /** Both maps give every edge the same flag. */
  ghost predicate Alike(e0: EdgeMap, e1: EdgeMap) {
    forall e: Edge :: At(e0, e) == At(e1, e)
  }

  lemma ClosureIsDetermined(cfg: Cfg, b: Block, a0: EdgeMap, a1: EdgeMap, b0: EdgeMap, b1: EdgeMap)
    requires Alike(a0, b0)
    requires ReturnClosure(cfg, b, MAY_RETURN_ERR, a0, a1) && ReturnClosure(cfg, b, MAY_RETURN_ERR, b0, b1)
    ensures Alike(a1, b1)
  {
    var g, h := ReturnBack(cfg, a0, MAY_RETURN_ERR), ReturnBack(cfg, b0, MAY_RETURN_ERR);
    assert forall x: Block :: g(x) == h(x);
    forall e: Edge ensures At(a1, e) == At(b1, e) {
      if Reaches(g, b, e.dst) {
        SubgraphReaches(g, h, b, e.dst);
      }
      if Reaches(h, b, e.dst) {
        SubgraphReaches(h, g, b, e.dst);
      }
    }
  }

  lemma {:induction false} MustNextIsDetermined(a: EdgeMap, b: EdgeMap, tb: Block, ps: seq<Block>)
    requires Alike(a, b)
    ensures MustNext(a, tb, ps) == MustNext(b, tb, ps)
  {
    if ps != [] {
      MustNextIsDetermined(a, b, tb, ps[..|ps| - 1]);
      assert At(a, Edge(ps[|ps| - 1], tb)) == At(b, Edge(ps[|ps| - 1], tb));
    }
  }

  lemma StepIsDetermined(cfg: Cfg, x: (Edge, Flag), a0: EdgeMap, a1: EdgeMap, an: seq<(Edge, Flag)>,
                         b0: EdgeMap, b1: EdgeMap, bn: seq<(Edge, Flag)>)
    requires cfg.HasBlock(x.0.src) && Alike(a0, b0) && Steps(cfg, x, a0, a1, an) && Steps(cfg, x, b0, b1, bn)
    ensures Alike(a1, b1) && an == bn
  {
    assert forall e: Edge :: At(a0, e) == At(b0, e);
    MustNextIsDetermined(a0, b0, x.0.src, cfg.preds[x.0.src]);
    if ReturnClosure(cfg, x.0.src, MAY_RETURN_ERR, a0, a1) && ReturnClosure(cfg, x.0.src, MAY_RETURN_ERR, b0, b1) {
      ClosureIsDetermined(cfg, x.0.src, a0, a1, b0, b1);
    }
  }

  /** A run leaves no choice: the flags it starts with and the worklist determine all flags it ends with. */
  lemma {:induction false} RunIsDetermined(cfg: Cfg, a0: EdgeMap, b0: EdgeMap, done: set<Edge>,
                                           todo: seq<(Edge, Flag)>, a1: EdgeMap, b1: EdgeMap)
    requires Alike(a0, b0) && Runs(cfg, a0, done, todo, a1) && Runs(cfg, b0, done, todo, b1)
    ensures Alike(a1, b1)
    decreases cfg.Edges() - done, |todo|
  {
    if todo != [] && todo[0].0 in done {
      RunIsDetermined(cfg, a0, b0, done, todo[1..], a1, b1);
    } else if todo != [] {
      var done' := done + {todo[0].0};
      var a, an :| Steps(cfg, todo[0], a0, a, an) && Runs(cfg, a, done', todo[1..] + an, a1);
      var b, bn :| Steps(cfg, todo[0], b0, b, bn) && Runs(cfg, b, done', todo[1..] + bn, b1);
      StepIsDetermined(cfg, todo[0], a0, a, an, b0, b, bn);
      RunIsDetermined(cfg, a, b, done', todo[1..] + an, a1, b1);
    }
  }

  /** Whatever the rest of the run ends with, the whole run ends with. */
  ghost predicate RunsOn(cfg: Cfg, ce: Edge, flag: Flag, before: EdgeMap, edges: EdgeMap,
                         done: set<Edge>, todo: seq<(Edge, Flag)>)
  {
    forall after :: Runs(cfg, edges, done, todo, after) ==> Runs(cfg, before, {}, [(ce, flag)], after)
  }

  lemma RunsOnStep(cfg: Cfg, ce: Edge, flag: Flag, before: EdgeMap, e0: EdgeMap, e1: EdgeMap,
                   done: set<Edge>, todo: seq<(Edge, Flag)>, next: seq<(Edge, Flag)>)
    requires todo != [] && todo[0].0 !in done && todo[0].0 in cfg.Edges() && cfg.HasBlock(todo[0].0.src)
    requires RunsOn(cfg, ce, flag, before, e0, done, todo) && Steps(cfg, todo[0], e0, e1, next)
    ensures RunsOn(cfg, ce, flag, before, e1, done + {todo[0].0}, todo[1..] + next)
  {
    forall after | Runs(cfg, e1, done + {todo[0].0}, todo[1..] + next, after)
      ensures Runs(cfg, before, {}, [(ce, flag)], after)
    {
      assert Runs(cfg, e0, done, todo, after);
    }
  }

  /** Marks what one edge demands of the edges before it; returns the changed edges to go on with. */
  method MarkBefore(cfg: Cfg, ce: Edge, flag: Flag, before: EdgeMap) returns (edges: EdgeMap, next: seq<(Edge, Flag)>)
    requires cfg.HasEdge(ce) && cfg.HasBlock(ce.src)
    ensures Steps(cfg, (ce, flag), before, edges, next)
  {
    edges, next := before, [];
    var tb := ce.src;
    // The entry block: there is no edge above it
    if |cfg.preds[tb]| == 0 {
      return;
    }
    // Without a return flag there is nothing to pass upwards
    if ReturnBits(flag) == 0 {
      return;
    }
    // May overwrites every edge above, up to those that are May already
    if HasMay(flag) {
      edges := RecurMarkEdgesToErrReturn(cfg, tb, MAY_RETURN_ERR, edges);
      return;
    }
    var allMust, allZero := CheckSiblings(cfg, ce, edges);
    if allMust {
      MustNextIsEntered(cfg, edges, tb);
      edges, next := MarkMustPreds(cfg, tb, edges);
    } else if !allZero {
      edges := RecurMarkEdgesToErrReturn(cfg, tb, MAY_RETURN_ERR, edges);
    }
  }

  lemma ToStep(cfg: Cfg, ce: Edge, before: EdgeMap, e0: EdgeMap, e1: EdgeMap, done: set<Edge>,
               rest: set<(Edge, Flag)>, x0: (Edge, Flag), next: set<(Edge, Flag)>)
    requires cfg.HasEdge(x0.0) && cfg.HasBlock(x0.0.src)
    requires ToSearch(cfg, ce, before, e0, done, {x0} + rest)
    requires MarksBefore(cfg, x0.0, x0.1, e0, e1, next)
    ensures ToSearch(cfg, ce, before, e1, done + {x0.0}, rest + next)
    ensures forall e: Edge :: ReturnBits(At(e0, e)) != 0 ==> ReturnBits(At(e1, e)) != 0
    ensures Climbing(cfg, ce, before, e0, done, {x0} + rest) ==>
              Climbing(cfg, ce, before, e1, done + {x0.0}, rest + next)
  {
    assert rest + {} == rest;
    if Climbs(cfg, x0.0, x0.1, e0) {
      ToMust(cfg, ce, before, e0, e1, done, rest, x0, next);
      if Climbing(cfg, ce, before, e0, done, {x0} + rest) {
        ClimbStep(cfg, ce, before, e0, e1, done, rest, x0, next);
      }
    } else {
      if e1 == e0 {
      } else {
        ToMay(cfg, ce, before, e0, e1, done, rest, x0);
      }
      if Climbing(cfg, ce, before, e0, done, {x0} + rest) {
        assert x0 in {x0} + rest;
        assert OneTarget(cfg, x0.0.src) ==> SiblingsAllMust(cfg, e0, x0.0);
        ClimbSkip(cfg, ce, before, e0, e1, done, rest, x0);
      }
    }
  }

  /** Worklist invariant of marking backwards from ce. */
  ghost predicate ToState(cfg: Cfg, ce: Edge, flag: Flag, before: EdgeMap, edges: EdgeMap,
                          done: set<Edge>, waiting: set<(Edge, Flag)>)
    requires cfg.HasBlock(ce.src)
  {
    && ToSearch(cfg, ce, before, edges, done, waiting)
    && (forall x | x in done :: cfg.HasEdge(x))
    && (ReturnBits(flag) != 0 && !HasMay(flag) ==> Climbing(cfg, ce, before, edges, done, waiting))
  }

  lemma ToStateStart(cfg: Cfg, ce: Edge, flag: Flag, before: EdgeMap)
    requires cfg.HasEdge(ce) && cfg.HasBlock(ce.src)
    ensures ToState(cfg, ce, flag, before, before, {}, {(ce, flag)})
  {
    ReachSelf(cfg.Backward(), ce.src);
    assert Waits({(ce, flag)}) == {ce};
  }

  lemma ToStateSkip(cfg: Cfg, ce: Edge, flag: Flag, before: EdgeMap, edges: EdgeMap, done: set<Edge>,
                    rest: set<(Edge, Flag)>, x0: (Edge, Flag))
    requires cfg.HasBlock(ce.src)
    requires ToState(cfg, ce, flag, before, edges, done, {x0} + rest) && x0.0 in done
    ensures ToState(cfg, ce, flag, before, edges, done, rest)
  {
    assert done + {x0.0} == done && x0 in {x0} + rest;
    if ReturnBits(flag) != 0 && !HasMay(flag) {
      ClimbSkip(cfg, ce, before, edges, edges, done, rest, x0);
    }
  }

  lemma ToStateStep(cfg: Cfg, ce: Edge, flag: Flag, before: EdgeMap, e0: EdgeMap, e1: EdgeMap, done: set<Edge>,
                    rest: set<(Edge, Flag)>, x0: (Edge, Flag), next: set<(Edge, Flag)>)
    requires cfg.HasBlock(ce.src) && cfg.HasEdge(x0.0) && cfg.HasBlock(x0.0.src)
    requires ToState(cfg, ce, flag, before, e0, done, {x0} + rest)
    requires MarksBefore(cfg, x0.0, x0.1, e0, e1, next)
    ensures ToState(cfg, ce, flag, before, e1, done + {x0.0}, rest + next)
  {
    ToStep(cfg, ce, before, e0, e1, done, rest, x0, next);
    assert x0 in {x0} + rest;
  }

  method RecurMarkEdgesToBlock(cfg: Cfg, ce: Edge, flag: Flag, before: EdgeMap) returns (edges: EdgeMap)
    requires cfg.HasEdge(ce) && cfg.HasBlock(ce.src)
    ensures SpreadsAbove(cfg, ce.src, before, edges)
    ensures !Climbs(cfg, ce, flag, before) ==> FirstStep(cfg, ce, flag, before, edges)
    ensures Climbs(cfg, ce, flag, before) ==> EntersMarked(cfg, edges, ce.src)
    ensures ReturnBits(flag) != 0 && !HasMay(flag) ==> ClimbedAbove(cfg, ce, before, edges)
    ensures Runs(cfg, before, {}, [(ce, flag)], edges)
  {
    edges := before;
    var done: set<Edge>, todo := {}, [(ce, flag)];
    assert Items(todo) == {(ce, flag)};
    ToStateStart(cfg, ce, flag, before);
    while todo != []
      invariant ToState(cfg, ce, flag, before, edges, done, Items(todo))
      invariant RunsOn(cfg, ce, flag, before, edges, done, todo)
      decreases cfg.Edges() - done, |todo|
    {
      var x0 := todo[0];
      ItemsPop(todo, []);
      assert x0 in Items(todo);
      EdgeIsListed(cfg, x0.0);
      if x0.0 in done {
        ToStateSkip(cfg, ce, flag, before, edges, done, Items(todo[1..]), x0);
        todo := todo[1..];
        continue;
      }
      ghost var edges0 := edges;
      var next;
      edges, next := MarkBefore(cfg, x0.0, x0.1, edges);
      RunsOnStep(cfg, ce, flag, before, edges0, edges, done, todo, next);
      ToStateStep(cfg, ce, flag, before, edges0, edges, done, Items(todo[1..]), x0, Items(next));
      ItemsPop(todo, next);
      done := done + {x0.0};
      todo := todo[1..] + next;
    }
    assert Items(todo) == {};
    assert Runs(cfg, edges, done, [], edges);
    RunBegins(cfg, ce, flag, before, edges);
    if ReturnBits(flag) != 0 && !HasMay(flag) {
      ClimbEnds(cfg, ce, before, edges, done);
    }
  }
}
