/** Where return flags end up below returning blocks. */
module ForwardAims {
  import opened Graphs
  import opened ControlFlow
  import opened Flags
  import opened EdgeFlags
  import opened ForwardMarking

  // ---------- what the flags below returning blocks should be ----------

  /** One of the edges es out of returning blocks comes from a block with May and leads to b. */
  ghost predicate MayAt(cfg: Cfg, bbErr: BlockMap, es: set<Edge>, b: Block) {
    exists s | s in es && s.src in bbErr && HasMay(bbErr[s.src]) :: Reaches(cfg.Forward(), s.dst, b)
  }

  /** An edge after a returning block should be May: it leaves one with May, or one with May leads to it. */
  ghost predicate MayOn(cfg: Cfg, bbErr: BlockMap, es: set<Edge>, e: Edge) {
    if e in es then e.src in bbErr && HasMay(bbErr[e.src]) else MayAt(cfg, bbErr, es, e.src)
  }

  ghost predicate NoBoth(bbErr: BlockMap) {
    forall b | b in bbErr :: ReturnBits(bbErr[b]) != BOTH_RETURN_ERR
  }

  /** The edges es lead from returning blocks into low ones, and nothing leads from a low block to a returning one. */
  ghost predicate LowField(cfg: Cfg, bbErr: BlockMap, low: set<Block>, es: set<Edge>) {
    && AllBlockMarks(bbErr) && NoBoth(bbErr) && es <= cfg.Edges()
    && (forall e: Edge | cfg.HasEdge(e) && e.src in low :: e.dst in low)
    && (forall b | b in low :: !Resets(bbErr, b))
    && (forall s | s in es :: s.dst in low && Resets(bbErr, s.src))
  }

  ghost predicate RightAt(cfg: Cfg, bbErr: BlockMap, es: set<Edge>, edges: EdgeMap, e: Edge) {
    && InChain(At(edges, e))
    && (ReturnBits(At(edges, e)) == MAY_RETURN_ERR <==> MayOn(cfg, bbErr, es, e))
  }

  /** Exactly the right edges into low blocks are May. */
  ghost predicate Right(cfg: Cfg, bbErr: BlockMap, low: set<Block>, es: set<Edge>, edges: EdgeMap) {
    && AllMarks(edges)
    && forall e: Edge | cfg.HasEdge(e) && e.dst in low :: RightAt(cfg, bbErr, es, edges, e)
  }

  // ---------- paths ----------

  lemma LowBelow(cfg: Cfg, bbErr: BlockMap, low: set<Block>, es: set<Edge>, a: Block, b: Block)
    requires LowField(cfg, bbErr, low, es) && a in low && Reaches(cfg.Forward(), a, b)
    ensures b in low
  {
    forall x, y | x in low && y in cfg.Forward()(x) ensures y in low {
      assert cfg.HasEdge(Edge(x, y));
    }
    ClosedHoldsReach(cfg.Forward(), low, a, b);
  }

  lemma {:induction false} LastEdge(cfg: Cfg, a: Block, b: Block, n: nat) returns (p: Block)
    requires ReachesIn(cfg.Forward(), a, b, n) && n > 0
    ensures cfg.HasEdge(Edge(p, b)) && Reaches(cfg.Forward(), a, p)
    decreases n
  {
    var y :| y in cfg.Forward()(a) && ReachesIn(cfg.Forward(), y, b, n - 1);
    if n == 1 {
      ReachSelf(cfg.Forward(), a);
      return a;
    }
    p := LastEdge(cfg, y, b, n - 1);
    ReachFirst(cfg.Forward(), a, y, p);
  }

  /** May leads to a low block exactly over one of the edges into it. */
  lemma MayArrives(cfg: Cfg, bbErr: BlockMap, low: set<Block>, es: set<Edge>, b: Block)
    requires LowField(cfg, bbErr, low, es) && b in low
    ensures MayAt(cfg, bbErr, es, b) <==> exists e: Edge :: cfg.HasEdge(e) && e.dst == b && MayOn(cfg, bbErr, es, e)
  {
    if e: Edge :| cfg.HasEdge(e) && e.dst == b && MayOn(cfg, bbErr, es, e) {
      MayPasses(cfg, bbErr, es, e);
    }
    if MayAt(cfg, bbErr, es, b) {
      var s :| s in es && s.src in bbErr && HasMay(bbErr[s.src]) && Reaches(cfg.Forward(), s.dst, b);
      var n: nat :| ReachesIn(cfg.Forward(), s.dst, b, n);
      EdgeIsListed(cfg, s);
      if n == 0 {
        assert MayOn(cfg, bbErr, es, s);
      } else {
        var p := LastEdge(cfg, s.dst, b, n);
        LowBelow(cfg, bbErr, low, es, s.dst, p);
        assert MayOn(cfg, bbErr, es, Edge(p, b));
      }
    }
  }

  lemma MayPasses(cfg: Cfg, bbErr: BlockMap, es: set<Edge>, e: Edge)
    requires cfg.HasEdge(e) && MayOn(cfg, bbErr, es, e)
    ensures MayAt(cfg, bbErr, es, e.dst)
  {
    if e in es {
      ReachSelf(cfg.Forward(), e.dst);
    } else {
      var s :| s in es && s.src in bbErr && HasMay(bbErr[s.src]) && Reaches(cfg.Forward(), s.dst, e.src);
      ReachNext(cfg.Forward(), s.dst, e.src, e.dst);
    }
  }

  // ---------- a Must flag on its way down ----------

  /** A waiting edge carries May exactly where it should. */
  ghost predicate WaitsRight(cfg: Cfg, bbErr: BlockMap, low: set<Block>, es: set<Edge>, x: (Edge, Flag)) {
    && cfg.HasEdge(x.0) && x.0.dst in low && InChain(x.1) && ReturnBits(x.1) != 0
    && (ReturnBits(x.1) == MAY_RETURN_ERR <==> MayOn(cfg, bbErr, es, x.0))
  }

  lemma {:induction false} IncomingAre(edges: EdgeMap, src: Block, tb: Block, preds: seq<Block>, f: Flag)
    ensures f in IncomingFlags(edges, src, tb, preds) <==>
            exists p | p in preds :: p != src && f == At(edges, Edge(p, tb))
  {
    if preds != [] {
      IncomingAre(edges, src, tb, preds[1..], f);
      assert preds == [preds[0]] + preds[1..];
    }
  }

  /** Integrating all edges into a low block gives May exactly where May arrives, and never nothing. */
  lemma IntegratesRight(cfg: Cfg, bbErr: BlockMap, low: set<Block>, es: set<Edge>, edges: EdgeMap, x: (Edge, Flag))
    requires LowField(cfg, bbErr, low, es) && Right(cfg, bbErr, low, es, edges) && WaitsRight(cfg, bbErr, low, es, x)
    requires cfg.HasBlock(x.0.dst)
    ensures var r := MergeAll(x.1, IncomingFlags(edges, x.0.src, x.0.dst, cfg.preds[x.0.dst]));
            && InChain(r) && ReturnBits(r) != 0
            && (ReturnBits(r) == MAY_RETURN_ERR <==> MayAt(cfg, bbErr, es, x.0.dst))
  {
    var tb := x.0.dst;
    var incoming := IncomingFlags(edges, x.0.src, tb, cfg.preds[tb]);
    forall g | g in incoming
      ensures InChain(g)
      ensures ReturnBits(g) == MAY_RETURN_ERR ==> MayAt(cfg, bbErr, es, tb)
    {
      IncomingIsRight(cfg, bbErr, low, es, edges, x, g);
    }
    MergeAllIsMaximum(x.1, incoming);
    if ReturnBits(x.1) == MAY_RETURN_ERR {
      MayPasses(cfg, bbErr, es, x.0);
    }
    if MayAt(cfg, bbErr, es, tb) && ReturnBits(x.1) != MAY_RETURN_ERR {
      SomeIncomingIsMay(cfg, bbErr, low, es, edges, x);
    }
    ChainNibbles(MergeAll(x.1, incoming));
  }

  lemma ChainNibbles(f: Flag)
    requires InChain(f)
    ensures ReturnBits(f) == 0 || ReturnBits(f) == MUST_RETURN_ERR || ReturnBits(f) == MAY_RETURN_ERR
  {
  }

  lemma IncomingIsRight(cfg: Cfg, bbErr: BlockMap, low: set<Block>, es: set<Edge>, edges: EdgeMap, x: (Edge, Flag),
                        g: Flag)
    requires Right(cfg, bbErr, low, es, edges) && x.0.dst in low && cfg.HasBlock(x.0.dst)
    requires g in IncomingFlags(edges, x.0.src, x.0.dst, cfg.preds[x.0.dst])
    ensures InChain(g)
    ensures ReturnBits(g) == MAY_RETURN_ERR ==> MayAt(cfg, bbErr, es, x.0.dst)
  {
    IncomingAre(edges, x.0.src, x.0.dst, cfg.preds[x.0.dst], g);
    var p :| p in cfg.preds[x.0.dst] && p != x.0.src && g == At(edges, Edge(p, x.0.dst));
    EdgeIsListed(cfg, Edge(p, x.0.dst));
    assert RightAt(cfg, bbErr, es, edges, Edge(p, x.0.dst));
    if ReturnBits(g) == MAY_RETURN_ERR {
      MayPasses(cfg, bbErr, es, Edge(p, x.0.dst));
    }
  }

  lemma SomeIncomingIsMay(cfg: Cfg, bbErr: BlockMap, low: set<Block>, es: set<Edge>, edges: EdgeMap, x: (Edge, Flag))
    requires LowField(cfg, bbErr, low, es) && Right(cfg, bbErr, low, es, edges) && WaitsRight(cfg, bbErr, low, es, x)
    requires cfg.HasBlock(x.0.dst) && MayAt(cfg, bbErr, es, x.0.dst) && ReturnBits(x.1) != MAY_RETURN_ERR
    ensures exists g | g in IncomingFlags(edges, x.0.src, x.0.dst, cfg.preds[x.0.dst]) ::
              ReturnBits(g) == MAY_RETURN_ERR
  {
    MayArrives(cfg, bbErr, low, es, x.0.dst);
    var e: Edge :| cfg.HasEdge(e) && e.dst == x.0.dst && MayOn(cfg, bbErr, es, e);
    EdgeIsListed(cfg, e);
    assert e != x.0 && e.src != x.0.src;
    assert RightAt(cfg, bbErr, es, edges, e);
    assert At(edges, Edge(e.src, x.0.dst)) == At(edges, e);
    IncomingAre(edges, x.0.src, x.0.dst, cfg.preds[x.0.dst], At(edges, e));
  }

  lemma StepIsRight(cfg: Cfg, bbErr: BlockMap, low: set<Block>, es: set<Edge>, e0: EdgeMap, e1: EdgeMap,
                    x: (Edge, Flag),
                    next: seq<(Edge, Flag)>)
    requires LowField(cfg, bbErr, low, es) && Right(cfg, bbErr, low, es, e0) && WaitsRight(cfg, bbErr, low, es, x)
    requires cfg.HasBlock(x.0.dst) && FromSteps(cfg, x, e0, e1, next)
    ensures Right(cfg, bbErr, low, es, e1) && forall y | y in next :: WaitsRight(cfg, bbErr, low, es, y)
  {
    var tb := x.0.dst;
    var f := MergeAll(x.1, IncomingFlags(e0, x.0.src, tb, cfg.preds[tb]));
    IntegratesRight(cfg, bbErr, low, es, e0, x);
    if cfg.succs[tb] != [] {
      ExpandsRight(cfg, bbErr, low, es, e0, e1, tb, f, Items(next));
    }
  }

  lemma ExpandsRight(cfg: Cfg, bbErr: BlockMap, low: set<Block>, es: set<Edge>, e0: EdgeMap, e1: EdgeMap, tb: Block,
                     f: Flag, next: set<(Edge, Flag)>)
    requires LowField(cfg, bbErr, low, es) && Right(cfg, bbErr, low, es, e0) && tb in low
    requires InChain(f) && ReturnBits(f) != 0 && (ReturnBits(f) == MAY_RETURN_ERR <==> MayAt(cfg, bbErr, es, tb))
    requires Expands(cfg, tb, f, e0, e1, next)
    ensures Right(cfg, bbErr, low, es, e1) && forall y | y in next :: WaitsRight(cfg, bbErr, low, es, y)
  {
    forall e: Edge | e in EdgesOutOf(cfg, {tb})
      ensures cfg.HasEdge(e) && e.dst in low && e !in es
      ensures MayOn(cfg, bbErr, es, e) <==> MayAt(cfg, bbErr, es, tb)
    {
      EdgeIsListed(cfg, e);
      assert e in es ==> Resets(bbErr, e.src);
    }
    forall e: Edge ensures IsMark(At(e1, e)) {
      assert IsMark(At(e0, e));
    }
    forall e: Edge | cfg.HasEdge(e) && e.dst in low ensures RightAt(cfg, bbErr, es, e1, e) {
      assert RightAt(cfg, bbErr, es, e0, e);
      EdgeIsListed(cfg, e);
    }
  }

  lemma {:induction false} RunIsRight(cfg: Cfg, bbErr: BlockMap, low: set<Block>, es: set<Edge>, edges: EdgeMap,
                                      done: set<Edge>, todo: seq<(Edge, Flag)>, after: EdgeMap)
    requires LowField(cfg, bbErr, low, es) && Right(cfg, bbErr, low, es, edges)
    requires (forall x | x in todo :: WaitsRight(cfg, bbErr, low, es, x)) && FromRuns(cfg, edges, done, todo, after)
    ensures Right(cfg, bbErr, low, es, after)
    decreases cfg.Edges() - done, |todo|
  {
    if todo != [] && todo[0].0 in done {
      RunIsRight(cfg, bbErr, low, es, edges, done, todo[1..], after);
    } else if todo != [] {
      var now, next :| FromSteps(cfg, todo[0], edges, now, next)
                       && FromRuns(cfg, now, done + {todo[0].0}, todo[1..] + next, after);
      assert todo[0] in todo;
      StepIsRight(cfg, bbErr, low, es, edges, now, todo[0], next);
      forall x | x in todo[1..] + next ensures WaitsRight(cfg, bbErr, low, es, x) {
        assert x in todo || x in next;
      }
      RunIsRight(cfg, bbErr, low, es, now, done + {todo[0].0}, todo[1..] + next, after);
    }
  }

  // ---------- one more edge out of a returning block ----------

  lemma NibbleOfReturner(bbErr: BlockMap, b: Block)
    requires AllBlockMarks(bbErr) && NoBoth(bbErr) && Resets(bbErr, b)
    ensures InChain(bbErr[b]) && ReturnBits(bbErr[b]) != 0
    ensures ReturnBits(bbErr[b]) == MAY_RETURN_ERR <==> HasMay(bbErr[b])
    ensures ReturnBits(bbErr[b]) == MUST_RETURN_ERR <==> !HasMay(bbErr[b])
  {
  }

  lemma UpdateInChain(f: Flag, flag: Flag)
    requires IsMark(f) && InChain(flag) && ReturnBits(flag) != 0
    ensures InChain(UpdateReturnFlag(f, flag))
  {
  }

  lemma MustGoesDown(cfg: Cfg, bbErr: BlockMap, low: set<Block>, es: set<Edge>, ce: Edge, before: EdgeMap,
                     after: EdgeMap)
    requires LowField(cfg, bbErr, low, es + {ce}) && Right(cfg, bbErr, low, es, before) && cfg.HasEdge(ce)
    requires ce.src in bbErr && !HasMay(bbErr[ce.src])
    requires FromEdgeRuns(cfg, ce, bbErr[ce.src], bbErr, before, after)
    ensures Right(cfg, bbErr, low, es + {ce}, after)
  {
    var flag := bbErr[ce.src];
    var now := before[ce := UpdateReturnFlag(At(before, ce), flag)];
    assert ce in es + {ce};
    NibbleOfReturner(bbErr, ce.src);
    forall e: Edge | e != ce ensures MayOn(cfg, bbErr, es + {ce}, e) <==> MayOn(cfg, bbErr, es, e) {
    }
    forall e: Edge ensures IsMark(At(now, e)) {
      assert IsMark(At(before, e));
    }
    forall e: Edge | cfg.HasEdge(e) && e.dst in low ensures RightAt(cfg, bbErr, es + {ce}, now, e) {
      assert RightAt(cfg, bbErr, es, before, e);
      UpdateInChain(At(before, ce), flag);
    }
    RunIsRight(cfg, bbErr, low, es + {ce}, now, {}, [(ce, flag)], after);
  }

  /** What the new edge leads to is swept, or May leads to it already. */
  lemma SweptOrMay(cfg: Cfg, bbErr: BlockMap, low: set<Block>, es: set<Edge>, ce: Edge, before: EdgeMap, now: EdgeMap,
                   b: Block)
    requires LowField(cfg, bbErr, low, es + {ce}) && Right(cfg, bbErr, low, es, before) && cfg.HasEdge(ce)
    requires forall e: Edge | e != ce :: At(now, e) == At(before, e)
    requires Reaches(cfg.Forward(), ce.dst, b)
    ensures Reaches(ReturnForward(cfg, now, MAY_RETURN_ERR), ce.dst, b) || MayAt(cfg, bbErr, es, b)
  {
    var g := ReturnForward(cfg, now, MAY_RETURN_ERR);
    EdgeIsListed(cfg, ce);
    assert ce in es + {ce};
    var x := set a: Block | a in low && (Reaches(g, ce.dst, a) || MayAt(cfg, bbErr, es, a));
    forall y: Block, t: Block | y in x && t in cfg.Forward()(y) ensures t in x {
      SweptNext(cfg, bbErr, low, es, ce, before, now, y, t);
    }
    ReachSelf(g, ce.dst);
    ClosedHoldsReach(cfg.Forward(), x, ce.dst, b);
  }

  lemma SweptNext(cfg: Cfg, bbErr: BlockMap, low: set<Block>, es: set<Edge>, ce: Edge, before: EdgeMap, now: EdgeMap,
                  y: Block, t: Block)
    requires LowField(cfg, bbErr, low, es + {ce}) && Right(cfg, bbErr, low, es, before)
    requires forall e: Edge | e != ce :: At(now, e) == At(before, e)
    requires y in low && cfg.HasEdge(Edge(y, t))
    requires Reaches(ReturnForward(cfg, now, MAY_RETURN_ERR), ce.dst, y) || MayAt(cfg, bbErr, es, y)
    ensures t in low && (Reaches(ReturnForward(cfg, now, MAY_RETURN_ERR), ce.dst, t) || MayAt(cfg, bbErr, es, t))
  {
    var g, e := ReturnForward(cfg, now, MAY_RETURN_ERR), Edge(y, t);
    EdgeIsListed(cfg, e);
    assert e in es + {ce} ==> Resets(bbErr, y);
    assert RightAt(cfg, bbErr, es, before, e);
    if MayAt(cfg, bbErr, es, y) {
      MayPasses(cfg, bbErr, es, e);
    } else {
      assert t in g(y);
      ReachNext(g, ce.dst, y, t);
    }
  }

  lemma MayGoesDown(cfg: Cfg, bbErr: BlockMap, low: set<Block>, es: set<Edge>, ce: Edge, before: EdgeMap,
                    after: EdgeMap)
    requires LowField(cfg, bbErr, low, es + {ce}) && Right(cfg, bbErr, low, es, before) && cfg.HasEdge(ce)
    requires ce.src in bbErr && HasMay(bbErr[ce.src])
    requires FromEdgeRuns(cfg, ce, bbErr[ce.src], bbErr, before, after)
    ensures Right(cfg, bbErr, low, es + {ce}, after)
  {
    var flag := bbErr[ce.src];
    var now := before[ce := UpdateReturnFlag(At(before, ce), flag)];
    assert ce in es + {ce};
    NibbleOfReturner(bbErr, ce.src);
    forall e: Edge ensures IsMark(At(now, e)) {
      assert IsMark(At(before, e));
    }
    assert PrevailsOnEdges(cfg, flag, now);
    forall e: Edge ensures IsMark(At(after, e)) {
      assert IsMark(At(now, e));
    }
    forall e: Edge | cfg.HasEdge(e) && e.dst in low ensures RightAt(cfg, bbErr, es + {ce}, after, e) {
      EdgeGoesMay(cfg, bbErr, low, es, ce, before, now, after, e);
    }
  }

  lemma SameGraph(cfg: Cfg, edges: EdgeMap, flag: Flag, a: Block, b: Block)
    requires ReturnBits(flag) == MAY_RETURN_ERR
    ensures Reaches(ReturnForward(cfg, edges, flag), a, b) <==> Reaches(ReturnForward(cfg, edges, MAY_RETURN_ERR), a, b)
  {
    var g, h := ReturnForward(cfg, edges, flag), ReturnForward(cfg, edges, MAY_RETURN_ERR);
    assert forall x: Block :: g(x) == h(x);
    if Reaches(g, a, b) {
      SubgraphReaches(g, h, a, b);
    }
    if Reaches(h, a, b) {
      SubgraphReaches(h, g, a, b);
    }
  }

  lemma EdgeGoesMay(cfg: Cfg, bbErr: BlockMap, low: set<Block>, es: set<Edge>, ce: Edge, before: EdgeMap, now: EdgeMap,
                    after: EdgeMap, e: Edge)
    requires LowField(cfg, bbErr, low, es + {ce}) && Right(cfg, bbErr, low, es, before) && cfg.HasEdge(ce)
    requires ce.src in bbErr && HasMay(bbErr[ce.src]) && cfg.HasEdge(e) && e.dst in low
    requires now == before[ce := UpdateReturnFlag(At(before, ce), bbErr[ce.src])]
    requires ForwardClosure(cfg, ce.dst, bbErr[ce.src], now, after)
    ensures RightAt(cfg, bbErr, es + {ce}, after, e)
  {
    var flag := bbErr[ce.src];
    assert ce in es + {ce};
    NibbleOfReturner(bbErr, ce.src);
    assert RightAt(cfg, bbErr, es, before, e);
    UpdateInChain(At(before, e), flag);
    UpdateInChain(At(now, e), flag);
    SameGraph(cfg, now, flag, ce.dst, e.src);
    if Reaches(ReturnForward(cfg, now, flag), ce.dst, e.src) {
      SubgraphReaches(ReturnForward(cfg, now, flag), cfg.Forward(), ce.dst, e.src);
      LowBelow(cfg, bbErr, low, es + {ce}, ce.dst, e.src);
    } else if Reaches(cfg.Forward(), ce.dst, e.src) && e != ce {
      SweptOrMay(cfg, bbErr, low, es, ce, before, now, e.src);
      LowBelow(cfg, bbErr, low, es + {ce}, ce.dst, e.src);
    }
    assert e != ce && e !in es ==> (MayOn(cfg, bbErr, es + {ce}, e) <==>
                                    MayAt(cfg, bbErr, es, e.src) || Reaches(cfg.Forward(), ce.dst, e.src));
  }

  /** Marking one more edge out of a returning block, and all that follows from it, keeps the map right. */
  lemma OneMoreOut(cfg: Cfg, bbErr: BlockMap, low: set<Block>, es: set<Edge>, ce: Edge, before: EdgeMap, after: EdgeMap)
    requires LowField(cfg, bbErr, low, es + {ce}) && Right(cfg, bbErr, low, es, before) && cfg.HasEdge(ce)
    requires ce.src in bbErr && FromEdgeRuns(cfg, ce, bbErr[ce.src], bbErr, before, after)
    ensures Right(cfg, bbErr, low, es + {ce}, after)
  {
    if HasMay(bbErr[ce.src]) {
      MayGoesDown(cfg, bbErr, low, es, ce, before, after);
    } else {
      MustGoesDown(cfg, bbErr, low, es, ce, before, after);
    }
  }
}
