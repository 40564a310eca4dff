/** Return flags around one returning block. */
module EdgeSpread {
  import opened Graphs
  import opened ControlFlow
  import opened Flags
  import opened EdgeFlags
  import opened ReturnMarking
  import opened ForwardMarking
  import opened BackwardMarking
  import opened MayMarking

  // ---------- the reach of return flags ----------

  /** Only return nibbles of edges before block b change, and none goes back to zero. */
  ghost predicate SpreadsBefore(cfg: Cfg, b: Block, before: EdgeMap, after: EdgeMap) {
    forall e: Edge ::
      && OtherBits(At(after, e)) == OtherBits(At(before, e))
      && (At(after, e) != At(before, e) ==> cfg.HasEdge(e) && Reaches(cfg.Forward(), e.dst, b))
      && (ReturnBits(At(before, e)) != 0 ==> ReturnBits(At(after, e)) != 0)
  }

  /** Only return nibbles of edges after block b change, and none goes back to zero. */
  ghost predicate SpreadsAfter(cfg: Cfg, b: Block, before: EdgeMap, after: EdgeMap) {
    forall e: Edge ::
      && OtherBits(At(after, e)) == OtherBits(At(before, e))
      && (At(after, e) != At(before, e) ==> cfg.HasEdge(e) && Reaches(cfg.Forward(), b, e.src))
      && (ReturnBits(At(before, e)) != 0 ==> ReturnBits(At(after, e)) != 0)
  }

  /** Only return nibbles of edges before or after block b change, and none goes back to zero. */
  ghost predicate SpreadsAround(cfg: Cfg, b: Block, before: EdgeMap, after: EdgeMap) {
    forall e: Edge ::
      && OtherBits(At(after, e)) == OtherBits(At(before, e))
      && (At(after, e) != At(before, e) ==>
            cfg.HasEdge(e) && (Reaches(cfg.Forward(), e.dst, b) || Reaches(cfg.Forward(), b, e.src)))
      && (ReturnBits(At(before, e)) != 0 ==> ReturnBits(At(after, e)) != 0)
  }

  lemma AboveIsBefore(cfg: Cfg, e: Edge, before: EdgeMap, after: EdgeMap)
    requires cfg.HasEdge(e) && SpreadsAbove(cfg, e.src, before, after)
    ensures SpreadsBefore(cfg, e.dst, before, after)
  {
    AboveKeepsMarks(cfg, e.src, before, after);
    forall d: Edge | At(after, d) != At(before, d) ensures Reaches(cfg.Forward(), d.dst, e.dst) {
      BackwardIsForward(cfg, e.src, d.dst);
      EdgeIsListed(cfg, e);
      ReachNext(cfg.Forward(), d.dst, e.src, e.dst);
    }
  }

  lemma BelowIsAfter(cfg: Cfg, e: Edge, before: EdgeMap, after: EdgeMap)
    requires cfg.HasEdge(e) && SpreadsBelow(cfg, e.dst, before, after)
    ensures SpreadsAfter(cfg, e.src, before, after)
  {
    forall d: Edge | At(after, d) != At(before, d) ensures Reaches(cfg.Forward(), e.src, d.src) {
      EdgeIsListed(cfg, e);
      ReachFirst(cfg.Forward(), e.src, e.dst, d.src);
    }
  }

  lemma UpdateSpreads(cfg: Cfg, e: Edge, flag: Flag, before: EdgeMap)
    requires cfg.HasEdge(e)
    ensures var after := before[e := UpdateReturnFlag(At(before, e), flag)];
            SpreadsBefore(cfg, e.dst, before, after) && SpreadsAfter(cfg, e.src, before, after)
  {
    ReachSelf(cfg.Forward(), e.dst);
    ReachSelf(cfg.Forward(), e.src);
  }

  /** A return flag is carried on over the edge e: the edges before it are marked. */
  ghost predicate CarriedBack(cfg: Cfg, flag: Flag, edges: EdgeMap, e: Edge)
    requires cfg.HasBlock(e.src)
  {
    ReturnBits(flag) != 0 && (HasMay(flag) || OneTarget(cfg, e.src)) ==> EntersMarked(cfg, edges, e.src)
  }

  /** A return flag is carried on over the edge e: the edges after it are marked. */
  ghost predicate CarriedOn(cfg: Cfg, flag: Flag, bbErr: BlockMap, edges: EdgeMap, e: Edge) {
    ReturnBits(flag) != 0 && !Resets(bbErr, e.dst) ==> LeavesMarked(cfg, edges, e.dst)
  }

  lemma ToBlockCarries(cfg: Cfg, ce: Edge, flag: Flag, before: EdgeMap, after: EdgeMap)
    requires cfg.HasEdge(ce) && cfg.HasBlock(ce.src)
    requires !Climbs(cfg, ce, flag, before) ==> FirstStep(cfg, ce, flag, before, after)
    requires Climbs(cfg, ce, flag, before) ==> EntersMarked(cfg, after, ce.src)
    ensures CarriedBack(cfg, flag, after, ce)
  {
    if ReturnBits(flag) != 0 && (HasMay(flag) || OneTarget(cfg, ce.src)) && !Climbs(cfg, ce, flag, before) {
      ReachSelf(ReturnBack(cfg, before, MAY_RETURN_ERR), ce.src);
      forall e: Edge | cfg.HasEdge(e) && e.dst == ce.src ensures ReturnBits(At(after, e)) != 0 {
        EdgeIsListed(cfg, e);
        assert HasMay(flag);
      }
    }
  }

  /** Behind every changed edge all edges are marked. */
  ghost predicate SettlesBefore(cfg: Cfg, before: EdgeMap, after: EdgeMap) {
    forall e: Edge | At(after, e) != At(before, e) :: EntersMarked(cfg, after, e.src)
  }

  /** Past every changed edge all edges are marked. */
  ghost predicate SettlesAfter(cfg: Cfg, before: EdgeMap, after: EdgeMap) {
    forall e: Edge | At(after, e) != At(before, e) :: LeavesMarked(cfg, after, e.dst)
  }

  lemma ClosureSettles(cfg: Cfg, b: Block, before: EdgeMap, after: EdgeMap)
    requires ReturnClosure(cfg, b, MAY_RETURN_ERR, before, after)
    ensures EntersMarked(cfg, after, b) && SettlesBefore(cfg, before, after)
  {
    var g := ReturnBack(cfg, before, MAY_RETURN_ERR);
    ReachSelf(g, b);
    forall e: Edge | At(after, e) != At(before, e) ensures Reaches(g, b, e.src) {
      EdgeIsListed(cfg, e);
      UpdateReturnTwice(At(before, e), MAY_RETURN_ERR);
      ReachNext(g, b, e.dst, e.src);
    }
    forall x, e: Edge | Reaches(g, b, x) && cfg.HasEdge(e) && e.dst == x ensures ReturnBits(At(after, e)) != 0 {
      assert At(after, e) == UpdateReturnFlag(At(before, e), MAY_RETURN_ERR);
    }
  }

  /** What a flag with May achieves before an edge, from the first step of the worklist on. */
  lemma MaySettlesBefore(cfg: Cfg, ce: Edge, flag: Flag, before: EdgeMap, after: EdgeMap)
    requires cfg.HasEdge(ce) && cfg.HasBlock(ce.src) && HasMay(flag) && FirstStep(cfg, ce, flag, before, after)
    requires ReturnBits(flag) != 0
    ensures EntersMarked(cfg, after, ce.src) && SettlesBefore(cfg, before, after)
  {
    if cfg.preds[ce.src] == [] {
      forall e: Edge | cfg.HasEdge(e) && e.dst == ce.src ensures false {
        EdgeIsListed(cfg, e);
      }
    } else {
      ClosureSettles(cfg, ce.src, before, after);
    }
  }

  lemma MayFlagHasMay(flag: Flag)
    ensures HasMay(flag) ==> ReturnBits(flag) != 0
    ensures IsMayFlag(flag) ==> HasMay(flag)
  {
  }

  /** What marking at one edge of a returning block does to the flags, wherever it spreads. */
  ghost predicate EdgeMarked(flag: Flag, before: EdgeMap, after: EdgeMap, ce: Edge) {
    && (ReturnBits(flag) != 0 ==> ReturnBits(At(after, ce)) != 0)
    && (AllMarks(before) && IsMark(flag) ==> AllMarks(after))
    && (NoMust(before) && IsMayFlag(flag) ==> NoMust(after))
  }

  /** The effect of a May flag that is spread from one edge to the edges before it. */
  lemma MayFirstStep(cfg: Cfg, ce: Edge, flag: Flag, before: EdgeMap, after: EdgeMap)
    requires cfg.HasBlock(ce.src) && NoMust(before) && IsMayFlag(flag) && FirstStep(cfg, ce, flag, before, after)
    ensures NoMust(after)
    ensures Marked(cfg, after) == Marked(cfg, before) + IntoReached(cfg, Marked(cfg, before), ce.src)
  {
    MayFlagHasMay(flag);
    if cfg.preds[ce.src] == [] {
      NothingLeadsToEntry(cfg, Marked(cfg, before), ce.src);
    } else {
      ClosureMarks(cfg, ce.src, before, after);
      forall e: Edge ensures IsMark(At(after, e)) && !HasMust(At(after, e)) {
        MayUpdate(At(before, e), MAY_RETURN_ERR);
      }
    }
  }

  /** One edge to a returning block, and what it implies for the edges before it. */
  method MarkEdgeTo(cfg: Cfg, ce: Edge, flag: Flag, before: EdgeMap) returns (edges: EdgeMap)
    requires cfg.HasEdge(ce) && cfg.HasBlock(ce.src)
    ensures SpreadsBefore(cfg, ce.dst, before, edges)
    ensures EdgeMarked(flag, before, edges, ce)
    ensures CarriedBack(cfg, flag, edges, ce)
    ensures HasMay(flag) ==> SettlesBefore(cfg, before, edges)
    ensures NoMust(before) && IsMayFlag(flag) ==> Marked(cfg, edges) == MarkTo(cfg, Marked(cfg, before), ce)
    ensures EdgeRuns(cfg, ce, flag, before, edges)
  {
    edges := before[ce := UpdateReturnFlag(At(before, ce), flag)];
    ghost var e1 := edges;
    UpdateSpreads(cfg, ce, flag, before);
    edges := RecurMarkEdgesToBlock(cfg, ce, flag, edges);
    ToBlockCarries(cfg, ce, flag, e1, edges);
    AboveIsBefore(cfg, ce, e1, edges);
    AboveKeepsMarks(cfg, ce.src, e1, edges);
    MayFlagHasMay(flag);
    if HasMay(flag) {
      MaySettlesBefore(cfg, ce, flag, e1, edges);
    }
    if NoMust(before) && IsMayFlag(flag) {
      UpdateMarks(cfg, ce, flag, before);
      MayFirstStep(cfg, ce, flag, e1, edges);
    }
  }

  /** One edge from a returning block, and what it implies for the edges after it. */
  method MarkEdgeFrom(cfg: Cfg, ce: Edge, flag: Flag, bbErr: BlockMap, before: EdgeMap) returns (edges: EdgeMap)
    requires cfg.HasEdge(ce)
    ensures SpreadsAfter(cfg, ce.src, before, edges)
    ensures EdgeMarked(flag, before, edges, ce)
    ensures CarriedOn(cfg, flag, bbErr, edges, ce)
    ensures ReturnBits(flag) != 0 && !Resets(bbErr, ce.dst) ==> SettlesAfter(cfg, before, edges)
    ensures NoMust(before) && IsMayFlag(flag) ==> Marked(cfg, edges) == MarkFrom(cfg, bbErr, Marked(cfg, before), ce)
    ensures FromEdgeRuns(cfg, ce, flag, bbErr, before, edges)
  {
    edges := before[ce := UpdateReturnFlag(At(before, ce), flag)];
    ghost var e1 := edges;
    UpdateSpreads(cfg, ce, flag, before);
    edges := RecurMarkEdgesFromBlock(cfg, ce, flag, bbErr, edges);
    BelowIsAfter(cfg, ce, e1, edges);
    if NoMust(before) && IsMayFlag(flag) {
      UpdateMarks(cfg, ce, flag, before);
      if !Resets(bbErr, ce.dst) {
        MayPrevails(cfg, flag, e1);
        OnClosureMarks(cfg, ce.dst, flag, e1, edges);
        forall e: Edge ensures IsMark(At(edges, e)) && !HasMust(At(edges, e)) {
          MayUpdate(At(e1, e), flag);
        }
      }
    }
  }

  lemma MayPrevails(cfg: Cfg, flag: Flag, edges: EdgeMap)
    requires AllMarks(edges) && IsMayFlag(flag)
    ensures PrevailsOnEdges(cfg, flag, edges)
  {
  }

  // ---------- all edges of one block ----------

  /** Marking at several edges of one block; the marks stay when more edges follow. */
  ghost predicate EdgesMarked(flag: Flag, before: EdgeMap, after: EdgeMap, es: set<Edge>) {
    && (ReturnBits(flag) != 0 ==> forall e | e in es :: ReturnBits(At(after, e)) != 0)
    && (AllMarks(before) && IsMark(flag) ==> AllMarks(after))
    && (NoMust(before) && IsMayFlag(flag) ==> NoMust(after))
  }

  lemma MarksMore(flag: Flag, before: EdgeMap, e1: EdgeMap, es: set<Edge>, ce: Edge, e2: EdgeMap)
    requires EdgesMarked(flag, before, e1, es) && EdgeMarked(flag, e1, e2, ce)
    requires forall e: Edge :: ReturnBits(At(e1, e)) != 0 ==> ReturnBits(At(e2, e)) != 0
    ensures EdgesMarked(flag, before, e2, es + {ce})
  {
  }

  ghost function EdgesTo(bb: Block, ps: seq<Block>): set<Edge> {
    set p | p in ps :: Edge(p, bb)
  }

  ghost function EdgesFrom(bb: Block, ss: seq<Block>): set<Edge> {
    set s | s in ss :: Edge(bb, s)
  }

  /** The edges from the listed predecessors are dealt with one after the other. */
  ghost predicate EdgesRun(cfg: Cfg, bb: Block, flag: Flag, before: EdgeMap, ps: seq<Block>, after: EdgeMap)
    decreases |ps|, 0
  {
    if ps == [] then after == before
    else EdgesRunThen(cfg, bb, flag, before, ps[..|ps| - 1], ps[|ps| - 1], after)
  }

  ghost predicate EdgesRunThen(cfg: Cfg, bb: Block, flag: Flag, before: EdgeMap, ps: seq<Block>, p: Block,
                               after: EdgeMap)
    decreases |ps|, 1
  {
    exists now :: EdgesRun(cfg, bb, flag, before, ps, now) && EdgeRuns(cfg, Edge(p, bb), flag, now, after)
  }

  /** The edges from the given predecessors are dealt with. */
  ghost predicate ToDone(cfg: Cfg, bb: Block, flag: Flag, before: EdgeMap, edges: EdgeMap, ps: seq<Block>) {
    && SpreadsBefore(cfg, bb, before, edges)
    && EdgesMarked(flag, before, edges, EdgesTo(bb, ps))
    && (forall p | p in ps :: cfg.HasBlock(p) && CarriedBack(cfg, flag, edges, Edge(p, bb)))
    && (HasMay(flag) ==> SettlesBefore(cfg, before, edges))
    && (NoMust(before) && IsMayFlag(flag) ==> Marked(cfg, edges) == MarkAllTo(cfg, Marked(cfg, before), bb, ps))
    && EdgesRun(cfg, bb, flag, before, ps, edges)
  }

  lemma ToOneMore(cfg: Cfg, bb: Block, flag: Flag, before: EdgeMap, e1: EdgeMap, ps: seq<Block>, p: Block, e2: EdgeMap)
    requires ToDone(cfg, bb, flag, before, e1, ps) && cfg.HasBlock(p) && SpreadsBefore(cfg, bb, e1, e2)
    requires EdgeMarked(flag, e1, e2, Edge(p, bb)) && CarriedBack(cfg, flag, e2, Edge(p, bb))
    requires HasMay(flag) ==> SettlesBefore(cfg, e1, e2)
    requires NoMust(e1) && IsMayFlag(flag) ==> Marked(cfg, e2) == MarkTo(cfg, Marked(cfg, e1), Edge(p, bb))
    requires EdgeRuns(cfg, Edge(p, bb), flag, e1, e2)
    ensures ToDone(cfg, bb, flag, before, e2, ps + [p])
  {
    assert EdgesTo(bb, ps + [p]) == EdgesTo(bb, ps) + {Edge(p, bb)};
    MarksMore(flag, before, e1, EdgesTo(bb, ps), Edge(p, bb), e2);
    assert (ps + [p])[..|ps|] == ps;
    assert SpreadsBefore(cfg, bb, before, e2);
    assert HasMay(flag) ==> SettlesBefore(cfg, before, e2);
    forall q | q in ps + [p] ensures cfg.HasBlock(q) && CarriedBack(cfg, flag, e2, Edge(q, bb)) {
      assert q in ps || q == p;
    }
  }

  /** All edges to the block, and what they imply for the edges before it; no other edge changes. */
  method MarkEdgesTo(cfg: Cfg, bb: Block, flag: Flag, before: EdgeMap) returns (edges: EdgeMap)
    requires cfg.HasBlock(bb)
    ensures SpreadsBefore(cfg, bb, before, edges)
    ensures EdgesMarked(flag, before, edges, EdgesTo(bb, cfg.preds[bb]))
    ensures forall p | p in cfg.preds[bb] :: cfg.HasBlock(p) && CarriedBack(cfg, flag, edges, Edge(p, bb))
    ensures HasMay(flag) ==> SettlesBefore(cfg, before, edges)
    ensures NoMust(before) && IsMayFlag(flag) ==>
              Marked(cfg, edges) == MarkAllTo(cfg, Marked(cfg, before), bb, cfg.preds[bb])
    ensures EdgesRun(cfg, bb, flag, before, cfg.preds[bb], edges)
  {
    edges := before;
    var preds := cfg.preds[bb];
    for i := 0 to |preds|
      invariant ToDone(cfg, bb, flag, before, edges, preds[..i])
    {
      ghost var e1 := edges;
      EdgeIsListed(cfg, Edge(preds[i], bb));
      edges := MarkEdgeTo(cfg, Edge(preds[i], bb), flag, edges);
      ToOneMore(cfg, bb, flag, before, e1, preds[..i], preds[i], edges);
      assert preds[..i + 1] == preds[..i] + [preds[i]];
    }
    PrefixIsAll(preds);
  }

  /** The edges to the listed successors are dealt with one after the other. */
  ghost predicate OutRun(cfg: Cfg, bb: Block, flag: Flag, bbErr: BlockMap, before: EdgeMap, ss: seq<Block>,
                         after: EdgeMap)
    decreases |ss|, 0
  {
    if ss == [] then after == before
    else OutRunThen(cfg, bb, flag, bbErr, before, ss[..|ss| - 1], ss[|ss| - 1], after)
  }

  ghost predicate OutRunThen(cfg: Cfg, bb: Block, flag: Flag, bbErr: BlockMap, before: EdgeMap, ss: seq<Block>,
                             s: Block, after: EdgeMap)
    decreases |ss|, 1
  {
    exists now :: OutRun(cfg, bb, flag, bbErr, before, ss, now)
      && FromEdgeRuns(cfg, Edge(bb, s), flag, bbErr, now, after)
  }

  lemma OutRunOneMore(cfg: Cfg, bb: Block, flag: Flag, bbErr: BlockMap, before: EdgeMap, ss: seq<Block>, e1: EdgeMap,
                      s: Block, e2: EdgeMap)
    requires OutRun(cfg, bb, flag, bbErr, before, ss, e1) && FromEdgeRuns(cfg, Edge(bb, s), flag, bbErr, e1, e2)
    ensures OutRun(cfg, bb, flag, bbErr, before, ss + [s], e2)
  {
    assert (ss + [s])[..|ss|] == ss;
    assert OutRunThen(cfg, bb, flag, bbErr, before, ss, s, e2);
  }

  /** The edges to the given successors are dealt with. */
  ghost predicate FromDone(cfg: Cfg, bb: Block, flag: Flag, bbErr: BlockMap, before: EdgeMap, edges: EdgeMap,
                           ss: seq<Block>)
  {
    && SpreadsAfter(cfg, bb, before, edges)
    && EdgesMarked(flag, before, edges, EdgesFrom(bb, ss))
    && (forall s | s in ss :: CarriedOn(cfg, flag, bbErr, edges, Edge(bb, s)))
    && (ReturnBits(flag) != 0 && (forall s | s in ss :: !Resets(bbErr, s)) ==> SettlesAfter(cfg, before, edges))
    && (NoMust(before) && IsMayFlag(flag) ==>
          Marked(cfg, edges) == MarkAllFrom(cfg, bbErr, Marked(cfg, before), bb, ss))
    && OutRun(cfg, bb, flag, bbErr, before, ss, edges)
  }

  lemma FromOneMore(cfg: Cfg, bb: Block, flag: Flag, bbErr: BlockMap, before: EdgeMap, e1: EdgeMap, ss: seq<Block>,
                    s: Block, e2: EdgeMap)
    requires FromDone(cfg, bb, flag, bbErr, before, e1, ss) && SpreadsAfter(cfg, bb, e1, e2)
    requires EdgeMarked(flag, e1, e2, Edge(bb, s)) && CarriedOn(cfg, flag, bbErr, e2, Edge(bb, s))
    requires ReturnBits(flag) != 0 && !Resets(bbErr, s) ==> SettlesAfter(cfg, e1, e2)
    requires NoMust(e1) && IsMayFlag(flag) ==> Marked(cfg, e2) == MarkFrom(cfg, bbErr, Marked(cfg, e1), Edge(bb, s))
    requires FromEdgeRuns(cfg, Edge(bb, s), flag, bbErr, e1, e2)
    ensures FromDone(cfg, bb, flag, bbErr, before, e2, ss + [s])
  {
    assert EdgesFrom(bb, ss + [s]) == EdgesFrom(bb, ss) + {Edge(bb, s)};
    MarksMore(flag, before, e1, EdgesFrom(bb, ss), Edge(bb, s), e2);
    AllCarriedOn(cfg, bb, flag, bbErr, e1, ss, s, e2);
    SpreadsAfterTwice(cfg, bb, before, e1, e2);
    MarkAllFromOneMore(cfg, bbErr, Marked(cfg, before), bb, ss, s);
    OutRunOneMore(cfg, bb, flag, bbErr, before, ss, e1, s, e2);
    if ReturnBits(flag) != 0 && forall q | q in ss + [s] :: !Resets(bbErr, q) {
      assert forall q | q in ss :: q in ss + [s];
      assert s in ss + [s];
      AfterSettledTwice(cfg, before, e1, e2);
    }
  }

  lemma MarkAllFromOneMore(cfg: Cfg, bbErr: BlockMap, m: set<Edge>, bb: Block, ss: seq<Block>, s: Block)
    ensures MarkAllFrom(cfg, bbErr, m, bb, ss + [s])
              == MarkFrom(cfg, bbErr, MarkAllFrom(cfg, bbErr, m, bb, ss), Edge(bb, s))
  {
    assert (ss + [s])[..|ss|] == ss;
  }

  lemma SpreadsAfterTwice(cfg: Cfg, b: Block, e0: EdgeMap, e1: EdgeMap, e2: EdgeMap)
    requires SpreadsAfter(cfg, b, e0, e1) && SpreadsAfter(cfg, b, e1, e2)
    ensures SpreadsAfter(cfg, b, e0, e2)
  {
  }

  lemma AllCarriedOn(cfg: Cfg, bb: Block, flag: Flag, bbErr: BlockMap, e1: EdgeMap, ss: seq<Block>, s: Block,
                     e2: EdgeMap)
    requires forall q | q in ss :: CarriedOn(cfg, flag, bbErr, e1, Edge(bb, q))
    requires CarriedOn(cfg, flag, bbErr, e2, Edge(bb, s))
    requires forall e: Edge :: ReturnBits(At(e1, e)) != 0 ==> ReturnBits(At(e2, e)) != 0
    ensures forall q | q in ss + [s] :: CarriedOn(cfg, flag, bbErr, e2, Edge(bb, q))
  {
  }

  lemma AfterSettledTwice(cfg: Cfg, e0: EdgeMap, e1: EdgeMap, e2: EdgeMap)
    requires SettlesAfter(cfg, e0, e1) && SettlesAfter(cfg, e1, e2)
    requires forall e: Edge :: ReturnBits(At(e1, e)) != 0 ==> ReturnBits(At(e2, e)) != 0
    ensures SettlesAfter(cfg, e0, e2)
  {
    forall e: Edge | At(e2, e) != At(e0, e) ensures LeavesMarked(cfg, e2, e.dst) {
      assert At(e2, e) != At(e1, e) || At(e1, e) != At(e0, e);
    }
  }

  /** All edges from the block, and what they imply for the edges after it; no other edge changes. */
  method MarkEdgesFrom(cfg: Cfg, bb: Block, flag: Flag, bbErr: BlockMap, before: EdgeMap) returns (edges: EdgeMap)
    requires cfg.HasBlock(bb)
    ensures SpreadsAfter(cfg, bb, before, edges)
    ensures EdgesMarked(flag, before, edges, EdgesFrom(bb, cfg.succs[bb]))
    ensures forall s | s in cfg.succs[bb] :: CarriedOn(cfg, flag, bbErr, edges, Edge(bb, s))
    ensures ReturnBits(flag) != 0 && (forall s | s in cfg.succs[bb] :: !Resets(bbErr, s)) ==>
              SettlesAfter(cfg, before, edges)
    ensures NoMust(before) && IsMayFlag(flag) ==>
              Marked(cfg, edges) == MarkAllFrom(cfg, bbErr, Marked(cfg, before), bb, cfg.succs[bb])
    ensures OutRun(cfg, bb, flag, bbErr, before, cfg.succs[bb], edges)
  {
    edges := before;
    var succs := cfg.succs[bb];
    for i := 0 to |succs|
      invariant FromDone(cfg, bb, flag, bbErr, before, edges, succs[..i])
    {
      ghost var e1 := edges;
      edges := MarkEdgeFrom(cfg, Edge(bb, succs[i]), flag, bbErr, edges);
      FromOneMore(cfg, bb, flag, bbErr, before, e1, succs[..i], succs[i], edges);
      assert succs[..i + 1] == succs[..i] + [succs[i]];
    }
    PrefixIsAll(succs);
  }

  // ---------- returning blocks that do not lead to each other ----------

  /** The edge lies after a block that returns an error. */
  ghost predicate LiesBelow(cfg: Cfg, bbErr: BlockMap, e: Edge) {
    exists b :: Resets(bbErr, b) && Reaches(cfg.Forward(), b, e.src)
  }

  /** The edge lies before a block that returns an error. */
  ghost predicate LiesAbove(cfg: Cfg, bbErr: BlockMap, e: Edge) {
    exists b :: Resets(bbErr, b) && Reaches(cfg.Forward(), e.dst, b)
  }

  /** No returning block leads to a returning block over at least one edge, not even to itself. */
  ghost predicate Isolated(cfg: Cfg, bbErr: BlockMap) {
    forall e: Edge | cfg.HasEdge(e) :: !(LiesBelow(cfg, bbErr, e) && LiesAbove(cfg, bbErr, e))
  }

  /** A marked edge after a returning block leads on to marked edges. */
  ghost predicate SettledBelow(cfg: Cfg, bbErr: BlockMap, edges: EdgeMap) {
    forall e: Edge | cfg.HasEdge(e) && LiesBelow(cfg, bbErr, e) && ReturnBits(At(edges, e)) != 0 ::
      LeavesMarked(cfg, edges, e.dst)
  }

  /** A marked edge before a returning block comes from marked edges. */
  ghost predicate SettledAbove(cfg: Cfg, bbErr: BlockMap, edges: EdgeMap) {
    forall e: Edge | cfg.HasEdge(e) && LiesAbove(cfg, bbErr, e) && ReturnBits(At(edges, e)) != 0 ::
      EntersMarked(cfg, edges, e.src)
  }

  lemma ChangedIsAbove(cfg: Cfg, bbErr: BlockMap, b: Block, e0: EdgeMap, e1: EdgeMap, e: Edge)
    requires Resets(bbErr, b) && SpreadsBefore(cfg, b, e0, e1) && At(e1, e) != At(e0, e)
    ensures LiesAbove(cfg, bbErr, e)
  {
  }

  lemma ChangedIsBelow(cfg: Cfg, bbErr: BlockMap, b: Block, e0: EdgeMap, e1: EdgeMap, e: Edge)
    requires Resets(bbErr, b) && SpreadsAfter(cfg, b, e0, e1) && At(e1, e) != At(e0, e)
    ensures LiesBelow(cfg, bbErr, e)
  {
  }

  lemma BeforeKeepsBelow(cfg: Cfg, bbErr: BlockMap, b: Block, e0: EdgeMap, e1: EdgeMap)
    requires Isolated(cfg, bbErr) && Resets(bbErr, b) && SpreadsBefore(cfg, b, e0, e1)
    requires SettledBelow(cfg, bbErr, e0)
    ensures SettledBelow(cfg, bbErr, e1)
  {
    forall e: Edge | cfg.HasEdge(e) && LiesBelow(cfg, bbErr, e) && ReturnBits(At(e1, e)) != 0
      ensures LeavesMarked(cfg, e1, e.dst)
    {
      if At(e1, e) != At(e0, e) {
        ChangedIsAbove(cfg, bbErr, b, e0, e1, e);
      }
    }
  }

  lemma AfterKeepsAbove(cfg: Cfg, bbErr: BlockMap, b: Block, e0: EdgeMap, e1: EdgeMap)
    requires Isolated(cfg, bbErr) && Resets(bbErr, b) && SpreadsAfter(cfg, b, e0, e1)
    requires SettledAbove(cfg, bbErr, e0)
    ensures SettledAbove(cfg, bbErr, e1)
  {
    forall e: Edge | cfg.HasEdge(e) && LiesAbove(cfg, bbErr, e) && ReturnBits(At(e1, e)) != 0
      ensures EntersMarked(cfg, e1, e.src)
    {
      if At(e1, e) != At(e0, e) {
        ChangedIsBelow(cfg, bbErr, b, e0, e1, e);
      }
    }
  }

  lemma AfterSettlesBelow(cfg: Cfg, bbErr: BlockMap, b: Block, e0: EdgeMap, e1: EdgeMap)
    requires SpreadsAfter(cfg, b, e0, e1) && SettlesAfter(cfg, e0, e1) && SettledBelow(cfg, bbErr, e0)
    ensures SettledBelow(cfg, bbErr, e1)
  {
    forall e: Edge | cfg.HasEdge(e) && LiesBelow(cfg, bbErr, e) && ReturnBits(At(e1, e)) != 0
      ensures LeavesMarked(cfg, e1, e.dst)
    {
      if At(e1, e) == At(e0, e) {
        assert LeavesMarked(cfg, e0, e.dst);
      }
    }
  }

  lemma BeforeSettlesAbove(cfg: Cfg, bbErr: BlockMap, b: Block, e0: EdgeMap, e1: EdgeMap)
    requires SpreadsBefore(cfg, b, e0, e1) && SettlesBefore(cfg, e0, e1) && SettledAbove(cfg, bbErr, e0)
    ensures SettledAbove(cfg, bbErr, e1)
  {
    forall e: Edge | cfg.HasEdge(e) && LiesAbove(cfg, bbErr, e) && ReturnBits(At(e1, e)) != 0
      ensures EntersMarked(cfg, e1, e.src)
    {
      if At(e1, e) == At(e0, e) {
        assert EntersMarked(cfg, e0, e.src);
      }
    }
  }

  lemma SuccessorsDoNotReturn(cfg: Cfg, bbErr: BlockMap, b: Block)
    requires cfg.HasBlock(b) && Isolated(cfg, bbErr) && Resets(bbErr, b)
    ensures forall s | s in cfg.succs[b] :: !Resets(bbErr, s)
  {
    forall s | s in cfg.succs[b] ensures !Resets(bbErr, s) {
      ReachSelf(cfg.Forward(), b);
      ReachSelf(cfg.Forward(), s);
      assert cfg.HasEdge(Edge(b, s)) && LiesBelow(cfg, bbErr, Edge(b, s));
    }
  }

  // ---------- settled maps are complete ----------

  /** Everything after a block whose outgoing edges are marked is marked. */
  lemma {:induction false} AllBelowMarked(cfg: Cfg, bbErr: BlockMap, edges: EdgeMap, b: Block, x: Block, e: Edge,
                                          n: nat)
    requires SettledBelow(cfg, bbErr, edges) && Resets(bbErr, b) && Reaches(cfg.Forward(), b, x)
    requires LeavesMarked(cfg, edges, x) && ReachesIn(cfg.Forward(), x, e.src, n) && cfg.HasEdge(e)
    ensures ReturnBits(At(edges, e)) != 0
    decreases n
  {
    if n > 0 {
      var y :| y in cfg.Forward()(x) && ReachesIn(cfg.Forward(), y, e.src, n - 1);
      assert cfg.HasEdge(Edge(x, y)) && LiesBelow(cfg, bbErr, Edge(x, y));
      ReachNext(cfg.Forward(), b, x, y);
      AllBelowMarked(cfg, bbErr, edges, b, y, e, n - 1);
    }
  }

  /** Everything before a block whose incoming edges are marked is marked. */
  lemma {:induction false} AllAboveMarked(cfg: Cfg, bbErr: BlockMap, edges: EdgeMap, b: Block, x: Block, e: Edge,
                                          n: nat)
    requires SettledAbove(cfg, bbErr, edges) && Resets(bbErr, b) && Reaches(cfg.Forward(), x, b)
    requires EntersMarked(cfg, edges, x) && ReachesIn(cfg.Backward(), x, e.dst, n) && cfg.HasEdge(e)
    ensures ReturnBits(At(edges, e)) != 0
    decreases n
  {
    if n > 0 {
      var y :| y in cfg.Backward()(x) && ReachesIn(cfg.Backward(), y, e.dst, n - 1);
      EdgeIsListed(cfg, Edge(y, x));
      assert cfg.HasEdge(Edge(y, x)) && LiesAbove(cfg, bbErr, Edge(y, x));
      ReachFirst(cfg.Forward(), y, x, b);
      AllAboveMarked(cfg, bbErr, edges, b, y, e, n - 1);
    }
  }
}
