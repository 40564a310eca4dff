/** Marking all edges of a function. */
module EdgeMarking {
  import opened Graphs
  import opened ControlFlow
  import opened Flags
  import opened EdgeFlags
  import opened HandleMarking
  import opened ForwardMarking
  import opened BackwardMarking
  import opened MayMarking
  import opened EdgeSpread
  import opened ReturnAims
  import opened ReturnRuns
  import opened ForwardAims

  // ---------- the meaning of handle flags ----------

  /** A block with one successor has no choice but to run into it. */
  ghost function Sole(cfg: Cfg): Graph
  {
    (b: Block) => if cfg.HasBlock(b) && |cfg.succs[b]| <= 1 then set s | s in cfg.succs[b] else {}
  }

  /** A chain of single-successor blocks leads from t to b. */
  ghost predicate Forced(cfg: Cfg, t: Block, b: Block)
  {
    Reaches(Sole(cfg), t, b)
  }

  ghost function SoleBack(cfg: Cfg): Graph
  {
    (b: Block) => if cfg.HasBlock(b) then set p | p in cfg.preds[b] && |cfg.succs[p]| <= 1 else {}
  }

  /** A marked edge out of a single-successor block is never the first mark of its chain. */
  ghost predicate HandleClosed(cfg: Cfg, edges: EdgeMap)
  {
    forall e: Edge, d: Edge | cfg.HasEdge(e) && MustHandle(At(edges, e)) && |cfg.succs[e.src]| <= 1
                              && cfg.HasEdge(d) && d.dst == e.src ::
      MustHandle(At(edges, d))
  }

  /** Marks at the end of a forced chain show at its start. */
  lemma {:induction false} ForcedIsMarked(cfg: Cfg, b: Block, edges: EdgeMap, t: Block, n: nat, d: Edge)
    requires HandleClosed(cfg, edges) && forall e: Edge | cfg.HasEdge(e) && e.dst == b :: MustHandle(At(edges, e))
    requires ReachesIn(Sole(cfg), t, b, n) && cfg.HasEdge(d) && d.dst == t
    ensures MustHandle(At(edges, d))
    decreases n
  {
    if n != 0 {
      var c :| c in Sole(cfg)(t) && ReachesIn(Sole(cfg), c, b, n - 1);
      EdgeIsListed(cfg, Edge(t, c));
      ForcedIsMarked(cfg, b, edges, c, n - 1, Edge(t, c));
    }
  }

  lemma MarkedIsForced(cfg: Cfg, b: Block, e0: EdgeMap, t: Block)
    requires Reaches(HandleBack(cfg, e0), b, t)
    ensures Forced(cfg, t, b)
  {
    SubgraphReaches(HandleBack(cfg, e0), SoleBack(cfg), b, t);
    forall x: Block, y: Block ensures y in Sole(cfg)(x) <==> x in SoleBack(cfg)(y) {
      EdgeIsListed(cfg, Edge(x, y));
    }
    ReachFlips(Sole(cfg), SoleBack(cfg), t, b);
  }

  /** One handler adds exactly the edges from which control is forced into it. */
  lemma HandlerAdds(cfg: Cfg, b: Block, e0: EdgeMap, e1: EdgeMap)
    requires HandleClosed(cfg, e0) && HandleClosure(cfg, b, e0, e1)
    ensures HandleClosed(cfg, e1)
    ensures forall e: Edge | cfg.HasEdge(e) ::
              MustHandle(At(e1, e)) <==> MustHandle(At(e0, e)) || Forced(cfg, e.dst, b)
  {
    var g := HandleBack(cfg, e0);
    forall e: Edge, d: Edge | cfg.HasEdge(e) && MustHandle(At(e1, e)) && |cfg.succs[e.src]| <= 1
                              && cfg.HasEdge(d) && d.dst == e.src
      ensures MustHandle(At(e1, d))
    {
      EdgeIsListed(cfg, e);
      if !MustHandle(At(e0, e)) {
        ReachNext(g, b, e.dst, e.src);
      }
    }
    ReachSelf(g, b);
    forall e: Edge | cfg.HasEdge(e)
      ensures MustHandle(At(e1, e)) <==> MustHandle(At(e0, e)) || Forced(cfg, e.dst, b)
    {
      if MustHandle(At(e1, e)) && !MustHandle(At(e0, e)) {
        MarkedIsForced(cfg, b, e0, e.dst);
      }
      if Forced(cfg, e.dst, b) {
        var n: nat :| ReachesIn(Sole(cfg), e.dst, b, n);
        ForcedIsMarked(cfg, b, e1, e.dst, n, e);
      }
    }
  }

  // ---------- the whole marking run ----------

  ghost predicate HandlesError(bbErr: BlockMap, b: Block) {
    b in bbErr && MustHandle(bbErr[b])
  }

  ghost function Handlers(bbErr: BlockMap, bs: set<Block>): set<Block> {
    set b | b in bs && HandlesError(bbErr, b)
  }

  /** The handle flags stem exactly from being forced into one of the given handlers. */
  ghost predicate HandleExact(cfg: Cfg, handlers: set<Block>, before: EdgeMap, after: EdgeMap)
  {
    forall e: Edge | cfg.HasEdge(e) ::
      MustHandle(At(after, e)) <==> MustHandle(At(before, e)) || exists b | b in handlers :: Forced(cfg, e.dst, b)
  }

  /** Only edges before or after one of the given blocks get another return nibble; none goes back to zero. */
  ghost predicate ReturnBounded(cfg: Cfg, returners: set<Block>, before: EdgeMap, after: EdgeMap) {
    forall e: Edge ::
      && (ReturnBits(At(before, e)) != 0 ==> ReturnBits(At(after, e)) != 0)
      && (ReturnBits(At(after, e)) != ReturnBits(At(before, e)) ==>
            cfg.HasEdge(e) &&
            exists b | b in returners :: Reaches(cfg.Forward(), e.dst, b) || Reaches(cfg.Forward(), b, e.src))
  }

  /** The edges at a returning block are marked, and the mark is carried on to both sides. */
  ghost predicate ReturnCovered(cfg: Cfg, bbErr: BlockMap, b: Block, edges: EdgeMap)
    requires cfg.HasBlock(b) && b in bbErr
  {
    && EntersMarked(cfg, edges, b) && LeavesMarked(cfg, edges, b)
    && (forall p | p in cfg.preds[b] :: CarriedBack(cfg, bbErr[b], edges, Edge(p, b)))
    && (forall s | s in cfg.succs[b] :: CarriedOn(cfg, bbErr[b], bbErr, edges, Edge(b, s)))
  }

  /** What marking from the given blocks has achieved. */
  ghost predicate MarkedFrom(cfg: Cfg, bbErr: BlockMap, bs: set<Block>, before: EdgeMap, after: EdgeMap)
    requires bs <= cfg.Blocks()
  {
    && (HandleClosed(cfg, before) ==> HandleClosed(cfg, after) &&
                                      HandleExact(cfg, Handlers(bbErr, bs), before, after))
    && ReturnBounded(cfg, Returners(bbErr, bs), before, after)
    && (forall b | b in bs && Resets(bbErr, b) :: ReturnCovered(cfg, bbErr, b, after))
    && (AllMarks(before) && AllBlockMarks(bbErr) ==> AllMarks(after))
    && (NoMust(before) && AllBlockMarks(bbErr) && (forall b | b in Returners(bbErr, bs) :: !HasMust(bbErr[b])) ==>
          NoMust(after))
  }

  /** The flags of the given blocks that return an error all have May. */
  ghost predicate AllHaveMay(bbErr: BlockMap, bs: set<Block>) {
    forall b | b in bs && Resets(bbErr, b) :: HasMay(bbErr[b])
  }

  /** The given blocks return no error, or they only may. */
  ghost predicate AllAreMay(bbErr: BlockMap, bs: set<Block>) {
    forall b | b in bs && Resets(bbErr, b) :: IsMayFlag(bbErr[b])
  }

  /** Where returning blocks do not lead to each other, marking from some of them keeps the map settled. */
  ghost predicate KeepsSettled(cfg: Cfg, bbErr: BlockMap, bs: set<Block>, before: EdgeMap, after: EdgeMap) {
    && (Isolated(cfg, bbErr) && SettledBelow(cfg, bbErr, before) ==> SettledBelow(cfg, bbErr, after))
    && (Isolated(cfg, bbErr) && AllHaveMay(bbErr, bs) && SettledAbove(cfg, bbErr, before) ==>
          SettledAbove(cfg, bbErr, after))
  }

  lemma SameReturnsSettled(cfg: Cfg, bbErr: BlockMap, e0: EdgeMap, e1: EdgeMap)
    requires forall e: Edge :: ReturnBits(At(e1, e)) == ReturnBits(At(e0, e))
    ensures SettledBelow(cfg, bbErr, e0) ==> SettledBelow(cfg, bbErr, e1)
    ensures SettledAbove(cfg, bbErr, e0) ==> SettledAbove(cfg, bbErr, e1)
    ensures Marked(cfg, e1) == Marked(cfg, e0)
  {
  }

  lemma CoverLasts(cfg: Cfg, bbErr: BlockMap, b: Block, e0: EdgeMap, e1: EdgeMap)
    requires cfg.HasBlock(b) && b in bbErr && ReturnCovered(cfg, bbErr, b, e0)
    requires forall e: Edge :: ReturnBits(At(e0, e)) != 0 ==> ReturnBits(At(e1, e)) != 0
    ensures ReturnCovered(cfg, bbErr, b, e1)
  {
  }

  lemma AroundKeepsHandles(cfg: Cfg, b: Block, e0: EdgeMap, e1: EdgeMap)
    requires SpreadsAround(cfg, b, e0, e1)
    ensures forall e: Edge :: MustHandle(At(e1, e)) <==> MustHandle(At(e0, e))
    ensures HandleClosed(cfg, e0) ==> HandleClosed(cfg, e1)
  {
    forall e: Edge ensures MustHandle(At(e1, e)) <==> MustHandle(At(e0, e)) {
      assert OtherBits(At(e1, e)) == OtherBits(At(e0, e));
    }
  }

  lemma HandleOnly(cfg: Cfg, b: Block, before: EdgeMap, after: EdgeMap)
    requires HandleClosure(cfg, b, before, after)
    ensures HandleClosed(cfg, before) ==> HandleClosed(cfg, after) && HandleExact(cfg, {b}, before, after)
    ensures forall e: Edge :: ReturnBits(At(after, e)) == ReturnBits(At(before, e))
    ensures AllMarks(before) ==> AllMarks(after)
    ensures NoMust(before) ==> NoMust(after)
  {
    forall e: Edge
      ensures ReturnBits(At(after, e)) == ReturnBits(At(before, e))
      ensures HasMust(At(after, e)) <==> HasMust(At(before, e))
      ensures IsMark(At(before, e)) ==> IsMark(At(after, e))
    {
      assert At(after, e) == At(before, e) || At(after, e) == UpdateHandleFlag(At(before, e), MUST_HANDLE_ERR);
    }
    if HandleClosed(cfg, before) {
      HandlerAdds(cfg, b, before, after);
      forall e: Edge | cfg.HasEdge(e)
        ensures MustHandle(At(after, e)) <==> MustHandle(At(before, e)) || exists c | c in {b} :: Forced(cfg, e.dst, c)
      {
        assert b in {b};
      }
    }
  }

  /** What the handler mark of one block does. */
  ghost predicate HandlerDone(cfg: Cfg, bb: Block, flag: Flag, before: EdgeMap, after: EdgeMap) {
    && (HandleClosed(cfg, before) ==>
          HandleClosed(cfg, after) && HandleExact(cfg, if MustHandle(flag) then {bb} else {}, before, after))
    && (forall e: Edge :: ReturnBits(At(after, e)) == ReturnBits(At(before, e)))
    && (AllMarks(before) ==> AllMarks(after))
    && (NoMust(before) ==> NoMust(after))
  }

  /** The handle part of marking one block. */
  method MarkHandler(cfg: Cfg, bb: Block, flag: Flag, before: EdgeMap) returns (edges: EdgeMap)
    requires cfg.HasBlock(bb)
    ensures HandlerDone(cfg, bb, flag, before, edges)
  {
    edges := before;
    // The successors of a handler are left alone
    if MustHandle(flag) {
      edges := RecurMarkEdgesToErrHandle(cfg, bb, edges);
      HandleOnly(cfg, bb, before, edges);
    }
  }

  lemma ReturnerSettles(cfg: Cfg, bb: Block, flag: Flag, bbErr: BlockMap, e0: EdgeMap, e1: EdgeMap, e2: EdgeMap)
    requires cfg.HasBlock(bb) && Resets(bbErr, bb) && bbErr[bb] == flag
    requires SpreadsBefore(cfg, bb, e0, e1) && SpreadsAfter(cfg, bb, e1, e2)
    requires HasMay(flag) ==> SettlesBefore(cfg, e0, e1)
    requires (forall s | s in cfg.succs[bb] :: !Resets(bbErr, s)) ==> SettlesAfter(cfg, e1, e2)
    ensures KeepsSettled(cfg, bbErr, {bb}, e0, e2)
  {
    if Isolated(cfg, bbErr) {
      if SettledBelow(cfg, bbErr, e0) {
        BeforeKeepsBelow(cfg, bbErr, bb, e0, e1);
        SuccessorsDoNotReturn(cfg, bbErr, bb);
        AfterSettlesBelow(cfg, bbErr, bb, e1, e2);
      }
      if AllHaveMay(bbErr, {bb}) && SettledAbove(cfg, bbErr, e0) {
        BeforeSettlesAbove(cfg, bbErr, bb, e0, e1);
        AfterKeepsAbove(cfg, bbErr, bb, e1, e2);
      }
    }
  }

  /** What the return marks of one block do. */
  ghost predicate ReturnerDone(cfg: Cfg, bb: Block, flag: Flag, bbErr: BlockMap, before: EdgeMap, after: EdgeMap)
    requires cfg.HasBlock(bb)
  {
    && SpreadsAround(cfg, bb, before, after)
    && (!Resets(bbErr, bb) ==> after == before)
    && (Resets(bbErr, bb) ==> ReturnCovered(cfg, bbErr, bb, after))
    && (AllMarks(before) && IsMark(flag) ==> AllMarks(after))
    && (NoMust(before) && IsMark(flag) && !HasMust(flag) ==> NoMust(after))
    && BlockRuns(cfg, bbErr, bb, before, after)
  }

  /** The return part of marking one block. */
  method MarkReturner(cfg: Cfg, bb: Block, flag: Flag, bbErr: BlockMap, before: EdgeMap) returns (edges: EdgeMap)
    requires cfg.HasBlock(bb) && bb in bbErr && bbErr[bb] == flag
    ensures ReturnerDone(cfg, bb, flag, bbErr, before, edges)
    ensures KeepsSettled(cfg, bbErr, {bb}, before, edges)
    ensures NoMust(before) && AllAreMay(bbErr, {bb}) ==>
              NoMust(edges) && Marked(cfg, edges) == MarkAround(cfg, bbErr, Marked(cfg, before), bb)
  {
    edges := before;
    if ReturnBits(flag) != 0 {
      edges := MarkEdgesTo(cfg, bb, flag, edges);
      ghost var e1 := edges;
      edges := MarkEdgesFrom(cfg, bb, flag, bbErr, edges);
      ReturnerSettles(cfg, bb, flag, bbErr, before, e1, edges);
      ReturnerIsDone(cfg, bb, flag, bbErr, before, e1, edges);
    } else {
      NothingAround(cfg, bbErr, bb, edges);
    }
  }

  lemma ReturnerIsDone(cfg: Cfg, bb: Block, flag: Flag, bbErr: BlockMap, e0: EdgeMap, e1: EdgeMap, e2: EdgeMap)
    requires cfg.HasBlock(bb) && Resets(bbErr, bb) && bbErr[bb] == flag
    requires SpreadsBefore(cfg, bb, e0, e1) && SpreadsAfter(cfg, bb, e1, e2)
    requires EdgesMarked(flag, e0, e1, EdgesTo(bb, cfg.preds[bb]))
    requires forall p | p in cfg.preds[bb] :: CarriedBack(cfg, flag, e1, Edge(p, bb))
    requires EdgesMarked(flag, e1, e2, EdgesFrom(bb, cfg.succs[bb]))
    requires forall s | s in cfg.succs[bb] :: CarriedOn(cfg, flag, bbErr, e2, Edge(bb, s))
    requires EdgesRun(cfg, bb, flag, e0, cfg.preds[bb], e1) && OutRun(cfg, bb, flag, bbErr, e1, cfg.succs[bb], e2)
    ensures ReturnerDone(cfg, bb, flag, bbErr, e0, e2)
  {
    BothSidesCovered(cfg, bb, flag, bbErr, e0, e1, e2);
    AroundRuns(cfg, bbErr, bb, e0, e1, e2);
    MayOrNotMust(flag);
  }

  lemma MayOrNotMust(flag: Flag)
    ensures IsMark(flag) && !HasMust(flag) && ReturnBits(flag) != 0 ==> IsMayFlag(flag)
  {
  }

  lemma BothSidesCovered(cfg: Cfg, bb: Block, flag: Flag, bbErr: BlockMap, e0: EdgeMap, e1: EdgeMap, e2: EdgeMap)
    requires cfg.HasBlock(bb) && Resets(bbErr, bb) && bbErr[bb] == flag
    requires EdgesMarked(flag, e0, e1, EdgesTo(bb, cfg.preds[bb])) && SpreadsAfter(cfg, bb, e1, e2)
    requires forall p | p in cfg.preds[bb] :: CarriedBack(cfg, flag, e1, Edge(p, bb))
    requires EdgesMarked(flag, e1, e2, EdgesFrom(bb, cfg.succs[bb]))
    requires forall s | s in cfg.succs[bb] :: CarriedOn(cfg, flag, bbErr, e2, Edge(bb, s))
    ensures ReturnCovered(cfg, bbErr, bb, e2)
  {
    forall e: Edge | cfg.HasEdge(e)
      ensures e.dst == bb ==> e in EdgesTo(bb, cfg.preds[bb])
      ensures e.src == bb ==> e in EdgesFrom(bb, cfg.succs[bb])
    {
      EdgeIsListed(cfg, e);
    }
  }

  lemma BlockBounded(cfg: Cfg, bbErr: BlockMap, b: Block, e0: EdgeMap, e1: EdgeMap, e2: EdgeMap)
    requires forall e: Edge :: ReturnBits(At(e1, e)) == ReturnBits(At(e0, e))
    requires SpreadsAround(cfg, b, e1, e2) && (!Resets(bbErr, b) ==> e2 == e1)
    ensures ReturnBounded(cfg, Returners(bbErr, {b}), e0, e2)
  {
    forall e: Edge | ReturnBits(At(e2, e)) != ReturnBits(At(e0, e))
      ensures cfg.HasEdge(e)
      ensures exists c | c in Returners(bbErr, {b}) ::
                Reaches(cfg.Forward(), e.dst, c) || Reaches(cfg.Forward(), c, e.src)
    {
      assert At(e2, e) != At(e1, e);
      assert b in Returners(bbErr, {b});
    }
  }

  lemma BlockHandled(cfg: Cfg, bbErr: BlockMap, b: Block, e0: EdgeMap, e1: EdgeMap, e2: EdgeMap)
    requires b in bbErr && HandlerDone(cfg, b, bbErr[b], e0, e1) && SpreadsAround(cfg, b, e1, e2)
    ensures HandleClosed(cfg, e0) ==> HandleClosed(cfg, e2) && HandleExact(cfg, Handlers(bbErr, {b}), e0, e2)
  {
    AroundKeepsHandles(cfg, b, e1, e2);
    assert Handlers(bbErr, {b}) == if MustHandle(bbErr[b]) then {b} else {};
  }

  lemma BlockMarked(cfg: Cfg, bbErr: BlockMap, b: Block, e0: EdgeMap, e1: EdgeMap, e2: EdgeMap)
    requires cfg.HasBlock(b) && b in bbErr
    requires HandlerDone(cfg, b, bbErr[b], e0, e1) && ReturnerDone(cfg, b, bbErr[b], bbErr, e1, e2)
    ensures MarkedFrom(cfg, bbErr, {b}, e0, e2)
  {
    BlockHandled(cfg, bbErr, b, e0, e1, e2);
    BlockBounded(cfg, bbErr, b, e0, e1, e2);
    if forall c | c in Returners(bbErr, {b}) :: !HasMust(bbErr[c]) {
      assert Resets(bbErr, b) ==> b in Returners(bbErr, {b});
    }
  }

  lemma HandleExactTwice(cfg: Cfg, hs1: set<Block>, hs2: set<Block>, e0: EdgeMap, e1: EdgeMap, e2: EdgeMap)
    requires HandleExact(cfg, hs1, e0, e1) && HandleExact(cfg, hs2, e1, e2)
    ensures HandleExact(cfg, hs1 + hs2, e0, e2)
  {
    forall e: Edge | cfg.HasEdge(e)
      ensures (exists b | b in hs1 + hs2 :: Forced(cfg, e.dst, b)) <==>
              (exists b | b in hs1 :: Forced(cfg, e.dst, b)) || (exists b | b in hs2 :: Forced(cfg, e.dst, b))
    {
      if b :| b in hs1 + hs2 && Forced(cfg, e.dst, b) {
        assert b in hs1 || b in hs2;
      }
    }
  }

  lemma ReturnBoundedTwice(cfg: Cfg, rs1: set<Block>, rs2: set<Block>, e0: EdgeMap, e1: EdgeMap, e2: EdgeMap)
    requires ReturnBounded(cfg, rs1, e0, e1) && ReturnBounded(cfg, rs2, e1, e2)
    ensures ReturnBounded(cfg, rs1 + rs2, e0, e2)
  {
    forall e: Edge | ReturnBits(At(e2, e)) != ReturnBits(At(e0, e))
      ensures cfg.HasEdge(e)
      ensures exists b | b in rs1 + rs2 :: Reaches(cfg.Forward(), e.dst, b) || Reaches(cfg.Forward(), b, e.src)
    {
      if ReturnBits(At(e2, e)) != ReturnBits(At(e1, e)) {
        var b :| b in rs2 && (Reaches(cfg.Forward(), e.dst, b) || Reaches(cfg.Forward(), b, e.src));
        assert b in rs1 + rs2;
      } else {
        var b :| b in rs1 && (Reaches(cfg.Forward(), e.dst, b) || Reaches(cfg.Forward(), b, e.src));
        assert b in rs1 + rs2;
      }
    }
  }

  /** Marking from some blocks and then from others is marking from all of them. */
  lemma {:induction false} MarkedTwice(cfg: Cfg, bbErr: BlockMap, bs1: set<Block>, bs2: set<Block>, e0: EdgeMap,
                                       e1: EdgeMap, e2: EdgeMap)
    requires bs1 <= cfg.Blocks() && bs2 <= cfg.Blocks()
    requires MarkedFrom(cfg, bbErr, bs1, e0, e1) && MarkedFrom(cfg, bbErr, bs2, e1, e2)
    ensures MarkedFrom(cfg, bbErr, bs1 + bs2, e0, e2)
  {
    assert Handlers(bbErr, bs1 + bs2) == Handlers(bbErr, bs1) + Handlers(bbErr, bs2);
    assert Returners(bbErr, bs1 + bs2) == Returners(bbErr, bs1) + Returners(bbErr, bs2);
    if HandleClosed(cfg, e0) {
      HandleExactTwice(cfg, Handlers(bbErr, bs1), Handlers(bbErr, bs2), e0, e1, e2);
    }
    ReturnBoundedTwice(cfg, Returners(bbErr, bs1), Returners(bbErr, bs2), e0, e1, e2);
    forall b | b in bs1 + bs2 && Resets(bbErr, b) ensures ReturnCovered(cfg, bbErr, b, e2) {
      if b in bs1 {
        CoverLasts(cfg, bbErr, b, e1, e2);
      }
    }
  }

  /** One block: first its handler mark, then its return marks. */
  method MarkBlock(cfg: Cfg, bb: Block, bbErr: BlockMap, before: EdgeMap) returns (edges: EdgeMap)
    requires cfg.HasBlock(bb)
    ensures MarkedFrom(cfg, bbErr, {bb}, before, edges)
    ensures KeepsSettled(cfg, bbErr, {bb}, before, edges)
    ensures NoMust(before) && AllAreMay(bbErr, {bb}) ==>
              NoMust(edges) && Marked(cfg, edges) == MarkAround(cfg, bbErr, Marked(cfg, before), bb)
    ensures BlockRuns(cfg, bbErr, bb, before, edges)
  {
    edges := before;
    if bb !in bbErr {
      NothingAround(cfg, bbErr, bb, edges);
      return;
    }
    edges := MarkHandler(cfg, bb, bbErr[bb], edges);
    ghost var e1 := edges;
    SameReturnsSettled(cfg, bbErr, before, e1);
    edges := MarkReturner(cfg, bb, bbErr[bb], bbErr, edges);
    BlockMarked(cfg, bbErr, bb, before, e1, edges);
    HandledRuns(cfg, bbErr, bb, before, e1, edges);
  }

  /** Exactly what lies before or after one of the given blocks carries a return flag. */
  ghost predicate ReturnExact(cfg: Cfg, returners: set<Block>, edges: EdgeMap) {
    forall e: Edge | cfg.HasEdge(e) ::
      ReturnBits(At(edges, e)) != 0 <==>
      exists b | b in returners :: Reaches(cfg.Forward(), e.dst, b) || Reaches(cfg.Forward(), b, e.src)
  }

  lemma SettledIsMarkedBelow(cfg: Cfg, bbErr: BlockMap, bs: set<Block>, before: EdgeMap, after: EdgeMap)
    requires bs <= cfg.Blocks() && MarkedFrom(cfg, bbErr, bs, before, after) && SettledBelow(cfg, bbErr, after)
    ensures MarkedBelow(cfg, Returners(bbErr, bs), after)
  {
    forall e: Edge, b | cfg.HasEdge(e) && b in Returners(bbErr, bs) && Reaches(cfg.Forward(), b, e.src)
      ensures ReturnBits(At(after, e)) != 0
    {
      assert ReturnCovered(cfg, bbErr, b, after);
      var n: nat :| ReachesIn(cfg.Forward(), b, e.src, n);
      ReachSelf(cfg.Forward(), b);
      AllBelowMarked(cfg, bbErr, after, b, b, e, n);
    }
  }

  lemma SettledIsExact(cfg: Cfg, bbErr: BlockMap, bs: set<Block>, before: EdgeMap, after: EdgeMap)
    requires bs <= cfg.Blocks() && MarkedFrom(cfg, bbErr, bs, before, after) && NoReturns(before)
    requires SettledBelow(cfg, bbErr, after) && SettledAbove(cfg, bbErr, after)
    ensures ReturnExact(cfg, Returners(bbErr, bs), after)
  {
    SettledIsMarkedBelow(cfg, bbErr, bs, before, after);
    forall e: Edge, b | cfg.HasEdge(e) && b in Returners(bbErr, bs) && Reaches(cfg.Forward(), e.dst, b)
      ensures ReturnBits(At(after, e)) != 0
    {
      assert ReturnCovered(cfg, bbErr, b, after);
      BackwardIsForward(cfg, b, e.dst);
      var n: nat :| ReachesIn(cfg.Backward(), b, e.dst, n);
      ReachSelf(cfg.Forward(), b);
      AllAboveMarked(cfg, bbErr, after, b, b, e, n);
    }
  }

  lemma NoReturnsIsSettled(cfg: Cfg, bbErr: BlockMap, edges: EdgeMap)
    requires NoReturns(edges)
    ensures SettledBelow(cfg, bbErr, edges) && SettledAbove(cfg, bbErr, edges)
  {
  }

  method MarkAllEdgesErrFlag(cfg: Cfg, blocks: seq<Block>, bbErr: BlockMap, before: EdgeMap)
    returns (any: bool, edges: EdgeMap)
    requires Items(blocks) <= cfg.Blocks()
    ensures any <==> |bbErr| != 0
    ensures MarkedFrom(cfg, bbErr, Items(blocks), before, edges)
    ensures NoReturns(before) && Isolated(cfg, bbErr) ==> MarkedBelow(cfg, Returners(bbErr, Items(blocks)), edges)
    ensures NoReturns(before) && Isolated(cfg, bbErr) && AllHaveMay(bbErr, Items(blocks)) ==>
              ReturnExact(cfg, Returners(bbErr, Items(blocks)), edges)
    ensures NoMust(before) && AllAreMay(bbErr, Items(blocks)) ==>
              Marked(cfg, edges) == MarkRun(cfg, bbErr, Marked(cfg, before), blocks)
    ensures NoReturns(before) && Isolated(cfg, bbErr) && AllBlockMarks(bbErr) && TwoWay(cfg, bbErr) ==>
              Exact(cfg, bbErr, Free(cfg, bbErr), EdgesInto(cfg, Returners(bbErr, Items(blocks))), edges)
    ensures NoReturns(before) && AllMarks(before) && Isolated(cfg, bbErr) && AllBlockMarks(bbErr) && NoBoth(bbErr) ==>
              BelowExact(cfg, bbErr, Returners(bbErr, Items(blocks)), edges)
    ensures AllRun(cfg, bbErr, before, blocks, edges)
  {
    edges := before;
    any := |bbErr| != 0;
    if !any {
      NothingFlagged(cfg, blocks, bbErr, before);
      RunIsExact(cfg, bbErr, blocks, before, edges);
      return;
    }
    RunStarts(cfg, bbErr, before);
    for i := 0 to |blocks|
      invariant RunDone(cfg, bbErr, blocks[..i], before, edges)
    {
      assert blocks[i] in Items(blocks);
      assert blocks[..i + 1] == blocks[..i] + [blocks[i]];
      ghost var e0 := edges;
      edges := MarkBlock(cfg, blocks[i], bbErr, edges);
      RunGoesOn(cfg, bbErr, blocks[..i], blocks[i], before, e0, edges);
    }
    PrefixIsAll(blocks);
    RunIsExact(cfg, bbErr, blocks, before, edges);
  }

  /** What the run over a list of blocks has achieved. */
  ghost predicate RunDone(cfg: Cfg, bbErr: BlockMap, blocks: seq<Block>, before: EdgeMap, after: EdgeMap) {
    && Items(blocks) <= cfg.Blocks()
    && MarkedFrom(cfg, bbErr, Items(blocks), before, after)
    && KeepsSettled(cfg, bbErr, Items(blocks), before, after)
    && (NoMust(before) && AllAreMay(bbErr, Items(blocks)) ==>
          NoMust(after) && Marked(cfg, after) == MarkRun(cfg, bbErr, Marked(cfg, before), blocks))
    && AllRun(cfg, bbErr, before, blocks, after)
  }

  lemma RunStarts(cfg: Cfg, bbErr: BlockMap, edges: EdgeMap)
    ensures RunDone(cfg, bbErr, [], edges, edges)
  {
    assert Items<Block>([]) == {};
    assert Handlers(bbErr, {}) == {};
  }

  lemma RunGoesOn(cfg: Cfg, bbErr: BlockMap, blocks: seq<Block>, bb: Block, e0: EdgeMap, e1: EdgeMap, e2: EdgeMap)
    requires RunDone(cfg, bbErr, blocks, e0, e1) && cfg.HasBlock(bb) && MarkedFrom(cfg, bbErr, {bb}, e1, e2)
    requires KeepsSettled(cfg, bbErr, {bb}, e1, e2)
    requires NoMust(e1) && AllAreMay(bbErr, {bb}) ==>
               NoMust(e2) && Marked(cfg, e2) == MarkAround(cfg, bbErr, Marked(cfg, e1), bb)
    requires BlockRuns(cfg, bbErr, bb, e1, e2)
    ensures RunDone(cfg, bbErr, blocks + [bb], e0, e2)
  {
    assert Items(blocks + [bb]) == Items(blocks) + {bb};
    MarkedTwice(cfg, bbErr, Items(blocks), {bb}, e0, e1, e2);
    SettledTwice(cfg, bbErr, Items(blocks), {bb}, e0, e1, e2);
    RunOneMore(cfg, bbErr, Marked(cfg, e0), blocks, bb);
    AllRunOneMore(cfg, bbErr, e0, blocks, e1, bb, e2);
  }

  lemma SettledTwice(cfg: Cfg, bbErr: BlockMap, bs1: set<Block>, bs2: set<Block>, e0: EdgeMap, e1: EdgeMap, e2: EdgeMap)
    requires KeepsSettled(cfg, bbErr, bs1, e0, e1) && KeepsSettled(cfg, bbErr, bs2, e1, e2)
    ensures KeepsSettled(cfg, bbErr, bs1 + bs2, e0, e2)
    ensures AllAreMay(bbErr, bs1 + bs2) <==> AllAreMay(bbErr, bs1) && AllAreMay(bbErr, bs2)
  {
    assert AllHaveMay(bbErr, bs1 + bs2) <==> AllHaveMay(bbErr, bs1) && AllHaveMay(bbErr, bs2);
  }

  lemma RunIsExact(cfg: Cfg, bbErr: BlockMap, blocks: seq<Block>, before: EdgeMap, after: EdgeMap)
    requires RunDone(cfg, bbErr, blocks, before, after)
    ensures NoReturns(before) && Isolated(cfg, bbErr) ==> MarkedBelow(cfg, Returners(bbErr, Items(blocks)), after)
    ensures NoReturns(before) && Isolated(cfg, bbErr) && AllHaveMay(bbErr, Items(blocks)) ==>
              ReturnExact(cfg, Returners(bbErr, Items(blocks)), after)
    ensures NoReturns(before) && Isolated(cfg, bbErr) && AllBlockMarks(bbErr) && TwoWay(cfg, bbErr) ==>
              Exact(cfg, bbErr, Free(cfg, bbErr), EdgesInto(cfg, Returners(bbErr, Items(blocks))), after)
    ensures NoReturns(before) && AllMarks(before) && Isolated(cfg, bbErr) && AllBlockMarks(bbErr) && NoBoth(bbErr) ==>
              BelowExact(cfg, bbErr, Returners(bbErr, Items(blocks)), after)
  {
    if NoReturns(before) && Isolated(cfg, bbErr) && AllBlockMarks(bbErr) && TwoWay(cfg, bbErr) {
      AllRunIsExact(cfg, bbErr, before, blocks, after);
    }
    var bs := Items(blocks);
    if NoReturns(before) && Isolated(cfg, bbErr) {
      NoReturnsIsSettled(cfg, bbErr, before);
      SettledIsMarkedBelow(cfg, bbErr, bs, before, after);
      if AllMarks(before) && AllBlockMarks(bbErr) && NoBoth(bbErr) {
        AllRunIsExactBelow(cfg, bbErr, before, blocks, after);
      }
      if AllHaveMay(bbErr, bs) {
        SettledIsExact(cfg, bbErr, bs, before, after);
      }
    }
  }

  /** Without any flagged block there is nothing to mark. */
  lemma NothingFlagged(cfg: Cfg, blocks: seq<Block>, bbErr: BlockMap, edges: EdgeMap)
    requires Items(blocks) <= cfg.Blocks() && |bbErr| == 0
    ensures RunDone(cfg, bbErr, blocks, edges, edges)
  {
    assert Handlers(bbErr, Items(blocks)) == {};
    RunOverOthers(cfg, bbErr, Marked(cfg, edges), [], blocks);
    assert [] + blocks == blocks;
    NothingRuns(cfg, bbErr, edges, blocks);
  }

  /** Two orders of the same blocks, both from the entry block: the worklists leave different edges marked. */
  method BlockOrderMatters() returns (upper: EdgeMap, lower: EdgeMap)
    ensures multiset(UPPER_FIRST) == multiset(LOWER_FIRST)
    ensures TWO_RETURNERS.preds[UPPER_FIRST[0]] == [] && TWO_RETURNERS.preds[LOWER_FIRST[0]] == []
    ensures AllRun(TWO_RETURNERS, MAY_FLAGS, map[], UPPER_FIRST, upper) && ReturnBits(At(upper, Edge(3, 5))) != 0
    ensures AllRun(TWO_RETURNERS, MAY_FLAGS, map[], LOWER_FIRST, lower) && ReturnBits(At(lower, Edge(3, 5))) == 0
  {
    var any;
    assert Items(UPPER_FIRST) <= TWO_RETURNERS.Blocks() && Items(LOWER_FIRST) <= TWO_RETURNERS.Blocks();
    any, upper := MarkAllEdgesErrFlag(TWO_RETURNERS, UPPER_FIRST, MAY_FLAGS, map[]);
    any, lower := MarkAllEdgesErrFlag(TWO_RETURNERS, LOWER_FIRST, MAY_FLAGS, map[]);
    BlockOrderDecides();
    MayFlagsAreMay();
    assert Marked(TWO_RETURNERS, map[]) == {};
    EdgeIsListed(TWO_RETURNERS, Edge(3, 5));
  }

  lemma MayFlagsAreMay()
    ensures forall bs :: AllAreMay(MAY_FLAGS, bs)
    ensures NoMust(map[])
  {
    assert IsMayFlag(MAY_RETURN_ERR);
  }

  /** From an empty map every precondition of the marking holds. */
  lemma EmptyMapIsClosed(cfg: Cfg)
    ensures HandleClosed(cfg, map[]) && AllMarks(map[])
  {
  }
}
