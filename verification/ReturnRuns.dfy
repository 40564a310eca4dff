/** Return flags after a whole run. */
module ReturnRuns {
  import opened Graphs
  import opened ControlFlow
  import opened Flags
  import opened EdgeFlags
  import opened BackwardMarking
  import opened EdgeSpread
  import opened Doom
  import opened ReturnAims
  import opened ForwardMarking
  import opened ForwardAims

  // ---------- what a run does to return flags ----------

  /** One block: handle flags aside, the runs into the block come first and the runs out of it follow. */
  ghost predicate BlockRuns(cfg: Cfg, bbErr: BlockMap, bb: Block, before: EdgeMap, after: EdgeMap) {
    exists now, high :: SameReturns(before, now) && Around(cfg, bbErr, bb, now, high, after)
  }

  ghost predicate SameReturns(before: EdgeMap, after: EdgeMap) {
    && (forall e: Edge :: ReturnBits(At(after, e)) == ReturnBits(At(before, e)))
    && (AllMarks(before) ==> AllMarks(after))
  }

  ghost predicate Around(cfg: Cfg, bbErr: BlockMap, bb: Block, now: EdgeMap, high: EdgeMap, after: EdgeMap) {
    if cfg.HasBlock(bb) && Resets(bbErr, bb)
    then
      && EdgesRun(cfg, bb, bbErr[bb], now, cfg.preds[bb], high) && SpreadsBefore(cfg, bb, now, high)
      && (AllMarks(now) && IsMark(bbErr[bb]) ==> AllMarks(high))
      && OutRun(cfg, bb, bbErr[bb], bbErr, high, cfg.succs[bb], after) && SpreadsAfter(cfg, bb, high, after)
    else after == now
  }

  ghost predicate AllRun(cfg: Cfg, bbErr: BlockMap, before: EdgeMap, blocks: seq<Block>, after: EdgeMap)
    decreases |blocks|, 0
  {
    if blocks == [] then after == before
    else AllRunThen(cfg, bbErr, before, blocks[..|blocks| - 1], blocks[|blocks| - 1], after)
  }

  ghost predicate AllRunThen(cfg: Cfg, bbErr: BlockMap, before: EdgeMap, blocks: seq<Block>, bb: Block, after: EdgeMap)
    decreases |blocks|, 1
  {
    exists now :: AllRun(cfg, bbErr, before, blocks, now) && BlockRuns(cfg, bbErr, bb, now, after)
  }

  lemma AllRunOneMore(cfg: Cfg, bbErr: BlockMap, e0: EdgeMap, blocks: seq<Block>, e1: EdgeMap, bb: Block, e2: EdgeMap)
    requires AllRun(cfg, bbErr, e0, blocks, e1) && BlockRuns(cfg, bbErr, bb, e1, e2)
    ensures AllRun(cfg, bbErr, e0, blocks + [bb], e2)
  {
    assert (blocks + [bb])[..|blocks|] == blocks;
  }

  lemma NothingAround(cfg: Cfg, bbErr: BlockMap, bb: Block, edges: EdgeMap)
    requires !Resets(bbErr, bb)
    ensures BlockRuns(cfg, bbErr, bb, edges, edges)
  {
    assert SameReturns(edges, edges) && Around(cfg, bbErr, bb, edges, edges, edges);
  }

  lemma AroundRuns(cfg: Cfg, bbErr: BlockMap, bb: Block, before: EdgeMap, high: EdgeMap, after: EdgeMap)
    requires Around(cfg, bbErr, bb, before, high, after)
    ensures BlockRuns(cfg, bbErr, bb, before, after)
  {
    assert SameReturns(before, before);
  }

  lemma HandledRuns(cfg: Cfg, bbErr: BlockMap, bb: Block, before: EdgeMap, handled: EdgeMap, after: EdgeMap)
    requires SameReturns(before, handled) && BlockRuns(cfg, bbErr, bb, handled, after)
    ensures BlockRuns(cfg, bbErr, bb, before, after)
  {
    var now, high :| SameReturns(handled, now) && Around(cfg, bbErr, bb, now, high, after);
    assert SameReturns(before, now);
  }

  lemma {:induction false} NothingRuns(cfg: Cfg, bbErr: BlockMap, edges: EdgeMap, blocks: seq<Block>)
    requires forall b | b in blocks :: !Resets(bbErr, b)
    ensures AllRun(cfg, bbErr, edges, blocks, edges)
  {
    if blocks != [] {
      NothingRuns(cfg, bbErr, edges, blocks[..|blocks| - 1]);
      NothingAround(cfg, bbErr, blocks[|blocks| - 1], edges);
    }
  }

  // ---------- the run is exact ----------

  /** The blocks that no returning block leads to. */
  ghost function Free(cfg: Cfg, bbErr: BlockMap): set<Block> {
    set b: Block | b in cfg.Blocks() && forall r: Block | Resets(bbErr, r) :: !Reaches(cfg.Forward(), r, b)
  }

  lemma FieldOf(cfg: Cfg, bbErr: BlockMap, es: set<Edge>)
    requires Isolated(cfg, bbErr) && AllBlockMarks(bbErr) && es <= cfg.Edges()
    requires forall e | e in es :: Resets(bbErr, e.dst)
    ensures Field(cfg, bbErr, Free(cfg, bbErr), es)
  {
    forall e: Edge | cfg.HasEdge(e) && e.dst in Free(cfg, bbErr) ensures e.src in Free(cfg, bbErr) {
      EdgeIsListed(cfg, e);
      forall r: Block | Resets(bbErr, r) ensures !Reaches(cfg.Forward(), r, e.src) {
        if Reaches(cfg.Forward(), r, e.src) {
          ReachNext(cfg.Forward(), r, e.src, e.dst);
        }
      }
    }
    forall e | e in es ensures e.src in Free(cfg, bbErr) && e.dst !in Free(cfg, bbErr) {
      EdgeIsListed(cfg, e);
      ReachSelf(cfg.Forward(), e.dst);
      assert LiesAbove(cfg, bbErr, e);
      assert !LiesBelow(cfg, bbErr, e);
    }
  }

  ghost predicate Clear(cfg: Cfg, bbErr: BlockMap) {
    Isolated(cfg, bbErr) && AllBlockMarks(bbErr) && TwoWay(cfg, bbErr)
  }

  lemma {:induction false} EdgesRunIsExact(cfg: Cfg, bbErr: BlockMap, es: set<Edge>, bb: Block, e0: EdgeMap,
                                           ps: seq<Block>, e1: EdgeMap)
    requires Clear(cfg, bbErr) && Resets(bbErr, bb) && es <= cfg.Edges() && forall e | e in es :: Resets(bbErr, e.dst)
    requires forall p | p in ps :: cfg.HasEdge(Edge(p, bb))
    requires Exact(cfg, bbErr, Free(cfg, bbErr), es, e0) && EdgesRun(cfg, bb, bbErr[bb], e0, ps, e1)
    ensures Exact(cfg, bbErr, Free(cfg, bbErr), es + EdgesTo(bb, ps), e1)
    decreases |ps|
  {
    if ps == [] {
      assert es + EdgesTo(bb, ps) == es;
    } else {
      var n := |ps| - 1;
      var ce := Edge(ps[n], bb);
      var now :| EdgesRun(cfg, bb, bbErr[bb], e0, ps[..n], now) && EdgeRuns(cfg, ce, bbErr[bb], now, e1);
      assert ps == ps[..n] + [ps[n]];
      var es1 := es + EdgesTo(bb, ps[..n]);
      assert es + EdgesTo(bb, ps) == es1 + {ce};
      forall e | e in es1 + {ce} ensures e in cfg.Edges() && Resets(bbErr, e.dst) {
        EdgeIsListed(cfg, e);
        assert e in es || e.src in ps;
      }
      EdgesRunIsExact(cfg, bbErr, es, bb, e0, ps[..n], now);
      FieldOf(cfg, bbErr, es1 + {ce});
      OneMoreEdge(cfg, bbErr, Free(cfg, bbErr), es1, ce, now, e1);
    }
  }

  lemma BlockRunIsExact(cfg: Cfg, bbErr: BlockMap, rs: set<Block>, bb: Block, before: EdgeMap, after: EdgeMap)
    requires Clear(cfg, bbErr) && cfg.HasBlock(bb) && forall r | r in rs :: Resets(bbErr, r)
    requires Exact(cfg, bbErr, Free(cfg, bbErr), EdgesInto(cfg, rs), before) && BlockRuns(cfg, bbErr, bb, before, after)
    ensures Exact(cfg, bbErr, Free(cfg, bbErr), EdgesInto(cfg, rs + Returners(bbErr, {bb})), after)
  {
    var free, es := Free(cfg, bbErr), EdgesInto(cfg, rs);
    var now, high :| SameReturns(before, now) && Around(cfg, bbErr, bb, now, high, after);
    assert Exact(cfg, bbErr, free, es, now);
    if Resets(bbErr, bb) {
      forall e: Edge ensures e in cfg.Edges() && e.dst == bb <==> e in EdgesTo(bb, cfg.preds[bb]) {
        EdgeIsListed(cfg, e);
      }
      forall p | p in cfg.preds[bb] ensures cfg.HasEdge(Edge(p, bb)) {
        EdgeIsListed(cfg, Edge(p, bb));
      }
      EdgesRunIsExact(cfg, bbErr, es, bb, now, cfg.preds[bb], high);
      assert EdgesInto(cfg, rs + Returners(bbErr, {bb})) == es + EdgesTo(bb, cfg.preds[bb]);
    } else {
      assert rs + Returners(bbErr, {bb}) == rs;
    }
  }

  lemma {:induction false} RunIsExactFrom(cfg: Cfg, bbErr: BlockMap, before: EdgeMap, blocks: seq<Block>,
                                          after: EdgeMap)
    requires Clear(cfg, bbErr) && Items(blocks) <= cfg.Blocks() && AllRun(cfg, bbErr, before, blocks, after)
    requires Exact(cfg, bbErr, Free(cfg, bbErr), {}, before)
    ensures Exact(cfg, bbErr, Free(cfg, bbErr), EdgesInto(cfg, Returners(bbErr, Items(blocks))), after)
    decreases |blocks|
  {
    if blocks == [] {
      assert EdgesInto(cfg, Returners(bbErr, Items(blocks))) == {};
    } else {
      var n := |blocks| - 1;
      var now :| AllRun(cfg, bbErr, before, blocks[..n], now) && BlockRuns(cfg, bbErr, blocks[n], now, after);
      assert blocks == blocks[..n] + [blocks[n]] && blocks[n] in Items(blocks);
      RunIsExactFrom(cfg, bbErr, before, blocks[..n], now);
      BlockRunIsExact(cfg, bbErr, Returners(bbErr, Items(blocks[..n])), blocks[n], now, after);
      assert Returners(bbErr, Items(blocks)) == Returners(bbErr, Items(blocks[..n])) + Returners(bbErr, {blocks[n]});
    }
  }

  /** Without marked edges nothing is doomed and nothing leads to May. */
  lemma NothingToAim(cfg: Cfg, bbErr: BlockMap, edges: EdgeMap)
    requires NoReturns(edges)
    ensures Exact(cfg, bbErr, Free(cfg, bbErr), {}, edges)
  {
    forall e: Edge ensures Aim(cfg, bbErr, {}, e) == 0 {
      if Doomed(cfg, {}, Musts(bbErr, {}), e.dst) {
        DoomedLeads(cfg, {}, Musts(bbErr, {}), e.dst);
        assert false;
      }
    }
  }

  /** From a map without return flags the return flags of all edges that no returning block leads to are exact. */
  lemma AllRunIsExact(cfg: Cfg, bbErr: BlockMap, before: EdgeMap, blocks: seq<Block>, after: EdgeMap)
    requires Isolated(cfg, bbErr) && AllBlockMarks(bbErr) && TwoWay(cfg, bbErr)
    requires Items(blocks) <= cfg.Blocks() && NoReturns(before) && AllRun(cfg, bbErr, before, blocks, after)
    ensures Exact(cfg, bbErr, Free(cfg, bbErr), EdgesInto(cfg, Returners(bbErr, Items(blocks))), after)
  {
    NothingToAim(cfg, bbErr, before);
    RunIsExactFrom(cfg, bbErr, before, blocks, after);
  }

  // ---------- the run is exact below returning blocks as well ----------

  /** The blocks at the end of an edge that lies after a returning block. */
  ghost function Low(cfg: Cfg, bbErr: BlockMap): set<Block> {
    set e | e in cfg.Edges() && LiesBelow(cfg, bbErr, e) :: e.dst
  }

  lemma LowIsBelow(cfg: Cfg, bbErr: BlockMap, e: Edge)
    requires Isolated(cfg, bbErr) && cfg.HasEdge(e) && e.dst in Low(cfg, bbErr)
    ensures !LiesAbove(cfg, bbErr, e)
  {
    var d :| d in cfg.Edges() && LiesBelow(cfg, bbErr, d) && d.dst == e.dst;
    EdgeIsListed(cfg, d);
    assert LiesAbove(cfg, bbErr, d) <==> LiesAbove(cfg, bbErr, e);
  }

  lemma LowFieldOf(cfg: Cfg, bbErr: BlockMap, es: set<Edge>)
    requires Isolated(cfg, bbErr) && AllBlockMarks(bbErr) && NoBoth(bbErr) && es <= cfg.Edges()
    requires forall s | s in es :: Resets(bbErr, s.src)
    ensures LowField(cfg, bbErr, Low(cfg, bbErr), es)
  {
    forall e: Edge | cfg.HasEdge(e) && (e.src in Low(cfg, bbErr) || e in es) ensures e.dst in Low(cfg, bbErr) {
      EdgeIsListed(cfg, e);
      if e in es {
        ReachSelf(cfg.Forward(), e.src);
        assert LiesBelow(cfg, bbErr, e);
      } else {
        var d :| d in cfg.Edges() && LiesBelow(cfg, bbErr, d) && d.dst == e.src;
        BelowGoesOn(cfg, bbErr, d, e);
      }
    }
    forall b | b in Low(cfg, bbErr) ensures !Resets(bbErr, b) {
      var d :| d in cfg.Edges() && LiesBelow(cfg, bbErr, d) && d.dst == b;
      EdgeIsListed(cfg, d);
      ReachSelf(cfg.Forward(), b);
      assert Resets(bbErr, b) ==> LiesAbove(cfg, bbErr, d);
    }
    forall s | s in es ensures cfg.HasEdge(s) {
      EdgeIsListed(cfg, s);
    }
  }

  lemma BelowGoesOn(cfg: Cfg, bbErr: BlockMap, d: Edge, e: Edge)
    requires d in cfg.Edges() && cfg.HasEdge(e) && d.dst == e.src && LiesBelow(cfg, bbErr, d)
    ensures LiesBelow(cfg, bbErr, e)
  {
    EdgeIsListed(cfg, d);
    var r :| Resets(bbErr, r) && Reaches(cfg.Forward(), r, d.src);
    ReachNext(cfg.Forward(), r, d.src, d.dst);
  }

  ghost predicate Plain(cfg: Cfg, bbErr: BlockMap) {
    Isolated(cfg, bbErr) && AllBlockMarks(bbErr) && NoBoth(bbErr)
  }

  lemma {:induction false} OutRunIsRight(cfg: Cfg, bbErr: BlockMap, es: set<Edge>, bb: Block, e0: EdgeMap,
                                         ss: seq<Block>, e1: EdgeMap)
    requires Plain(cfg, bbErr) && Resets(bbErr, bb) && es <= cfg.Edges() && forall e | e in es :: Resets(bbErr, e.src)
    requires forall s | s in ss :: cfg.HasEdge(Edge(bb, s))
    requires Right(cfg, bbErr, Low(cfg, bbErr), es, e0) && OutRun(cfg, bb, bbErr[bb], bbErr, e0, ss, e1)
    ensures Right(cfg, bbErr, Low(cfg, bbErr), es + EdgesFrom(bb, ss), e1)
    decreases |ss|
  {
    if ss == [] {
      assert es + EdgesFrom(bb, ss) == es;
    } else {
      var n := |ss| - 1;
      var ce := Edge(bb, ss[n]);
      var now :| OutRun(cfg, bb, bbErr[bb], bbErr, e0, ss[..n], now)
        && FromEdgeRuns(cfg, ce, bbErr[bb], bbErr, now, e1);
      assert ss == ss[..n] + [ss[n]];
      var es1 := es + EdgesFrom(bb, ss[..n]);
      assert es + EdgesFrom(bb, ss) == es1 + {ce};
      forall e | e in es1 + {ce} ensures e in cfg.Edges() && Resets(bbErr, e.src) {
        EdgeIsListed(cfg, e);
        assert e in es || e.dst in ss;
      }
      OutRunIsRight(cfg, bbErr, es, bb, e0, ss[..n], now);
      LowFieldOf(cfg, bbErr, es1 + {ce});
      OneMoreOut(cfg, bbErr, Low(cfg, bbErr), es1, ce, now, e1);
    }
  }

  /** What happens before a returning block changes nothing below any. */
  lemma RightBeforeOut(cfg: Cfg, bbErr: BlockMap, es: set<Edge>, bb: Block, before: EdgeMap, now: EdgeMap,
                       high: EdgeMap)
    requires Plain(cfg, bbErr) && Resets(bbErr, bb) && Right(cfg, bbErr, Low(cfg, bbErr), es, before)
    requires SameReturns(before, now) && SpreadsBefore(cfg, bb, now, high) && (AllMarks(now) ==> AllMarks(high))
    ensures Right(cfg, bbErr, Low(cfg, bbErr), es, high)
  {
    forall e: Edge | cfg.HasEdge(e) && e.dst in Low(cfg, bbErr) ensures RightAt(cfg, bbErr, es, high, e) {
      assert RightAt(cfg, bbErr, es, before, e);
      LowIsBelow(cfg, bbErr, e);
      assert At(high, e) == At(now, e);
      SameChain(At(before, e), At(now, e));
    }
  }

  lemma SameChain(f: Flag, g: Flag)
    requires InChain(f) && ReturnBits(f) == ReturnBits(g) && IsMark(g)
    ensures InChain(g)
  {
  }

  lemma BlockRunIsRight(cfg: Cfg, bbErr: BlockMap, rs: set<Block>, bb: Block, before: EdgeMap, after: EdgeMap)
    requires Plain(cfg, bbErr) && cfg.HasBlock(bb) && forall r | r in rs :: Resets(bbErr, r)
    requires Right(cfg, bbErr, Low(cfg, bbErr), EdgesOutOf(cfg, rs), before) && BlockRuns(cfg, bbErr, bb, before, after)
    ensures Right(cfg, bbErr, Low(cfg, bbErr), EdgesOutOf(cfg, rs + Returners(bbErr, {bb})), after)
  {
    var es := EdgesOutOf(cfg, rs);
    var now, high :| SameReturns(before, now) && Around(cfg, bbErr, bb, now, high, after);
    if Resets(bbErr, bb) {
      RightBeforeOut(cfg, bbErr, es, bb, before, now, high);
      forall e: Edge ensures e in cfg.Edges() && e.src == bb <==> e in EdgesFrom(bb, cfg.succs[bb]) {
        EdgeIsListed(cfg, e);
      }
      OutRunIsRight(cfg, bbErr, es, bb, high, cfg.succs[bb], after);
      assert EdgesOutOf(cfg, rs + Returners(bbErr, {bb})) == es + EdgesFrom(bb, cfg.succs[bb]);
    } else {
      assert rs + Returners(bbErr, {bb}) == rs;
      forall e: Edge | cfg.HasEdge(e) && e.dst in Low(cfg, bbErr) ensures RightAt(cfg, bbErr, es, now, e) {
        assert RightAt(cfg, bbErr, es, before, e);
        SameChain(At(before, e), At(now, e));
      }
    }
  }

  lemma {:induction false} RunIsRightFrom(cfg: Cfg, bbErr: BlockMap, before: EdgeMap, blocks: seq<Block>,
                                          after: EdgeMap)
    requires Plain(cfg, bbErr) && Items(blocks) <= cfg.Blocks() && AllRun(cfg, bbErr, before, blocks, after)
    requires Right(cfg, bbErr, Low(cfg, bbErr), {}, before)
    ensures Right(cfg, bbErr, Low(cfg, bbErr), EdgesOutOf(cfg, Returners(bbErr, Items(blocks))), after)
    decreases |blocks|
  {
    if blocks == [] {
      assert EdgesOutOf(cfg, Returners(bbErr, Items(blocks))) == {};
    } else {
      var n := |blocks| - 1;
      var now :| AllRun(cfg, bbErr, before, blocks[..n], now) && BlockRuns(cfg, bbErr, blocks[n], now, after);
      assert blocks == blocks[..n] + [blocks[n]] && blocks[n] in Items(blocks);
      RunIsRightFrom(cfg, bbErr, before, blocks[..n], now);
      BlockRunIsRight(cfg, bbErr, Returners(bbErr, Items(blocks[..n])), blocks[n], now, after);
      assert Returners(bbErr, Items(blocks)) == Returners(bbErr, Items(blocks[..n])) + Returners(bbErr, {blocks[n]});
    }
  }

  /** Everything after one of the given blocks carries a return flag. */
  ghost predicate MarkedBelow(cfg: Cfg, returners: set<Block>, edges: EdgeMap) {
    forall e: Edge, b | cfg.HasEdge(e) && b in returners && Reaches(cfg.Forward(), b, e.src) ::
      ReturnBits(At(edges, e)) != 0
  }

  /** One of the given returning blocks with May leads to b. */
  ghost predicate MayAbove(cfg: Cfg, bbErr: BlockMap, rs: set<Block>, b: Block) {
    exists r | r in rs && r in bbErr && HasMay(bbErr[r]) :: Reaches(cfg.Forward(), r, b)
  }

  /** What lies after one of the given blocks is May if one with May leads to it, and Must otherwise. */
  ghost predicate BelowExact(cfg: Cfg, bbErr: BlockMap, rs: set<Block>, edges: EdgeMap) {
    forall e: Edge, b | cfg.HasEdge(e) && b in rs && Reaches(cfg.Forward(), b, e.src) ::
      ReturnBits(At(edges, e)) == if MayAbove(cfg, bbErr, rs, e.src) then MAY_RETURN_ERR else MUST_RETURN_ERR
  }

  lemma ReturnersApart(cfg: Cfg, bbErr: BlockMap, a: Block, b: Block)
    requires Isolated(cfg, bbErr) && Resets(bbErr, a) && Resets(bbErr, b) && Reaches(cfg.Forward(), a, b)
    ensures a == b
  {
    if a != b {
      var t := LeadsSplits(cfg, a, b);
      ReachSelf(cfg.Forward(), a);
      assert LiesBelow(cfg, bbErr, Edge(a, t)) && LiesAbove(cfg, bbErr, Edge(a, t));
      assert cfg.HasEdge(Edge(a, t));
    }
  }

  lemma MayOnIsMayAbove(cfg: Cfg, bbErr: BlockMap, rs: set<Block>, e: Edge)
    requires Plain(cfg, bbErr) && cfg.HasEdge(e) && forall r | r in rs :: Resets(bbErr, r)
    ensures MayOn(cfg, bbErr, EdgesOutOf(cfg, rs), e) <==> MayAbove(cfg, bbErr, rs, e.src)
  {
    var es := EdgesOutOf(cfg, rs);
    EdgeIsListed(cfg, e);
    assert e in es <==> e.src in rs;
    if MayAbove(cfg, bbErr, rs, e.src) {
      var r :| r in rs && r in bbErr && HasMay(bbErr[r]) && Reaches(cfg.Forward(), r, e.src);
      if e in es {
        ReturnersApart(cfg, bbErr, r, e.src);
      } else {
        var t := LeadsSplits(cfg, r, e.src);
        EdgeIsListed(cfg, Edge(r, t));
        assert Edge(r, t) in es;
      }
    }
    if MayOn(cfg, bbErr, es, e) {
      if e in es {
        ReachSelf(cfg.Forward(), e.src);
      } else {
        var s :| s in es && s.src in bbErr && HasMay(bbErr[s.src]) && Reaches(cfg.Forward(), s.dst, e.src);
        EdgeIsListed(cfg, s);
        ReachFirst(cfg.Forward(), s.src, s.dst, e.src);
      }
    }
  }

  /** From a map without return flags the return flags of all edges that a returning block leads to are exact. */
  lemma AllRunIsExactBelow(cfg: Cfg, bbErr: BlockMap, before: EdgeMap, blocks: seq<Block>, after: EdgeMap)
    requires Isolated(cfg, bbErr) && AllBlockMarks(bbErr) && NoBoth(bbErr)
    requires Items(blocks) <= cfg.Blocks() && NoReturns(before) && AllMarks(before)
    requires AllRun(cfg, bbErr, before, blocks, after) && MarkedBelow(cfg, Returners(bbErr, Items(blocks)), after)
    ensures BelowExact(cfg, bbErr, Returners(bbErr, Items(blocks)), after)
  {
    var rs := Returners(bbErr, Items(blocks));
    NothingIsRight(cfg, bbErr, before);
    RunIsRightFrom(cfg, bbErr, before, blocks, after);
    forall e: Edge, b | cfg.HasEdge(e) && b in rs && Reaches(cfg.Forward(), b, e.src)
      ensures ReturnBits(At(after, e)) == if MayAbove(cfg, bbErr, rs, e.src) then MAY_RETURN_ERR else MUST_RETURN_ERR
    {
      EdgeIsListed(cfg, e);
      assert LiesBelow(cfg, bbErr, e);
      assert RightAt(cfg, bbErr, EdgesOutOf(cfg, rs), after, e);
      MayOnIsMayAbove(cfg, bbErr, rs, e);
      ChainNibbles(At(after, e));
    }
  }

  lemma NothingIsRight(cfg: Cfg, bbErr: BlockMap, edges: EdgeMap)
    requires NoReturns(edges) && AllMarks(edges)
    ensures Right(cfg, bbErr, Low(cfg, bbErr), {}, edges)
  {
    forall e: Edge ensures InChain(At(edges, e)) {
      assert IsMark(At(edges, e)) && ReturnBits(At(edges, e)) == 0;
    }
  }
}
