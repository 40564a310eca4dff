/** From code to security checks. */
module SecurityPass {
  import opened Graphs
  import opened ControlFlow
  import opened Flags
  import opened EdgeFlags
  import opened BlockMarks
  import opened Ir
  import opened ErrorFlow
  import opened ValueFlow
  import opened ReturnFlow
  import opened ForwardMarking
  import opened BackwardMarking
  import opened MayMarking
  import opened EdgeSpread
  import opened Doom
  import opened ReturnAims
  import opened ReturnRuns
  import opened ForwardAims
  import opened EdgeMarking
  import opened SecurityChecks

  /** All values that influence what the function returns. */
  ghost function ReturnInfluences(p: Program, t: Tables, f: Func): set<Value>
    requires f < |p.funcs|
  {
    Influences(VisitsOf(p, t, f), |p.nodes|, ReturnedBy(p, CodeOf(p, f)))
  }

  ghost function ReturnMarks(p: Program, t: Tables, f: Func): set<Mark>
    requires f < |p.funcs|
  {
    MarksOf(VisitsOf(p, t, f), ReturnInfluences(p, t, f))
  }

  /** The blocks of the function where an error code may be set. */
  ghost function ReturningBlocks(p: Program, t: Tables, f: Func): set<Block>
    requires f < |p.funcs|
  {
    set b | b in p.funcs[f].blocks && SetsError(ReturnMarks(p, t, f), b)
  }

  ghost predicate SetsError(ms: set<Mark>, b: Block) {
    Mark(b, MUST_RETURN_ERR) in ms || Mark(b, MAY_RETURN_ERR) in ms
  }

  /** No block that sets an error code leads to such a block over at least one edge. */
  ghost predicate ReturnsApart(cfg: Cfg, ms: set<Mark>) {
    forall e: Edge, a: Block, b: Block | cfg.HasEdge(e) && SetsError(ms, a) && SetsError(ms, b) ::
      !(Reaches(cfg.Forward(), a, e.src) && Reaches(cfg.Forward(), e.dst, b))
  }

  /** Every block of the function that sets an error code only may do so on some path. */
  ghost predicate AllMayReturn(p: Program, t: Tables, f: Func)
    requires f < |p.funcs|
  {
    forall b | b in ReturningBlocks(p, t, f) :: Mark(b, MAY_RETURN_ERR) in ReturnMarks(p, t, f)
  }

  /** The blocks of the function that call an error handler. */
  ghost function HandlingBlocks(p: Program, t: Tables, f: Func): set<Block>
    requires f < |p.funcs|
  {
    set b | b in p.funcs[f].blocks && Handling(p, t, b)
  }

  ghost predicate ForcedIntoHandler(p: Program, t: Tables, f: Func, s: Block)
    requires f < |p.funcs|
  {
    exists b | b in HandlingBlocks(p, t, f) :: Forced(p.cfg, s, b)
  }

  /** What the marked edges of a function mean in terms of its code. */
  ghost predicate EdgesMean(p: Program, t: Tables, f: Func, edges: EdgeMap)
    requires f < |p.funcs|
  {
    && AllMarks(edges)
    && (forall e: Edge | p.cfg.HasEdge(e) :: MustHandle(At(edges, e)) <==> ForcedIntoHandler(p, t, f, e.dst))
    && (forall e: Edge | ReturnBits(At(edges, e)) != 0 ::
          p.cfg.HasEdge(e) && exists b | b in ReturningBlocks(p, t, f) ::
            Reaches(p.cfg.Forward(), e.dst, b) || Reaches(p.cfg.Forward(), b, e.src))
    && (forall b | b in ReturningBlocks(p, t, f) :: EntersMarked(p.cfg, edges, b) && LeavesMarked(p.cfg, edges, b))
    && ((forall b | b in p.funcs[f].blocks :: Mark(b, MUST_RETURN_ERR) !in ReturnMarks(p, t, f)) ==> NoMust(edges))
    && ApartMeans(p, t, f, edges)
  }

  /** Above blocks that set an error code every branch has at most two targets. */
  ghost predicate ReturnsTwoWay(cfg: Cfg, ms: set<Mark>) {
    forall e: Edge, b: Block
      | cfg.HasEdge(e) && SetsError(ms, e.dst) && cfg.HasBlock(b) && Reaches(cfg.Forward(), b, e.src) ::
      TwoTargets(cfg, b)
  }

  /** The returning blocks that set a definite error code and nothing else. */
  ghost function OnlyMust(p: Program, t: Tables, f: Func): set<Block>
    requires f < |p.funcs|
  {
    set b | b in ReturningBlocks(p, t, f) && Mark(b, MAY_RETURN_ERR) !in ReturnMarks(p, t, f)
  }

  /** The block sets a definite error code, or every path from it runs into a block that sets nothing else. */
  ghost predicate SureToReturn(p: Program, t: Tables, f: Func, b: Block)
    requires f < |p.funcs|
  {
    if b in ReturningBlocks(p, t, f) then Mark(b, MUST_RETURN_ERR) in ReturnMarks(p, t, f)
    else Doomed(p.cfg, EdgesInto(p.cfg, ReturningBlocks(p, t, f)), EdgesInto(p.cfg, OnlyMust(p, t, f)), b)
  }

  /** The block may set an error code, or some path from it runs into a block that may. */
  ghost predicate LikelyToReturn(p: Program, t: Tables, f: Func, b: Block)
    requires f < |p.funcs|
  {
    if b in ReturningBlocks(p, t, f) then Mark(b, MAY_RETURN_ERR) in ReturnMarks(p, t, f)
    else LeadsTo(p.cfg, EdgesInto(p.cfg, ReturningBlocks(p, t, f)) - EdgesInto(p.cfg, OnlyMust(p, t, f)), b)
  }

  /** No block that sets an error code leads to b. */
  ghost predicate BeforeReturns(p: Program, t: Tables, f: Func, b: Block)
    requires f < |p.funcs|
  {
    forall r: Block | SetsError(ReturnMarks(p, t, f), r) :: !Reaches(p.cfg.Forward(), r, b)
  }

  /** The Must and May flags of the edges that no returning block leads to. */
  ghost predicate NibblesMean(p: Program, t: Tables, f: Func, edges: EdgeMap)
    requires f < |p.funcs|
  {
    forall e: Edge | p.cfg.HasEdge(e) && BeforeReturns(p, t, f, e.src) ::
      && (HasMust(At(edges, e)) <==> SureToReturn(p, t, f, e.dst))
      && (HasMay(At(edges, e)) <==> LikelyToReturn(p, t, f, e.dst))
  }

  /** No block sets a definite error code and a possible one. */
  ghost predicate NoBothMarks(ms: set<Mark>) {
    forall b: Block :: !(Mark(b, MUST_RETURN_ERR) in ms && Mark(b, MAY_RETURN_ERR) in ms)
  }

  /** A block that only may set an error code leads to b. */
  ghost predicate MayBefore(p: Program, t: Tables, f: Func, b: Block)
    requires f < |p.funcs|
  {
    exists r | r in ReturningBlocks(p, t, f) && Mark(r, MAY_RETURN_ERR) in ReturnMarks(p, t, f) ::
      Reaches(p.cfg.Forward(), r, b)
  }

  /** Edges after a returning block are May if a block that may set an error code leads to them, else Must. */
  ghost predicate AfterMeans(p: Program, t: Tables, f: Func, edges: EdgeMap)
    requires f < |p.funcs|
  {
    forall e: Edge, r | p.cfg.HasEdge(e) && r in ReturningBlocks(p, t, f) && Reaches(p.cfg.Forward(), r, e.src) ::
      && (HasMay(At(edges, e)) <==> MayBefore(p, t, f, e.src))
      && (HasMust(At(edges, e)) <==> !MayBefore(p, t, f, e.src))
  }

  /** What the return flags of edges mean when the returning blocks lie apart. */
  ghost predicate ApartMeans(p: Program, t: Tables, f: Func, edges: EdgeMap)
    requires f < |p.funcs|
  {
    ReturnsApart(p.cfg, ReturnMarks(p, t, f)) ==>
      && MarkedBelow(p.cfg, ReturningBlocks(p, t, f), edges)
      && (AllMayReturn(p, t, f) ==> ReturnExact(p.cfg, ReturningBlocks(p, t, f), edges))
      && (ReturnsTwoWay(p.cfg, ReturnMarks(p, t, f)) ==> NibblesMean(p, t, f, edges))
      && (NoBothMarks(ReturnMarks(p, t, f)) ==> AfterMeans(p, t, f, edges))
  }

  lemma BlocksMean(p: Program, t: Tables, f: Func, b1: BlockMap, bbErr: BlockMap)
    requires f < |p.funcs|
    requires Absorbed(map[], b1, ReturnMarks(p, t, f))
    requires Absorbed(b1, bbErr, HandlerMarks(p, t, Items(p.funcs[f].blocks)))
    ensures AllBlockMarks(bbErr)
    ensures Handlers(bbErr, Items(p.funcs[f].blocks)) == HandlingBlocks(p, t, f)
    ensures Returners(bbErr, Items(p.funcs[f].blocks)) == ReturningBlocks(p, t, f)
    ensures forall b | b in Returners(bbErr, Items(p.funcs[f].blocks)) ::
              HasMust(bbErr[b]) ==> Mark(b, MUST_RETURN_ERR) in ReturnMarks(p, t, f)
    ensures ReturnsApart(p.cfg, ReturnMarks(p, t, f)) ==> Isolated(p.cfg, bbErr)
    ensures AllMayReturn(p, t, f) ==> AllHaveMay(bbErr, Items(p.funcs[f].blocks))
    ensures forall b: Block :: BlockMeans(p, t, f, b, bbErr)
  {
    FlowMarksAreReturns(p, t, f);
    forall b: Block ensures BlockMeans(p, t, f, b, bbErr) {
      OneBlockMeans(p, t, f, b1, bbErr, b);
    }
    BlockSetsMean(p, t, f, bbErr);
    BlockBitsMean(p, t, f, bbErr);
    BlocksLieApart(p, t, f, bbErr);
  }

  lemma BlockSetsMean(p: Program, t: Tables, f: Func, bbErr: BlockMap)
    requires f < |p.funcs| && forall b: Block :: BlockMeans(p, t, f, b, bbErr)
    ensures AllBlockMarks(bbErr)
    ensures Handlers(bbErr, Items(p.funcs[f].blocks)) == HandlingBlocks(p, t, f)
    ensures Returners(bbErr, Items(p.funcs[f].blocks)) == ReturningBlocks(p, t, f)
  {
    forall b: Block
      ensures b in bbErr ==> IsMark(bbErr[b])
      ensures b in Handlers(bbErr, Items(p.funcs[f].blocks)) <==> b in HandlingBlocks(p, t, f)
      ensures b in Returners(bbErr, Items(p.funcs[f].blocks)) <==> b in ReturningBlocks(p, t, f)
    {
      assert BlockMeans(p, t, f, b, bbErr);
    }
  }

  lemma BlockBitsMean(p: Program, t: Tables, f: Func, bbErr: BlockMap)
    requires f < |p.funcs| && forall b: Block :: BlockMeans(p, t, f, b, bbErr)
    requires Returners(bbErr, Items(p.funcs[f].blocks)) == ReturningBlocks(p, t, f)
    ensures forall b | b in Returners(bbErr, Items(p.funcs[f].blocks)) ::
              HasMust(bbErr[b]) ==> Mark(b, MUST_RETURN_ERR) in ReturnMarks(p, t, f)
    ensures AllMayReturn(p, t, f) ==> AllHaveMay(bbErr, Items(p.funcs[f].blocks))
  {
    forall b | b in Returners(bbErr, Items(p.funcs[f].blocks))
      ensures HasMust(bbErr[b]) ==> Mark(b, MUST_RETURN_ERR) in ReturnMarks(p, t, f)
      ensures AllMayReturn(p, t, f) ==> HasMay(bbErr[b])
    {
      assert BlockMeans(p, t, f, b, bbErr);
    }
  }

  lemma BlocksLieApart(p: Program, t: Tables, f: Func, bbErr: BlockMap)
    requires f < |p.funcs| && forall b: Block :: BlockMeans(p, t, f, b, bbErr)
    ensures ReturnsApart(p.cfg, ReturnMarks(p, t, f)) ==> Isolated(p.cfg, bbErr)
  {
    forall b: Block ensures Resets(bbErr, b) <==> SetsError(ReturnMarks(p, t, f), b) {
      assert BlockMeans(p, t, f, b, bbErr);
    }
    if ReturnsApart(p.cfg, ReturnMarks(p, t, f)) {
      ApartIsIsolated(p.cfg, ReturnMarks(p, t, f), bbErr);
    }
  }

  lemma ApartIsIsolated(cfg: Cfg, ms: set<Mark>, bbErr: BlockMap)
    requires ReturnsApart(cfg, ms) && forall b: Block :: Resets(bbErr, b) <==> SetsError(ms, b)
    ensures Isolated(cfg, bbErr)
  {
    forall e: Edge | cfg.HasEdge(e) ensures !(LiesBelow(cfg, bbErr, e) && LiesAbove(cfg, bbErr, e)) {
    }
  }

  /** What the flag of one block says. */
  ghost predicate BlockMeans(p: Program, t: Tables, f: Func, b: Block, bbErr: BlockMap)
    requires f < |p.funcs|
  {
    && (b in bbErr ==> IsMark(bbErr[b]))
    && (HandlesError(bbErr, b) <==> b in p.funcs[f].blocks && Handling(p, t, b))
    && (Resets(bbErr, b) <==> SetsError(ReturnMarks(p, t, f), b))
    && (Mark(b, MAY_RETURN_ERR) in ReturnMarks(p, t, f) <==> b in bbErr && HasMay(bbErr[b]))
    && (Mark(b, MUST_RETURN_ERR) in ReturnMarks(p, t, f) <==> b in bbErr && HasMust(bbErr[b]))
  }

  lemma OneBlockMeans(p: Program, t: Tables, f: Func, b1: BlockMap, bbErr: BlockMap, b: Block)
    requires f < |p.funcs|
    requires Absorbed(map[], b1, ReturnMarks(p, t, f))
    requires Absorbed(b1, bbErr, HandlerMarks(p, t, Items(p.funcs[f].blocks)))
    requires forall m | m in ReturnMarks(p, t, f) :: m.flag == MUST_RETURN_ERR || m.flag == MAY_RETURN_ERR
    ensures BlockMeans(p, t, f, b, bbErr)
  {
    var ms1, ms2 := ReturnMarks(p, t, f), HandlerMarks(p, t, Items(p.funcs[f].blocks));
    AbsorbedTwice(map[], b1, bbErr, ms1, ms2);
    AbsorbedBits(bbErr, ms1 + ms2, b);
  }

  lemma {:induction false} FlowMarksAreReturns(p: Program, t: Tables, f: Func)
    requires f < |p.funcs|
    ensures forall m | m in ReturnMarks(p, t, f) :: m.flag == MUST_RETURN_ERR || m.flag == MAY_RETURN_ERR
  {
    forall m, v | v in ReturnInfluences(p, t, f) && m in VisitOf(p, t, f, v).marks
      ensures m.flag == MUST_RETURN_ERR || m.flag == MAY_RETURN_ERR
    {
      VisitMarksAreReturns(p, t, f, v, m);
    }
  }

  lemma VisitMarksAreReturns(p: Program, t: Tables, f: Func, v: Value, m: Mark)
    requires f < |p.funcs| && m in VisitOf(p, t, f, v).marks
    ensures m.flag == MUST_RETURN_ERR || m.flag == MAY_RETURN_ERR
  {
    assert p.Has(v);
    match p.nodes[v] {
      case Load(ptr) =>
        OperandsExist(p, v, p.nodes[v].Operands()[0]);
        UnionMarksAreReturns(StoreVisits(p, f, ptr, p.users[ptr]), m);
      case Phi(inc) =>
        UnionMarksAreReturns(IncomingVisits(p, f, inc), m);
      case _ =>
    }
  }

  lemma {:induction false} UnionMarksAreReturns(vs: seq<Visit>, m: Mark)
    requires m in Union(vs).marks
    requires forall i | 0 <= i < |vs| :: forall k | k in vs[i].marks ::
               k.flag == MUST_RETURN_ERR || k.flag == MAY_RETURN_ERR
    ensures m.flag == MUST_RETURN_ERR || m.flag == MAY_RETURN_ERR
    decreases |vs|
  {
    if m !in vs[0].marks {
      UnionMarksAreReturns(vs[1..], m);
    }
  }

  lemma WaysMean(p: Program, t: Tables, f: Func, bbErr: BlockMap)
    requires f < |p.funcs| && forall b: Block :: BlockMeans(p, t, f, b, bbErr)
    ensures ReturnsTwoWay(p.cfg, ReturnMarks(p, t, f)) ==> TwoWay(p.cfg, bbErr)
    ensures forall b: Block | b in p.cfg.Blocks() && BeforeReturns(p, t, f, b) :: b in Free(p.cfg, bbErr)
  {
    forall b: Block ensures Resets(bbErr, b) <==> SetsError(ReturnMarks(p, t, f), b) {
      assert BlockMeans(p, t, f, b, bbErr);
    }
  }

  lemma MustsMean(p: Program, t: Tables, f: Func, bbErr: BlockMap)
    requires f < |p.funcs| && forall b: Block :: BlockMeans(p, t, f, b, bbErr)
    ensures Musts(bbErr, EdgesInto(p.cfg, ReturningBlocks(p, t, f))) == EdgesInto(p.cfg, OnlyMust(p, t, f))
  {
    forall e: Edge | e.dst in ReturningBlocks(p, t, f)
      ensures e.dst in bbErr
      ensures HasMay(bbErr[e.dst]) <==> Mark(e.dst, MAY_RETURN_ERR) in ReturnMarks(p, t, f)
    {
      assert BlockMeans(p, t, f, e.dst, bbErr);
    }
  }

  lemma MustAndMayBits(f: Flag)
    ensures HasMust(f) <==> HasMust(ReturnBits(f))
    ensures HasMay(f) <==> HasMay(ReturnBits(f))
    ensures HasMust(MUST_RETURN_ERR) && !HasMay(MUST_RETURN_ERR)
    ensures HasMay(MAY_RETURN_ERR) && !HasMust(MAY_RETURN_ERR)
    ensures !HasMust(0) && !HasMay(0)
  {
  }

  lemma OneEdgeMeans(p: Program, t: Tables, f: Func, bbErr: BlockMap, edges: EdgeMap, e: Edge)
    requires f < |p.funcs| && forall b: Block :: BlockMeans(p, t, f, b, bbErr)
    requires p.cfg.HasEdge(e) && Field(p.cfg, bbErr, Free(p.cfg, bbErr), EdgesInto(p.cfg, ReturningBlocks(p, t, f)))
    requires ReturnBits(At(edges, e)) == Aim(p.cfg, bbErr, EdgesInto(p.cfg, ReturningBlocks(p, t, f)), e)
    ensures HasMust(At(edges, e)) <==> SureToReturn(p, t, f, e.dst)
    ensures HasMay(At(edges, e)) <==> LikelyToReturn(p, t, f, e.dst)
  {
    var es := EdgesInto(p.cfg, ReturningBlocks(p, t, f));
    MustsMean(p, t, f, bbErr);
    EdgeIsListed(p.cfg, e);
    assert e in es <==> e.dst in ReturningBlocks(p, t, f);
    MustAndMayBits(At(edges, e));
    assert BlockMeans(p, t, f, e.dst, bbErr);
    if e in es {
      MustAndMayBits(bbErr[e.dst]);
    } else if Doomed(p.cfg, es, Musts(bbErr, es), e.dst) {
      DoomedIsCertain(p.cfg, bbErr, Free(p.cfg, bbErr), es, e.dst);
    }
  }

  lemma ExactMeans(p: Program, t: Tables, f: Func, bbErr: BlockMap, edges: EdgeMap)
    requires f < |p.funcs| && forall b: Block :: BlockMeans(p, t, f, b, bbErr)
    requires Isolated(p.cfg, bbErr) && AllBlockMarks(bbErr)
    requires Exact(p.cfg, bbErr, Free(p.cfg, bbErr), EdgesInto(p.cfg, ReturningBlocks(p, t, f)), edges)
    ensures NibblesMean(p, t, f, edges)
  {
    var es := EdgesInto(p.cfg, ReturningBlocks(p, t, f));
    WaysMean(p, t, f, bbErr);
    forall e | e in es ensures Resets(bbErr, e.dst) {
      assert BlockMeans(p, t, f, e.dst, bbErr);
    }
    FieldOf(p.cfg, bbErr, es);
    forall e: Edge | p.cfg.HasEdge(e) && BeforeReturns(p, t, f, e.src)
      ensures HasMust(At(edges, e)) <==> SureToReturn(p, t, f, e.dst)
      ensures HasMay(At(edges, e)) <==> LikelyToReturn(p, t, f, e.dst)
    {
      EdgeIsListed(p.cfg, e);
      OneEdgeMeans(p, t, f, bbErr, edges, e);
    }
  }

  lemma BothMean(p: Program, t: Tables, f: Func, bbErr: BlockMap)
    requires f < |p.funcs| && forall b: Block :: BlockMeans(p, t, f, b, bbErr)
    ensures NoBothMarks(ReturnMarks(p, t, f)) ==> NoBoth(bbErr)
    ensures forall b :: MayAbove(p.cfg, bbErr, ReturningBlocks(p, t, f), b) <==> MayBefore(p, t, f, b)
  {
    forall b: Block
      ensures b in bbErr && HasMay(bbErr[b]) <==> Mark(b, MAY_RETURN_ERR) in ReturnMarks(p, t, f)
      ensures b in bbErr && HasMust(bbErr[b]) <==> Mark(b, MUST_RETURN_ERR) in ReturnMarks(p, t, f)
    {
      assert BlockMeans(p, t, f, b, bbErr);
    }
    forall b | b in bbErr ensures ReturnBits(bbErr[b]) == BOTH_RETURN_ERR ==> HasMust(bbErr[b]) && HasMay(bbErr[b]) {
      BothBits(bbErr[b]);
    }
  }

  lemma BothBits(f: Flag)
    ensures ReturnBits(f) == BOTH_RETURN_ERR ==> HasMust(f) && HasMay(f)
  {
  }

  lemma BelowMeans(p: Program, t: Tables, f: Func, bbErr: BlockMap, edges: EdgeMap)
    requires f < |p.funcs| && forall b: Block :: BlockMeans(p, t, f, b, bbErr)
    requires BelowExact(p.cfg, bbErr, ReturningBlocks(p, t, f), edges)
    ensures AfterMeans(p, t, f, edges)
  {
    BothMean(p, t, f, bbErr);
    forall e: Edge, r | p.cfg.HasEdge(e) && r in ReturningBlocks(p, t, f) && Reaches(p.cfg.Forward(), r, e.src)
      ensures HasMay(At(edges, e)) <==> MayBefore(p, t, f, e.src)
      ensures HasMust(At(edges, e)) <==> !MayBefore(p, t, f, e.src)
    {
      MustAndMayBits(At(edges, e));
    }
  }

  lemma ApartIsExactBelow(p: Program, t: Tables, f: Func, bbErr: BlockMap, edges: EdgeMap)
    requires f < |p.funcs| && forall b: Block :: BlockMeans(p, t, f, b, bbErr)
    requires Isolated(p.cfg, bbErr) && NoBoth(bbErr) ==> BelowExact(p.cfg, bbErr, ReturningBlocks(p, t, f), edges)
    ensures ReturnsApart(p.cfg, ReturnMarks(p, t, f)) && NoBothMarks(ReturnMarks(p, t, f)) ==>
              AfterMeans(p, t, f, edges)
  {
    BlocksLieApart(p, t, f, bbErr);
    BothMean(p, t, f, bbErr);
    if ReturnsApart(p.cfg, ReturnMarks(p, t, f)) && NoBothMarks(ReturnMarks(p, t, f)) {
      BelowMeans(p, t, f, bbErr, edges);
    }
  }

  lemma ApartIsExact(p: Program, t: Tables, f: Func, bbErr: BlockMap, edges: EdgeMap)
    requires f < |p.funcs| && (forall b: Block :: BlockMeans(p, t, f, b, bbErr)) && AllBlockMarks(bbErr)
    requires Isolated(p.cfg, bbErr) && TwoWay(p.cfg, bbErr) ==>
               Exact(p.cfg, bbErr, Free(p.cfg, bbErr), EdgesInto(p.cfg, ReturningBlocks(p, t, f)), edges)
    ensures ReturnsApart(p.cfg, ReturnMarks(p, t, f)) && ReturnsTwoWay(p.cfg, ReturnMarks(p, t, f)) ==>
              NibblesMean(p, t, f, edges)
  {
    WaysMean(p, t, f, bbErr);
    BlocksLieApart(p, t, f, bbErr);
    if ReturnsApart(p.cfg, ReturnMarks(p, t, f)) && ReturnsTwoWay(p.cfg, ReturnMarks(p, t, f)) {
      ExactMeans(p, t, f, bbErr, edges);
    }
  }

  lemma MarkingMeans(p: Program, t: Tables, f: Func, bbErr: BlockMap, edges: EdgeMap)
    requires f < |p.funcs| && Items(p.funcs[f].blocks) <= p.cfg.Blocks()
    requires AllBlockMarks(bbErr)
    requires Handlers(bbErr, Items(p.funcs[f].blocks)) == HandlingBlocks(p, t, f)
    requires Returners(bbErr, Items(p.funcs[f].blocks)) == ReturningBlocks(p, t, f)
    requires forall b | b in Returners(bbErr, Items(p.funcs[f].blocks)) ::
               HasMust(bbErr[b]) ==> Mark(b, MUST_RETURN_ERR) in ReturnMarks(p, t, f)
    requires MarkedFrom(p.cfg, bbErr, Items(p.funcs[f].blocks), map[], edges)
    requires ApartMeans(p, t, f, edges)
    ensures EdgesMean(p, t, f, edges)
  {
    EmptyMapIsClosed(p.cfg);
    forall b | b in ReturningBlocks(p, t, f)
      ensures EntersMarked(p.cfg, edges, b) && LeavesMarked(p.cfg, edges, b)
    {
      assert b in Returners(bbErr, Items(p.funcs[f].blocks));
      assert ReturnCovered(p.cfg, bbErr, b, edges);
    }
    assert NoMust(map[]);
  }

  /** From the marks of the two block passes and the marking run to what the edges mean. */
  lemma EdgesFollow(p: Program, t: Tables, f: Func, b1: BlockMap, bbErr: BlockMap, edges: EdgeMap)
    requires f < |p.funcs| && Items(p.funcs[f].blocks) <= p.cfg.Blocks()
    requires Absorbed(map[], b1, ReturnMarks(p, t, f))
    requires Absorbed(b1, bbErr, HandlerMarks(p, t, Items(p.funcs[f].blocks)))
    requires MarkedFrom(p.cfg, bbErr, Items(p.funcs[f].blocks), map[], edges)
    requires var rs := Returners(bbErr, Items(p.funcs[f].blocks));
             Isolated(p.cfg, bbErr) ==>
               && MarkedBelow(p.cfg, rs, edges)
               && (AllHaveMay(bbErr, Items(p.funcs[f].blocks)) ==> ReturnExact(p.cfg, rs, edges))
               && (AllBlockMarks(bbErr) && TwoWay(p.cfg, bbErr) ==>
                     Exact(p.cfg, bbErr, Free(p.cfg, bbErr), EdgesInto(p.cfg, rs), edges))
               && (AllBlockMarks(bbErr) && NoBoth(bbErr) ==> BelowExact(p.cfg, bbErr, rs, edges))
    ensures EdgesMean(p, t, f, edges)
  {
    BlocksMean(p, t, f, b1, bbErr);
    ApartIsExact(p, t, f, bbErr, edges);
    ApartIsExactBelow(p, t, f, bbErr, edges);
    MarkingMeans(p, t, f, bbErr, edges);
  }

  lemma NothingMarked()
    ensures NoReturns(map[]) && AllMarks(map[])
  {
  }

  class SecurityChecksPass {
    /** Selects that take error codes; shared by all functions. */
    var errSelectInstSet: set<Value>

    constructor ()
      ensures errSelectInstSet == {}
    {
      errSelectInstSet := {};
    }

    /** Marks the edges of one function and reads its checks off them; only the select set outlives the call. */
    method IdentifySecurityChecks(p: Program, t: Tables, f: Func) returns (edges: EdgeMap, checks: set<SecurityCheck>)
      requires f < |p.funcs| && t.Valid(p)
      modifies this`errSelectInstSet
      ensures errSelectInstSet == old(errSelectInstSet) + ErrSelects(VisitsOf(p, t, f), ReturnInfluences(p, t, f))
      ensures EdgesMean(p, t, f, edges)
      ensures ExactlyChecks(p, edges, errSelectInstSet, CodeOf(p, f), checks)
    {
      var blocks := p.funcs[f].blocks;
      // The value flow of the returns gives the return flags of blocks
      var flow := CheckErrReturn(p, t, f, map[], errSelectInstSet);
      errSelectInstSet := flow.selects;
      // Handler calls are or-ed into the same map
      var bbErr := CheckErrHandle(p, t, blocks, flow.bbErr);
      // The flags of blocks become flags of the edges around them
      var _, marked := MarkAllEdgesErrFlag(p.cfg, blocks, bbErr, map[]);
      edges := marked;
      NothingMarked();
      EdgesFollow(p, t, f, flow.bbErr, bbErr, edges);
      forall i | i in CodeOf(p, f) ensures p.Has(i) {
        CodeExists(p, f, i);
      }
      checks := ReadChecks(p, edges, errSelectInstSet, CodeOf(p, f));
    }
  }

  /** Some successor is sure to return an error, and some is not. */
  ghost predicate ReturnSplit(p: Program, t: Tables, f: Func, bb: Block)
    requires f < |p.funcs| && bb < |p.cfg.succs|
  {
    && (exists s | s in p.cfg.succs[bb] :: SureToReturn(p, t, f, s))
    && (exists s | s in p.cfg.succs[bb] :: !SureToReturn(p, t, f, s))
  }

  /** Some successor is forced into a handler, and some is not. */
  ghost predicate HandlerSplit(p: Program, t: Tables, f: Func, bb: Block)
    requires f < |p.funcs| && bb < |p.cfg.succs|
  {
    && (exists s | s in p.cfg.succs[bb] :: ForcedIntoHandler(p, t, f, s))
    && (exists s | s in p.cfg.succs[bb] :: !ForcedIntoHandler(p, t, f, s))
  }

  /** The handle criterion of a branch, in terms of control flow alone. */
  lemma HandleCheckMeans(p: Program, t: Tables, f: Func, edges: EdgeMap, bb: Block)
    requires f < |p.funcs| && bb < |p.cfg.succs| && EdgesMean(p, t, f, edges)
    ensures HandleMixed(p, edges, bb) <==> HandlerSplit(p, t, f, bb)
  {
    forall s | s in p.cfg.succs[bb]
      ensures MustHandle(At(edges, Edge(bb, s))) <==> ForcedIntoHandler(p, t, f, s)
    {
      assert p.cfg.HasEdge(Edge(bb, s));
    }
  }

  /** The return criterion of a branch that no returning block leads to, in terms of control flow alone. */
  lemma ReturnCheckMeans(p: Program, t: Tables, f: Func, edges: EdgeMap, bb: Block)
    requires f < |p.funcs| && bb < |p.cfg.succs| && EdgesMean(p, t, f, edges)
    requires ReturnsApart(p.cfg, ReturnMarks(p, t, f)) && ReturnsTwoWay(p.cfg, ReturnMarks(p, t, f))
    requires BeforeReturns(p, t, f, bb)
    ensures ReturnMixed(p, edges, bb) <==> ReturnSplit(p, t, f, bb)
  {
    forall s | s in p.cfg.succs[bb] ensures HasMust(At(edges, Edge(bb, s))) <==> SureToReturn(p, t, f, s) {
      assert p.cfg.HasEdge(Edge(bb, s));
    }
  }

  /** A branch that a returning block leads to is never a check by the return criterion: its edges have one flag. */
  lemma NoReturnCheckAfter(p: Program, t: Tables, f: Func, edges: EdgeMap, r: Block, bb: Block)
    requires f < |p.funcs| && bb < |p.cfg.succs| && EdgesMean(p, t, f, edges)
    requires ReturnsApart(p.cfg, ReturnMarks(p, t, f)) && NoBothMarks(ReturnMarks(p, t, f))
    requires r in ReturningBlocks(p, t, f) && Reaches(p.cfg.Forward(), r, bb)
    ensures !ReturnMixed(p, edges, bb)
  {
    forall s | s in p.cfg.succs[bb] ensures HasMust(At(edges, Edge(bb, s))) <==> !MayBefore(p, t, f, bb) {
      assert p.cfg.HasEdge(Edge(bb, s));
    }
  }

  /** The condition of a check is the operand that its instruction decides by. */
  lemma ConditionIsOperand(p: Program, edges: EdgeMap, selects: set<Value>, i: Value)
    requires p.Has(i) && CheckCondition(p, edges, selects, i).Some?
    ensures var c := CheckCondition(p, edges, selects, i).value;
            || p.nodes[i] == Branch(Some(c)) || p.nodes[i] == Switch(c)
            || (p.nodes[i].Select? && p.nodes[i].cond == c && i in selects)
  {
  }

  lemma QualifiesIsMixed(p: Program, edges: EdgeMap, selects: set<Value>, i: Value)
    requires p.Has(i) && (p.nodes[i].Switch? || (p.nodes[i].Branch? && p.nodes[i].condition.Some?))
    ensures CheckCondition(p, edges, selects, i).Some? <==>
            ReturnMixed(p, edges, p.parent[i]) || HandleMixed(p, edges, p.parent[i])
  {
  }

  /**
    A branch that no returning block leads to is a security check if and only if it splits what is
    sure to return an error from the rest, or what is forced into a handler from the rest.
  */
  lemma BranchCheckMeans(p: Program, t: Tables, f: Func, edges: EdgeMap, selects: set<Value>, i: Value)
    requires f < |p.funcs| && p.Has(i) && EdgesMean(p, t, f, edges)
    requires p.nodes[i].Switch? || (p.nodes[i].Branch? && p.nodes[i].condition.Some?)
    requires ReturnsApart(p.cfg, ReturnMarks(p, t, f)) && ReturnsTwoWay(p.cfg, ReturnMarks(p, t, f))
    requires BeforeReturns(p, t, f, p.parent[i])
    ensures CheckCondition(p, edges, selects, i).Some? <==>
            ReturnSplit(p, t, f, p.parent[i]) || HandlerSplit(p, t, f, p.parent[i])
  {
    ReturnCheckMeans(p, t, f, edges, p.parent[i]);
    HandleCheckMeans(p, t, f, edges, p.parent[i]);
    QualifiesIsMixed(p, edges, selects, i);
  }

  lemma UnmixedIsNoCheck(p: Program, edges: EdgeMap, selects: set<Value>, i: Value)
    requires p.Has(i) && !ReturnMixed(p, edges, p.parent[i]) && !HandleMixed(p, edges, p.parent[i])
    ensures CheckCondition(p, edges, selects, i).Some? ==> p.nodes[i].Select? && i in selects
  {
  }

  lemma NoHandlerNoMix(p: Program, t: Tables, f: Func, edges: EdgeMap, bb: Block)
    requires f < |p.funcs| && bb < |p.cfg.succs| && EdgesMean(p, t, f, edges) && HandlingBlocks(p, t, f) == {}
    ensures !HandleMixed(p, edges, bb)
  {
    HandleCheckMeans(p, t, f, edges, bb);
  }

  lemma NoMustNoMix(p: Program, edges: EdgeMap, bb: Block)
    requires bb < |p.cfg.succs| && NoMust(edges)
    ensures !ReturnMixed(p, edges, bb)
  {
  }

  /** A function that sets no definite error code and calls no handler has only select checks. */
  lemma NoErrorNoBranchCheck(p: Program, t: Tables, f: Func, edges: EdgeMap, selects: set<Value>, i: Value)
    requires f < |p.funcs| && p.Has(i) && EdgesMean(p, t, f, edges) && HandlingBlocks(p, t, f) == {}
    requires forall b | b in p.funcs[f].blocks :: Mark(b, MUST_RETURN_ERR) !in ReturnMarks(p, t, f)
    ensures CheckCondition(p, edges, selects, i).Some? ==> p.nodes[i].Select? && i in selects
  {
    var bb := p.parent[i];
    NoMustNoMix(p, edges, bb);
    NoHandlerNoMix(p, t, f, edges, bb);
    UnmixedIsNoCheck(p, edges, selects, i);
  }
}
