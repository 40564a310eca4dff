/** The marking run when only May return flags are set: a fold of closures that depends on the block order. */
module MayMarking {
  import opened Graphs
  import opened ControlFlow
  import opened Flags
  import opened EdgeFlags
  import opened ReturnMarking
  import opened ForwardMarking

  /** No edge carries a Must return flag. */
  ghost predicate NoMust(edges: EdgeMap) {
    AllMarks(edges) && forall e: Edge :: !HasMust(At(edges, e))
  }

  ghost predicate IsMayFlag(flag: Flag) {
    IsMark(flag) && ReturnBits(flag) == MAY_RETURN_ERR
  }

  /** The edges with a return flag. */
  ghost function Marked(cfg: Cfg, edges: EdgeMap): set<Edge> {
    set e | e in cfg.Edges() && ReturnBits(At(edges, e)) != 0
  }

  // ---------- closures over sets of marked edges ----------

  ghost function BackBeyond(cfg: Cfg, m: set<Edge>): Graph {
    (b: Block) => if cfg.HasBlock(b) then set p | p in cfg.preds[b] && Edge(p, b) !in m else {}
  }

  ghost function OnBeyond(cfg: Cfg, m: set<Edge>): Graph {
    (b: Block) => if cfg.HasBlock(b) then set s | s in cfg.succs[b] && Edge(b, s) !in m else {}
  }

  /** The edges into the blocks that lead to b over unmarked edges. */
  ghost function IntoReached(cfg: Cfg, m: set<Edge>, b: Block): set<Edge> {
    set e | e in cfg.Edges() && Reaches(BackBeyond(cfg, m), b, e.dst)
  }

  /** The edges out of the blocks that b leads to over unmarked edges. */
  ghost function OutOfReached(cfg: Cfg, m: set<Edge>, b: Block): set<Edge> {
    set e | e in cfg.Edges() && Reaches(OnBeyond(cfg, m), b, e.src)
  }

  /** Marking one edge to a returning block. */
  ghost function MarkTo(cfg: Cfg, m: set<Edge>, ce: Edge): set<Edge> {
    m + {ce} + IntoReached(cfg, m + {ce}, ce.src)
  }

  /** Marking one edge from a returning block; blocks that return an error themselves stop it. */
  ghost function MarkFrom(cfg: Cfg, bbErr: BlockMap, m: set<Edge>, ce: Edge): set<Edge> {
    m + {ce} + if Resets(bbErr, ce.dst) then {} else OutOfReached(cfg, m + {ce}, ce.dst)
  }

  ghost function MarkAllTo(cfg: Cfg, m: set<Edge>, bb: Block, ps: seq<Block>): set<Edge> {
    if ps == [] then m else MarkTo(cfg, MarkAllTo(cfg, m, bb, ps[..|ps| - 1]), Edge(ps[|ps| - 1], bb))
  }

  ghost function MarkAllFrom(cfg: Cfg, bbErr: BlockMap, m: set<Edge>, bb: Block, ss: seq<Block>): set<Edge> {
    if ss == [] then m else MarkFrom(cfg, bbErr, MarkAllFrom(cfg, bbErr, m, bb, ss[..|ss| - 1]), Edge(bb, ss[|ss| - 1]))
  }

  /** Marking around one block. */
  ghost function MarkAround(cfg: Cfg, bbErr: BlockMap, m: set<Edge>, bb: Block): set<Edge> {
    if !cfg.HasBlock(bb) || !Resets(bbErr, bb) then m
    else MarkAllFrom(cfg, bbErr, MarkAllTo(cfg, m, bb, cfg.preds[bb]), bb, cfg.succs[bb])
  }

  /** The whole run, block after block. */
  ghost function MarkRun(cfg: Cfg, bbErr: BlockMap, m: set<Edge>, blocks: seq<Block>): set<Edge> {
    if blocks == [] then m
    else MarkAround(cfg, bbErr, MarkRun(cfg, bbErr, m, blocks[..|blocks| - 1]), blocks[|blocks| - 1])
  }

  // ---------- the worklists compute these closures ----------

  lemma MayNibble(f: Flag)
    requires IsMark(f) && !HasMust(f)
    ensures ReturnBits(f) == 0 || ReturnBits(f) == MAY_RETURN_ERR
  {
  }

  lemma BackGraph(cfg: Cfg, edges: EdgeMap, b: Block)
    requires NoMust(edges)
    ensures ReturnBack(cfg, edges, MAY_RETURN_ERR)(b) == BackBeyond(cfg, Marked(cfg, edges))(b)
  {
    if cfg.HasBlock(b) {
      forall p | p in cfg.preds[b]
        ensures ReturnBits(At(edges, Edge(p, b))) != MAY_RETURN_ERR <==> Edge(p, b) !in Marked(cfg, edges)
      {
        EdgeIsListed(cfg, Edge(p, b));
        MayNibble(At(edges, Edge(p, b)));
      }
    }
  }

  lemma OnGraph(cfg: Cfg, edges: EdgeMap, flag: Flag, b: Block)
    requires NoMust(edges) && IsMayFlag(flag)
    ensures ReturnForward(cfg, edges, flag)(b) == OnBeyond(cfg, Marked(cfg, edges))(b)
  {
    if cfg.HasBlock(b) {
      forall s | s in cfg.succs[b]
        ensures ReturnBits(At(edges, Edge(b, s))) != MAY_RETURN_ERR <==> Edge(b, s) !in Marked(cfg, edges)
      {
        EdgeIsListed(cfg, Edge(b, s));
        MayNibble(At(edges, Edge(b, s)));
      }
    }
  }

  lemma ClosureMarks(cfg: Cfg, b: Block, before: EdgeMap, after: EdgeMap)
    requires NoMust(before) && ReturnClosure(cfg, b, MAY_RETURN_ERR, before, after)
    ensures Marked(cfg, after) == Marked(cfg, before) + IntoReached(cfg, Marked(cfg, before), b)
  {
    var g, h := ReturnBack(cfg, before, MAY_RETURN_ERR), BackBeyond(cfg, Marked(cfg, before));
    forall x ensures g(x) == h(x) {
      BackGraph(cfg, before, x);
    }
    forall e | e in cfg.Edges()
      ensures ReturnBits(At(after, e)) != 0 <==> e in Marked(cfg, before) + IntoReached(cfg, Marked(cfg, before), b)
    {
      EdgeIsListed(cfg, e);
      SameReach(g, h, b, e.dst);
    }
  }

  lemma OnClosureMarks(cfg: Cfg, b: Block, flag: Flag, before: EdgeMap, after: EdgeMap)
    requires NoMust(before) && IsMayFlag(flag) && ForwardClosure(cfg, b, flag, before, after)
    ensures Marked(cfg, after) == Marked(cfg, before) + OutOfReached(cfg, Marked(cfg, before), b)
  {
    var g, h := ReturnForward(cfg, before, flag), OnBeyond(cfg, Marked(cfg, before));
    forall x ensures g(x) == h(x) {
      OnGraph(cfg, before, flag, x);
    }
    forall e | e in cfg.Edges()
      ensures ReturnBits(At(after, e)) != 0 <==> e in Marked(cfg, before) + OutOfReached(cfg, Marked(cfg, before), b)
    {
      EdgeIsListed(cfg, e);
      SameReach(g, h, b, e.src);
    }
  }

  lemma NothingLeadsToEntry(cfg: Cfg, m: set<Edge>, b: Block)
    requires cfg.HasBlock(b) && cfg.preds[b] == []
    ensures IntoReached(cfg, m, b) == {}
  {
    forall e | e in cfg.Edges() && Reaches(BackBeyond(cfg, m), b, e.dst) ensures false {
      ClosedHoldsReach(BackBeyond(cfg, m), {b}, b, e.dst);
      EdgeIsListed(cfg, e);
    }
  }

  lemma MayUpdate(f: Flag, flag: Flag)
    requires IsMark(f) && !HasMust(f) && IsMayFlag(flag)
    ensures var r := UpdateReturnFlag(f, flag); IsMark(r) && !HasMust(r) && ReturnBits(r) != 0
  {
  }

  lemma UpdateMarks(cfg: Cfg, ce: Edge, flag: Flag, before: EdgeMap)
    requires cfg.HasEdge(ce) && NoMust(before) && IsMayFlag(flag)
    ensures var after := before[ce := UpdateReturnFlag(At(before, ce), flag)];
            NoMust(after) && Marked(cfg, after) == Marked(cfg, before) + {ce}
  {
    var after := before[ce := UpdateReturnFlag(At(before, ce), flag)];
    EdgeIsListed(cfg, ce);
    MayUpdate(At(before, ce), flag);
    forall e: Edge ensures IsMark(At(after, e)) && !HasMust(At(after, e)) {
      assert e != ce ==> At(after, e) == At(before, e);
    }
  }

  // ---------- an input where the order of the blocks decides ----------

  /**
    Block 0 leads over 1, 2 and 3 to block 4, and block 3 also leads to block 5; blocks 1 and 4 may return an
    error.
  */
  const TWO_RETURNERS: Cfg := Cfg([[1], [2], [3], [4, 5], [], []], [[], [0], [1], [2], [3], [3]])
  const MAY_FLAGS: BlockMap := map[1 := MAY_RETURN_ERR, 4 := MAY_RETURN_ERR]

  const UPPER_FIRST: seq<Block> := [0, 1, 4, 2, 3, 5]
  const LOWER_FIRST: seq<Block> := [0, 4, 1, 2, 3, 5]

  lemma RunOneMore(cfg: Cfg, bbErr: BlockMap, m: set<Edge>, blocks: seq<Block>, b: Block)
    ensures MarkRun(cfg, bbErr, m, blocks + [b]) == MarkAround(cfg, bbErr, MarkRun(cfg, bbErr, m, blocks), b)
  {
    assert (blocks + [b])[..|blocks|] == blocks;
  }

  /** Blocks that return no error change nothing. */
  lemma {:induction false} RunOverOthers(cfg: Cfg, bbErr: BlockMap, m: set<Edge>, blocks: seq<Block>, more: seq<Block>)
    requires forall x | x in more :: !Resets(bbErr, x)
    ensures MarkRun(cfg, bbErr, m, blocks + more) == MarkRun(cfg, bbErr, m, blocks)
    decreases |more|
  {
    if more == [] {
      assert blocks + more == blocks;
    } else {
      var n := |more| - 1;
      assert more[n] in more;
      assert forall x | x in more[..n] :: x in more;
      assert blocks + more == (blocks + more[..n]) + [more[n]];
      RunOverOthers(cfg, bbErr, m, blocks, more[..n]);
      RunOneMore(cfg, bbErr, m, blocks + more[..n], more[n]);
    }
  }

  lemma AroundExit(cfg: Cfg, bbErr: BlockMap, m: set<Edge>, b: Block, p: Block)
    requires cfg.HasBlock(b) && Resets(bbErr, b) && cfg.preds[b] == [p] && cfg.succs[b] == []
    ensures MarkAround(cfg, bbErr, m, b) == MarkTo(cfg, m, Edge(p, b))
  {
    assert [p][..0] == [];
    assert MarkAllTo(cfg, m, b, [p]) == MarkTo(cfg, MarkAllTo(cfg, m, b, []), Edge(p, b));
  }

  /** A block with one successor whose only predecessor is the entry. */
  lemma AroundSecond(cfg: Cfg, bbErr: BlockMap, m: set<Edge>, b: Block, p: Block, s: Block)
    requires cfg.HasBlock(b) && Resets(bbErr, b) && cfg.preds[b] == [p] && cfg.succs[b] == [s]
    requires cfg.HasBlock(p) && cfg.preds[p] == []
    ensures MarkAround(cfg, bbErr, m, b) == MarkFrom(cfg, bbErr, m + {Edge(p, b)}, Edge(b, s))
  {
    assert [p][..0] == [] && [s][..0] == [];
    assert MarkAllTo(cfg, m, b, [p]) == MarkTo(cfg, MarkAllTo(cfg, m, b, []), Edge(p, b));
    NothingLeadsToEntry(cfg, m + {Edge(p, b)}, p);
    var into := MarkAllTo(cfg, m, b, [p]);
    assert into == m + {Edge(p, b)};
    assert MarkAllFrom(cfg, bbErr, into, b, [s])
        == MarkFrom(cfg, bbErr, MarkAllFrom(cfg, bbErr, into, b, []), Edge(b, s));
  }

  lemma ReturnersOfTheInput()
    ensures forall b | b < 6 :: Resets(MAY_FLAGS, b) <==> b == 1 || b == 4
  {
    assert ReturnBits(MAY_RETURN_ERR) == MAY_RETURN_ERR;
  }

  lemma OtherFirst(cfg: Cfg, bbErr: BlockMap, a: Block, b: Block)
    requires !Resets(bbErr, a)
    ensures MarkRun(cfg, bbErr, {}, [a, b]) == MarkAround(cfg, bbErr, {}, b)
  {
    RunOneMore(cfg, bbErr, {}, [a], b);
    RunOverOthers(cfg, bbErr, {}, [], [a]);
    assert [a] + [b] == [a, b] && [] + [a] == [a];
  }

  /** With block 4 first, the edges above it are marked and stop what comes from block 1. */
  lemma LowerReturnerFirst()
    ensures Edge(3, 5) !in MarkRun(TWO_RETURNERS, MAY_FLAGS, {}, [0, 4, 1])
  {
    var cfg, e := TWO_RETURNERS, MAY_FLAGS;
    ReturnersOfTheInput();
    AroundExit(cfg, e, {}, 4, 3);
    AboveLower();
    OtherFirst(cfg, e, 0, 4);
    var m := MarkAround(cfg, e, {}, 4);
    AroundSecond(cfg, e, m, 1, 0, 2);
    StopsAtMarked(m);
    RunOneMore(cfg, e, {}, [0, 4], 1);
    assert [0, 4] + [1] == [0, 4, 1];
  }

  lemma AboveLower()
    ensures var m := MarkTo(TWO_RETURNERS, {}, Edge(3, 4)); Edge(2, 3) in m && Edge(3, 5) !in m
  {
    var m: set<Edge> := {} + {Edge(3, 4)};
    ReachSelf(BackBeyond(TWO_RETURNERS, m), 3);
    EdgeIsListed(TWO_RETURNERS, Edge(2, 3));
    BackFromThree(m);
  }

  lemma BackFromThree(m: set<Edge>)
    ensures !Reaches(BackBeyond(TWO_RETURNERS, m), 3, 5)
  {
    var g := BackBeyond(TWO_RETURNERS, m);
    assert Closed(g, {0, 1, 2, 3});
    if Reaches(g, 3, 5) {
      ClosedHoldsReach(g, {0, 1, 2, 3}, 3, 5);
      assert false;
    }
  }

  lemma StopsAtMarked(m: set<Edge>)
    requires Edge(2, 3) in m && Edge(3, 5) !in m
    ensures Edge(3, 5) !in MarkFrom(TWO_RETURNERS, MAY_FLAGS, m + {Edge(0, 1)}, Edge(1, 2))
  {
    var g := OnBeyond(TWO_RETURNERS, m + {Edge(0, 1)} + {Edge(1, 2)});
    assert g(2) == {};
    forall b | Reaches(g, 2, b) ensures b in {2} {
      ClosedHoldsReach(g, {2}, 2, b);
    }
  }

  /** With block 1 first, everything below it is marked. */
  lemma UpperReturnerFirst()
    ensures Edge(3, 5) in MarkRun(TWO_RETURNERS, MAY_FLAGS, {}, [0, 1])
  {
    ReturnersOfTheInput();
    BelowUpper();
    OtherFirst(TWO_RETURNERS, MAY_FLAGS, 0, 1);
    AroundSecond(TWO_RETURNERS, MAY_FLAGS, {}, 1, 0, 2);
  }

  lemma BelowUpper()
    ensures Edge(3, 5) in MarkFrom(TWO_RETURNERS, MAY_FLAGS, {} + {Edge(0, 1)}, Edge(1, 2))
  {
    ReturnersOfTheInput();
    var m: set<Edge> := {} + {Edge(0, 1)} + {Edge(1, 2)};
    var g := OnBeyond(TWO_RETURNERS, m);
    assert TWO_RETURNERS.succs[2] == [3];
    assert 3 in g(2);
    ReachSelf(g, 2);
    ReachNext(g, 2, 2, 3);
    EdgeIsListed(TWO_RETURNERS, Edge(3, 5));
  }

  lemma AroundKeeps(cfg: Cfg, bbErr: BlockMap, m: set<Edge>, bb: Block)
    ensures m <= MarkAround(cfg, bbErr, m, bb)
  {
    if !cfg.HasBlock(bb) {
      return;
    }
    AllToKeeps(cfg, m, bb, cfg.preds[bb]);
    AllFromKeeps(cfg, bbErr, MarkAllTo(cfg, m, bb, cfg.preds[bb]), bb, cfg.succs[bb]);
  }

  lemma {:induction false} AllToKeeps(cfg: Cfg, m: set<Edge>, bb: Block, ps: seq<Block>)
    ensures m <= MarkAllTo(cfg, m, bb, ps)
  {
    if ps != [] {
      AllToKeeps(cfg, m, bb, ps[..|ps| - 1]);
    }
  }

  lemma {:induction false} AllFromKeeps(cfg: Cfg, bbErr: BlockMap, m: set<Edge>, bb: Block, ss: seq<Block>)
    ensures m <= MarkAllFrom(cfg, bbErr, m, bb, ss)
  {
    if ss != [] {
      AllFromKeeps(cfg, bbErr, m, bb, ss[..|ss| - 1]);
    }
  }

  lemma RunKeeps(cfg: Cfg, bbErr: BlockMap, m: set<Edge>, blocks: seq<Block>, b: Block, more: seq<Block>)
    requires forall x | x in more :: !Resets(bbErr, x)
    ensures MarkRun(cfg, bbErr, m, blocks) <= MarkRun(cfg, bbErr, m, blocks + [b] + more)
  {
    RunOneMore(cfg, bbErr, m, blocks, b);
    AroundKeeps(cfg, bbErr, MarkRun(cfg, bbErr, m, blocks), b);
    RunOverOthers(cfg, bbErr, m, blocks + [b], more);
  }

  lemma MarkedWithUpperFirst()
    ensures Edge(3, 5) in MarkRun(TWO_RETURNERS, MAY_FLAGS, {}, UPPER_FIRST)
  {
    ReturnersOfTheInput();
    UpperReturnerFirst();
    RunKeeps(TWO_RETURNERS, MAY_FLAGS, {}, [0, 1], 4, [2, 3, 5]);
    assert UPPER_FIRST == [0, 1] + [4] + [2, 3, 5];
  }

  lemma UnmarkedWithLowerFirst()
    ensures Edge(3, 5) !in MarkRun(TWO_RETURNERS, MAY_FLAGS, {}, LOWER_FIRST)
  {
    ReturnersOfTheInput();
    LowerReturnerFirst();
    assert LOWER_FIRST == [0, 4, 1] + [2, 3, 5];
    RunOverOthers(TWO_RETURNERS, MAY_FLAGS, {}, [0, 4, 1], [2, 3, 5]);
  }

  lemma OrdersStartAtEntry()
    ensures multiset(UPPER_FIRST) == multiset(LOWER_FIRST)
    ensures TWO_RETURNERS.preds[UPPER_FIRST[0]] == [] && TWO_RETURNERS.preds[LOWER_FIRST[0]] == []
  {
    assert UPPER_FIRST[0] == 0 && LOWER_FIRST[0] == 0;
  }

  /** Two orders of the same blocks, both from the entry block: the edge from 3 to 5 is marked in one of them only. */
  lemma BlockOrderDecides()
    ensures multiset(UPPER_FIRST) == multiset(LOWER_FIRST)
    ensures TWO_RETURNERS.preds[UPPER_FIRST[0]] == [] && TWO_RETURNERS.preds[LOWER_FIRST[0]] == []
    ensures Edge(3, 5) in MarkRun(TWO_RETURNERS, MAY_FLAGS, {}, UPPER_FIRST)
    ensures Edge(3, 5) !in MarkRun(TWO_RETURNERS, MAY_FLAGS, {}, LOWER_FIRST)
  {
    MarkedWithUpperFirst();
    UnmarkedWithLowerFirst();
    OrdersStartAtEntry();
  }
}
