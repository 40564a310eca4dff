/** Return flags, backwards from a block. */
module ReturnMarking {
  import opened Graphs
  import opened ControlFlow
  import opened Flags
  import opened EdgeFlags

  /** From a block back over the edges whose return nibble differs from the flag. */
  ghost function ReturnBack(cfg: Cfg, edges: EdgeMap, flag: Flag): Graph
  {
    (b: Block) =>
      if cfg.HasBlock(b)
      then set p | p in cfg.preds[b] && ReturnBits(At(edges, Edge(p, b))) != ReturnBits(flag)
      else {}
  }

  ghost predicate ReturnMarked(before: EdgeMap, after: EdgeMap, marked: set<Edge>, flag: Flag) {
    forall e: Edge :: At(after, e) ==
      if e in marked then UpdateReturnFlag(At(before, e), flag) else At(before, e)
  }

  lemma UpdateReturnTwice(f: Flag, flag: Flag)
    ensures UpdateReturnFlag(UpdateReturnFlag(f, flag), flag) == UpdateReturnFlag(f, flag)
    ensures ReturnBits(f) == ReturnBits(flag) ==> UpdateReturnFlag(f, flag) == f
  {
  }

  /** Overwrites the edges into one block; returns the predecessors to go on with. */
  method MarkReturnPreds(cfg: Cfg, tb: Block, flag: Flag, before: EdgeMap) returns (edges: EdgeMap, next: seq<Block>)
    requires cfg.HasBlock(tb)
    ensures ReturnMarked(before, edges, EdgesInto(cfg, {tb}), flag)
    ensures Items(next) == ReturnBack(cfg, before, flag)(tb) <= cfg.Blocks()
  {
    edges, next := before, [];
    ghost var marked: set<Edge> := {};
    for i := 0 to |cfg.preds[tb]|
      invariant forall e: Edge :: e in marked <==> e.dst == tb && e.src in cfg.preds[tb][..i]
      invariant ReturnMarked(before, edges, marked, flag)
      invariant forall p :: p in next <==> p in cfg.preds[tb][..i] && p in ReturnBack(cfg, before, flag)(tb)
    {
      var pred := cfg.preds[tb][i];
      var ce := Edge(pred, tb);
      PrefixGrows(cfg.preds[tb], i);
      UpdateReturnTwice(At(before, ce), flag);
      marked := marked + {ce};
      if ReturnBits(At(edges, ce)) == ReturnBits(flag) {
        continue;
      }
      edges := edges[ce := UpdateReturnFlag(At(edges, ce), flag)];
      next := next + [pred];
    }
    PrefixIsAll(cfg.preds[tb]);
    forall e: Edge ensures e in marked <==> e in EdgesInto(cfg, {tb}) {
      EdgeIsListed(cfg, e);
    }
  }

  /** Exactly the edges into blocks that lead back to bb over edges with another return nibble. */
  ghost predicate ReturnClosure(cfg: Cfg, bb: Block, flag: Flag, before: EdgeMap, after: EdgeMap)
  {
    forall e: Edge :: At(after, e) ==
      if cfg.HasEdge(e) && Reaches(ReturnBack(cfg, before, flag), bb, e.dst)
      then UpdateReturnFlag(At(before, e), flag) else At(before, e)
  }

  ghost predicate ReturnSearch(cfg: Cfg, bb: Block, flag: Flag, before: EdgeMap, edges: EdgeMap,
                               done: set<Block>, todo: seq<Block>)
  {
    && Searching(ReturnBack(cfg, before, flag), {bb}, done, Items(todo))
    && Items(todo) <= cfg.Blocks()
    && ReturnMarked(before, edges, EdgesInto(cfg, done), flag)
  }

  lemma ReturnStep(cfg: Cfg, bb: Block, flag: Flag, before: EdgeMap, e0: EdgeMap, e1: EdgeMap,
                   done: set<Block>, todo: seq<Block>, next: seq<Block>)
    requires todo != [] && ReturnSearch(cfg, bb, flag, before, e0, done, todo) && todo[0] !in done
    requires ReturnMarked(e0, e1, EdgesInto(cfg, {todo[0]}), flag)
    requires Items(next) == ReturnBack(cfg, e0, flag)(todo[0]) <= cfg.Blocks()
    ensures ReturnSearch(cfg, bb, flag, before, e1, done + {todo[0]}, todo[1..] + next)
  {
    var g, tb := ReturnBack(cfg, before, flag), todo[0];
    assert Items(next) == g(tb) by {
      assert forall p :: Edge(p, tb) !in EdgesInto(cfg, done);
    }
    assert EdgesInto(cfg, done) + EdgesInto(cfg, {tb}) == EdgesInto(cfg, done + {tb});
    ItemsPop(todo, next);
    ExpandFirst(g, {bb}, done, todo, next);
  }

  lemma ReturnSearchEnds(cfg: Cfg, bb: Block, flag: Flag, before: EdgeMap, edges: EdgeMap, done: set<Block>)
    requires ReturnSearch(cfg, bb, flag, before, edges, done, [])
    ensures ReturnClosure(cfg, bb, flag, before, edges)
  {
    var g := ReturnBack(cfg, before, flag);
    assert Items<Block>([]) == {};
    EndSearch(g, bb, done);
    forall e: Edge ensures e in EdgesInto(cfg, done) <==> cfg.HasEdge(e) && Reaches(g, bb, e.dst) {
      EdgeIsListed(cfg, e);
    }
  }

  method RecurMarkEdgesToErrReturn(cfg: Cfg, bb: Block, flag: Flag, before: EdgeMap) returns (edges: EdgeMap)
    requires cfg.HasBlock(bb)
    ensures ReturnClosure(cfg, bb, flag, before, edges)
  {
    edges := before;
    var done: set<Block>, todo := {}, [bb];
    StartSearch(ReturnBack(cfg, before, flag), bb);
    assert Items(todo) == {bb};
    while todo != []
      invariant ReturnSearch(cfg, bb, flag, before, edges, done, todo)
      decreases cfg.Blocks() - done, |todo|
    {
      var tb := todo[0];
      ItemsPop(todo, []);
      if tb in done {
        SkipFirst(ReturnBack(cfg, before, flag), {bb}, done, todo);
        todo := todo[1..];
        continue;
      }
      ghost var edges0 := edges;
      var next;
      edges, next := MarkReturnPreds(cfg, tb, flag, edges);
      ReturnStep(cfg, bb, flag, before, edges0, edges, done, todo, next);
      done := done + {tb};
      todo := todo[1..] + next;
    }
    ReturnSearchEnds(cfg, bb, flag, before, edges, done);
  }
}
