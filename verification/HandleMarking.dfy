/** Handle flags, from a handler back to branches. */
module HandleMarking {
  import opened Graphs
  import opened ControlFlow
  import opened Flags
  import opened EdgeFlags

  /** From a block back to the predecessors that lead nowhere else over an unmarked edge. */
  ghost function HandleBack(cfg: Cfg, edges: EdgeMap): Graph
  {
    (b: Block) =>
      if cfg.HasBlock(b)
      then set p | p in cfg.preds[b] && |cfg.succs[p]| <= 1 && !MustHandle(At(edges, Edge(p, b)))
      else {}
  }

  ghost predicate HandleMarked(before: EdgeMap, after: EdgeMap, marked: set<Edge>) {
    forall e: Edge :: At(after, e) ==
      if e in marked then UpdateHandleFlag(At(before, e), MUST_HANDLE_ERR) else At(before, e)
  }

  /** Marks the edges into one block; returns the predecessors to go on with. */
  method MarkHandlePreds(cfg: Cfg, tb: Block, before: EdgeMap) returns (edges: EdgeMap, next: seq<Block>)
    requires cfg.HasBlock(tb)
    ensures HandleMarked(before, edges, EdgesInto(cfg, {tb}))
    ensures Items(next) == HandleBack(cfg, before)(tb) <= cfg.Blocks()
  {
    edges, next := before, [];
    ghost var marked: set<Edge> := {};
    for i := 0 to |cfg.preds[tb]|
      invariant forall e: Edge :: e in marked <==> e.dst == tb && e.src in cfg.preds[tb][..i]
      invariant HandleMarked(before, edges, marked)
      invariant forall p :: p in next <==> p in cfg.preds[tb][..i] && p in HandleBack(cfg, before)(tb)
    {
      var pred := cfg.preds[tb][i];
      var ce := Edge(pred, tb);
      PrefixGrows(cfg.preds[tb], i);
      marked := marked + {ce};
      if MustHandle(At(edges, ce)) {
        continue;
      }
      edges := edges[ce := UpdateHandleFlag(At(edges, ce), MUST_HANDLE_ERR)];
      // This edge is the last that is certain to run into the handler
      if |cfg.succs[pred]| > 1 {
        continue;
      }
      next := next + [pred];
    }
    PrefixIsAll(cfg.preds[tb]);
    forall e: Edge ensures e in marked <==> e in EdgesInto(cfg, {tb}) {
      EdgeIsListed(cfg, e);
    }
  }

  lemma HandleMarkedAgain(e0: EdgeMap, e1: EdgeMap, e2: EdgeMap, m1: set<Edge>, m2: set<Edge>)
    requires HandleMarked(e0, e1, m1) && HandleMarked(e1, e2, m2)
    ensures HandleMarked(e0, e2, m1 + m2)
  {
    forall e: Edge ensures At(e2, e) ==
                     if e in m1 + m2 then UpdateHandleFlag(At(e0, e), MUST_HANDLE_ERR) else At(e0, e)
    {
      assert At(e1, e) == if e in m1 then UpdateHandleFlag(At(e0, e), MUST_HANDLE_ERR) else At(e0, e);
    }
  }

  /** Exactly the edges into blocks that lead back to bb over unmarked single-successor edges. */
  ghost predicate HandleClosure(cfg: Cfg, bb: Block, before: EdgeMap, after: EdgeMap)
  {
    forall e: Edge :: At(after, e) ==
      if cfg.HasEdge(e) && Reaches(HandleBack(cfg, before), bb, e.dst)
      then UpdateHandleFlag(At(before, e), MUST_HANDLE_ERR) else At(before, e)
  }

  ghost predicate HandleSearch(cfg: Cfg, bb: Block, before: EdgeMap, edges: EdgeMap, done: set<Block>, todo: seq<Block>)
  {
    && Searching(HandleBack(cfg, before), {bb}, done, Items(todo))
    && Items(todo) <= cfg.Blocks()
    && HandleMarked(before, edges, EdgesInto(cfg, done))
  }

  lemma HandleStep(cfg: Cfg, bb: Block, before: EdgeMap, e0: EdgeMap, e1: EdgeMap,
                   done: set<Block>, todo: seq<Block>, next: seq<Block>)
    requires todo != [] && HandleSearch(cfg, bb, before, e0, done, todo) && todo[0] !in done
    requires HandleMarked(e0, e1, EdgesInto(cfg, {todo[0]}))
    requires Items(next) == HandleBack(cfg, e0)(todo[0]) <= cfg.Blocks()
    ensures HandleSearch(cfg, bb, before, e1, done + {todo[0]}, todo[1..] + next)
  {
    var g, tb := HandleBack(cfg, before), todo[0];
    assert Items(next) == g(tb) by {
      assert forall p :: Edge(p, tb) !in EdgesInto(cfg, done);
    }
    HandleMarkedAgain(before, e0, e1, EdgesInto(cfg, done), EdgesInto(cfg, {tb}));
    assert EdgesInto(cfg, done) + EdgesInto(cfg, {tb}) == EdgesInto(cfg, done + {tb});
    ItemsPop(todo, next);
    ExpandFirst(g, {bb}, done, todo, next);
  }

  lemma HandleSearchEnds(cfg: Cfg, bb: Block, before: EdgeMap, edges: EdgeMap, done: set<Block>)
    requires HandleSearch(cfg, bb, before, edges, done, [])
    ensures HandleClosure(cfg, bb, before, edges)
  {
    assert Items<Block>([]) == {};
    EndSearch(HandleBack(cfg, before), bb, done);
    forall e: Edge
      ensures e in EdgesInto(cfg, done) <==> cfg.HasEdge(e) && Reaches(HandleBack(cfg, before), bb, e.dst)
    {
      EdgeIsListed(cfg, e);
    }
  }

  method RecurMarkEdgesToErrHandle(cfg: Cfg, bb: Block, before: EdgeMap) returns (edges: EdgeMap)
    requires cfg.HasBlock(bb)
    ensures HandleClosure(cfg, bb, before, edges)
  {
    edges := before;
    var done: set<Block>, todo := {}, [bb];
    StartSearch(HandleBack(cfg, before), bb);
    assert Items(todo) == {bb};
    while todo != []
      invariant HandleSearch(cfg, bb, before, edges, done, todo)
      decreases cfg.Blocks() - done, |todo|
    {
      var tb := todo[0];
      ItemsPop(todo, []);
      if tb in done {
        SkipFirst(HandleBack(cfg, before), {bb}, done, todo);
        todo := todo[1..];
        continue;
      }
      ghost var edges0 := edges;
      var next;
      edges, next := MarkHandlePreds(cfg, tb, edges);
      HandleStep(cfg, bb, before, edges0, edges, done, todo, next);
      done := done + {tb};
      todo := todo[1..] + next;
    }
    HandleSearchEnds(cfg, bb, before, edges, done);
  }
}
