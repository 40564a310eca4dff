/** Where return flags end up. */
module ReturnAims {
  import opened Graphs
  import opened ControlFlow
  import opened Flags
  import opened EdgeFlags
  import opened ReturnMarking
  import opened BackwardMarking
  import opened Doom

  // ---------- where the flags end up ----------

  /** Those of the given edges into returning blocks that only Must. */
  ghost function Musts(bbErr: BlockMap, es: set<Edge>): set<Edge> {
    set e | e in es && e.dst in bbErr && !HasMay(bbErr[e.dst])
  }

  /**
    The return nibble of an edge after marking from the edges es into returning blocks: that of the
    block it enters, Must if every path from its end runs into a Must block, or May if some path
    from its end runs into a block with May.
  */
  ghost function Aim(cfg: Cfg, bbErr: BlockMap, es: set<Edge>, e: Edge): Flag {
    if e in es && e.dst in bbErr then ReturnBits(bbErr[e.dst])
    else if Doomed(cfg, es, Musts(bbErr, es), e.dst) then MUST_RETURN_ERR
    else if LeadsTo(cfg, es - Musts(bbErr, es), e.dst) then MAY_RETURN_ERR
    else 0
  }

  /** Every edge out of a free block has the nibble it should have. */
  ghost predicate Exact(cfg: Cfg, bbErr: BlockMap, free: set<Block>, es: set<Edge>, edges: EdgeMap) {
    forall e: Edge | cfg.HasEdge(e) && e.src in free :: ReturnBits(At(edges, e)) == Aim(cfg, bbErr, es, e)
  }

  /** The edges es lead from free blocks into returning blocks, and nothing leads back to a free block. */
  ghost predicate Field(cfg: Cfg, bbErr: BlockMap, free: set<Block>, es: set<Edge>) {
    && AllBlockMarks(bbErr) && es <= cfg.Edges()
    && (forall e: Edge | cfg.HasEdge(e) && e.dst in free :: e.src in free)
    && (forall e | e in es :: e.src in free && e.dst !in free && Resets(bbErr, e.dst))
  }

  ghost predicate TwoTargets(cfg: Cfg, b: Block)
    requires cfg.HasBlock(b)
  {
    forall s, t, u | s in cfg.succs[b] && t in cfg.succs[b] && u in cfg.succs[b] :: s == t || t == u || s == u
  }

  /** Above a returning block every branch has at most two targets. */
  ghost predicate TwoWay(cfg: Cfg, bbErr: BlockMap) {
    forall e: Edge, b: Block
      | cfg.HasEdge(e) && Resets(bbErr, e.dst) && cfg.HasBlock(b) && Reaches(cfg.Forward(), b, e.src) ::
      TwoTargets(cfg, b)
  }

  lemma {:induction false} FreeAbove(cfg: Cfg, bbErr: BlockMap, free: set<Block>, es: set<Edge>, a: Block, b: Block,
                                     n: nat)
    requires Field(cfg, bbErr, free, es) && ReachesIn(cfg.Forward(), a, b, n) && b in free
    ensures a in free
    decreases n
  {
    if n > 0 {
      var t :| t in cfg.Forward()(a) && ReachesIn(cfg.Forward(), t, b, n - 1);
      FreeAbove(cfg, bbErr, free, es, t, b, n - 1);
      assert cfg.HasEdge(Edge(a, t));
    }
  }

  lemma FieldIsApart(cfg: Cfg, bbErr: BlockMap, free: set<Block>, es: set<Edge>)
    requires Field(cfg, bbErr, free, es)
    ensures EdgesApart(cfg, es)
  {
    forall d, e | d in es && e in es ensures !Reaches(cfg.Forward(), d.dst, e.src) {
      if Reaches(cfg.Forward(), d.dst, e.src) {
        var n: nat :| ReachesIn(cfg.Forward(), d.dst, e.src, n);
        FreeAbove(cfg, bbErr, free, es, d.dst, e.src, n);
        assert false;
      }
    }
  }

  /** A doomed block leads to no block with May. */
  lemma DoomedIsCertain(cfg: Cfg, bbErr: BlockMap, free: set<Block>, es: set<Edge>, b: Block)
    requires Field(cfg, bbErr, free, es) && Doomed(cfg, es, Musts(bbErr, es), b)
    ensures !LeadsTo(cfg, es - Musts(bbErr, es), b)
  {
    FieldIsApart(cfg, bbErr, free, es);
    forall e | e in es - Musts(bbErr, es) ensures !Reaches(cfg.Forward(), b, e.src) {
      assert es + {e} == es;
      EdgeIsListed(cfg, e);
      DoomedAvoids(cfg, es, Musts(bbErr, es), b, e);
    }
  }

  // ---------- a Must flag on its way up ----------

  ghost predicate SoundAt(cfg: Cfg, bbErr: BlockMap, es: set<Edge>, edges: EdgeMap, e: Edge) {
    var n := ReturnBits(At(edges, e));
    if e in es && e.dst in bbErr then n == ReturnBits(bbErr[e.dst])
    else
      && (n == MAY_RETURN_ERR <==> LeadsTo(cfg, es - Musts(bbErr, es), e.dst))
      && (n == MUST_RETURN_ERR ==> Doomed(cfg, es, Musts(bbErr, es), e.dst))
      && (n == 0 || n == MUST_RETURN_ERR || n == MAY_RETURN_ERR)
  }

  /** No flag is wrong, but some Must flags may be missing. */
  ghost predicate Sound(cfg: Cfg, bbErr: BlockMap, free: set<Block>, es: set<Edge>, edges: EdgeMap) {
    forall e: Edge | cfg.HasEdge(e) && e.src in free :: SoundAt(cfg, bbErr, es, edges, e)
  }

  /** All ways out of the block are Must. */
  ghost predicate MustLeave(cfg: Cfg, free: set<Block>, edges: EdgeMap, b: Block) {
    && b in free && cfg.HasBlock(b) && cfg.succs[b] != []
    && forall t | t in cfg.succs[b] :: ReturnBits(At(edges, Edge(b, t))) == MUST_RETURN_ERR
  }

  ghost predicate MustEnter(cfg: Cfg, edges: EdgeMap, b: Block) {
    forall e: Edge | cfg.HasEdge(e) && e.dst == b :: HasMust(At(edges, e))
  }

  ghost predicate Pending(done: set<Edge>, todo: seq<(Edge, Flag)>, b: Block) {
    exists x :: x in todo && x.0 !in done && x.0.src == b
  }

  ghost predicate MustWaits(cfg: Cfg, free: set<Block>, edges: EdgeMap, x: (Edge, Flag)) {
    && cfg.HasEdge(x.0) && x.0.src in free && ReturnBits(At(edges, x.0)) == MUST_RETURN_ERR
    && ReturnBits(x.1) != 0 && !HasMay(x.1)
  }

  /** A Must flag climbs: wherever one is missing, an edge below it waits. */
  ghost predicate Rising(cfg: Cfg, bbErr: BlockMap, free: set<Block>, es: set<Edge>, edges: EdgeMap,
                         done: set<Edge>, todo: seq<(Edge, Flag)>)
  {
    && Sound(cfg, bbErr, free, es, edges)
    && (forall x | x in todo :: MustWaits(cfg, free, edges, x))
    && (forall e | e in done :: HasMust(At(edges, e)))
    && (forall b: Block | MustLeave(cfg, free, edges, b) :: MustEnter(cfg, edges, b) || Pending(done, todo, b))
  }

  lemma MustLeaveIsDoomed(cfg: Cfg, bbErr: BlockMap, free: set<Block>, es: set<Edge>, edges: EdgeMap, b: Block)
    requires Field(cfg, bbErr, free, es) && Sound(cfg, bbErr, free, es, edges) && MustLeave(cfg, free, edges, b)
    ensures Doomed(cfg, es, Musts(bbErr, es), b)
  {
    forall t | t in cfg.succs[b]
      ensures Edge(b, t) in Musts(bbErr, es) || (Edge(b, t) !in es && Doomed(cfg, es, Musts(bbErr, es), t))
    {
      assert cfg.HasEdge(Edge(b, t)) && SoundAt(cfg, bbErr, es, edges, Edge(b, t));
    }
    CorneredIsDoomed(cfg, es, Musts(bbErr, es), b);
  }

  /** An edge into a doomed free block is Must, or not yet marked. */
  lemma IntoDoomed(cfg: Cfg, bbErr: BlockMap, free: set<Block>, es: set<Edge>, edges: EdgeMap, e: Edge)
    requires Field(cfg, bbErr, free, es) && Sound(cfg, bbErr, free, es, edges)
    requires cfg.HasEdge(e) && e.dst in free && Doomed(cfg, es, Musts(bbErr, es), e.dst)
    ensures e.src in free && e !in es
    ensures ReturnBits(At(edges, e)) == 0 || ReturnBits(At(edges, e)) == MUST_RETURN_ERR
  {
    DoomedIsCertain(cfg, bbErr, free, es, e.dst);
    assert SoundAt(cfg, bbErr, es, edges, e);
  }

  lemma MustLeads(cfg: Cfg, bbErr: BlockMap, free: set<Block>, es: set<Edge>, edges: EdgeMap, e: Edge)
    requires Field(cfg, bbErr, free, es) && Sound(cfg, bbErr, free, es, edges) && TwoWay(cfg, bbErr)
    requires cfg.HasEdge(e) && e.src in free && ReturnBits(At(edges, e)) == MUST_RETURN_ERR
    ensures cfg.HasBlock(e.src) && TwoTargets(cfg, e.src)
  {
    EdgeIsListed(cfg, e);
    assert SoundAt(cfg, bbErr, es, edges, e);
    if e in es {
      ReachSelf(cfg.Forward(), e.src);
    } else {
      DoomedLeads(cfg, es, Musts(bbErr, es), e.dst);
      LeadsFirst(cfg, Musts(bbErr, es), e.src, e.dst);
      var d :| d in Musts(bbErr, es) && Reaches(cfg.Forward(), e.src, d.src);
      EdgeIsListed(cfg, d);
    }
  }

  /** Where not all siblings are Must but one has Must, that one leads into a block that has May as well. */
  lemma RivalHasMay(cfg: Cfg, bbErr: BlockMap, free: set<Block>, es: set<Edge>, edges: EdgeMap, ce: Edge)
    requires Field(cfg, bbErr, free, es) && Sound(cfg, bbErr, free, es, edges) && cfg.HasEdge(ce) && ce.src in free
    requires cfg.HasBlock(ce.src) && TwoTargets(cfg, ce.src)
    requires !SiblingsAllMust(cfg, edges, ce) && !SiblingsNeverMust(cfg, edges, ce)
    ensures LeadsTo(cfg, es - Musts(bbErr, es), ce.src)
  {
    var d: Edge :| cfg.HasEdge(d) && d.src == ce.src && d != ce && HasMust(At(edges, d));
    var e: Edge :| cfg.HasEdge(e) && e.src == ce.src && e != ce && !(HasMust(At(edges, e)) && !HasMay(At(edges, e)));
    assert d.dst == e.dst;
    assert SoundAt(cfg, bbErr, es, edges, d);
    ReachSelf(cfg.Forward(), ce.src);
  }

  /** Where all edges into a block are May already, spreading May above it changes nothing. */
  lemma MayAgain(cfg: Cfg, b: Block, e0: EdgeMap, e1: EdgeMap)
    requires ReturnClosure(cfg, b, MAY_RETURN_ERR, e0, e1)
    requires forall e: Edge | cfg.HasEdge(e) && e.dst == b :: ReturnBits(At(e0, e)) == MAY_RETURN_ERR
    ensures forall e: Edge :: At(e1, e) == At(e0, e)
  {
    var g := ReturnBack(cfg, e0, MAY_RETURN_ERR);
    assert g(b) == {} by {
      forall p | p in g(b) ensures false {
        EdgeIsListed(cfg, Edge(p, b));
      }
    }
    forall e: Edge ensures At(e1, e) == At(e0, e) {
      if Reaches(g, b, e.dst) {
        ClosedHoldsReach(g, {b}, b, e.dst);
        UpdateReturnTwice(At(e0, e), MAY_RETURN_ERR);
      }
    }
  }

  lemma IdleStep(cfg: Cfg, bbErr: BlockMap, free: set<Block>, es: set<Edge>, x: (Edge, Flag), e0: EdgeMap, e1: EdgeMap)
    requires Field(cfg, bbErr, free, es) && TwoWay(cfg, bbErr) && Sound(cfg, bbErr, free, es, e0)
    requires MustWaits(cfg, free, e0, x) && cfg.HasBlock(x.0.src)
    requires !Climbs(cfg, x.0, x.1, e0) && FirstStep(cfg, x.0, x.1, e0, e1)
    ensures forall e: Edge :: At(e1, e) == At(e0, e)
  {
    var tb := x.0.src;
    if cfg.preds[tb] != [] && !SiblingsNeverMust(cfg, e0, x.0) {
      MustLeads(cfg, bbErr, free, es, e0, x.0);
      RivalHasMay(cfg, bbErr, free, es, e0, x.0);
      forall e: Edge | cfg.HasEdge(e) && e.dst == tb ensures ReturnBits(At(e0, e)) == MAY_RETURN_ERR {
        assert SoundAt(cfg, bbErr, es, e0, e);
      }
      MayAgain(cfg, tb, e0, e1);
    }
  }

  lemma SameIsSound(cfg: Cfg, bbErr: BlockMap, free: set<Block>, es: set<Edge>, e0: EdgeMap, e1: EdgeMap)
    requires Sound(cfg, bbErr, free, es, e0) && forall e: Edge :: At(e1, e) == At(e0, e)
    ensures Sound(cfg, bbErr, free, es, e1)
  {
    forall e: Edge | cfg.HasEdge(e) && e.src in free ensures SoundAt(cfg, bbErr, es, e1, e) {
      assert SoundAt(cfg, bbErr, es, e0, e);
    }
  }

  lemma ClimbedIsSound(cfg: Cfg, bbErr: BlockMap, free: set<Block>, es: set<Edge>, tb: Block, e0: EdgeMap, e1: EdgeMap)
    requires Field(cfg, bbErr, free, es) && Sound(cfg, bbErr, free, es, e0) && MustLeave(cfg, free, e0, tb)
    requires MustEntered(cfg, tb, e0, e1)
    ensures Sound(cfg, bbErr, free, es, e1) && MustEnter(cfg, e1, tb)
  {
    MustLeaveIsDoomed(cfg, bbErr, free, es, e0, tb);
    DoomedIsCertain(cfg, bbErr, free, es, tb);
    forall e: Edge | cfg.HasEdge(e) && e.src in free ensures SoundAt(cfg, bbErr, es, e1, e) {
      assert SoundAt(cfg, bbErr, es, e0, e);
      if e.dst == tb {
        IntoDoomed(cfg, bbErr, free, es, e0, e);
        MustIsMarked(At(e0, e));
      }
    }
  }

  /** Whatever is Must all around is dealt with, or waits, after a step from the block tb. */
  lemma StillPending(cfg: Cfg, free: set<Block>, e0: EdgeMap, e1: EdgeMap, done: set<Edge>,
                     todo: seq<(Edge, Flag)>, next: seq<(Edge, Flag)>, b: Block)
    requires todo != [] && todo[0].0 !in done && b != todo[0].0.src
    requires forall c: Block | MustLeave(cfg, free, e0, c) :: MustEnter(cfg, e0, c) || Pending(done, todo, c)
    requires forall e: Edge :: HasMust(At(e0, e)) ==> HasMust(At(e1, e))
    requires forall e: Edge | At(e1, e) != At(e0, e) :: e !in done && e != todo[0].0 && (e, MUST_RETURN_ERR) in next
    requires MustLeave(cfg, free, e1, b)
    ensures MustEnter(cfg, e1, b) || Pending(done + {todo[0].0}, todo[1..] + next, b)
  {
    if t :| t in cfg.succs[b] && At(e1, Edge(b, t)) != At(e0, Edge(b, t)) {
      assert (Edge(b, t), MUST_RETURN_ERR) in todo[1..] + next;
    } else {
      assert MustLeave(cfg, free, e0, b);
      if Pending(done, todo, b) {
        var x :| x in todo && x.0 !in done && x.0.src == b;
        assert x in todo[1..] + next;
      }
    }
  }

  lemma RiseSame(cfg: Cfg, bbErr: BlockMap, free: set<Block>, es: set<Edge>, e0: EdgeMap, e1: EdgeMap,
                 done: set<Edge>, todo: seq<(Edge, Flag)>)
    requires todo != [] && todo[0].0 !in done && Rising(cfg, bbErr, free, es, e0, done, todo)
    requires forall e: Edge :: At(e1, e) == At(e0, e)
    requires MustLeave(cfg, free, e0, todo[0].0.src) ==> MustEnter(cfg, e0, todo[0].0.src)
    ensures Rising(cfg, bbErr, free, es, e1, done + {todo[0].0}, todo[1..] + [])
  {
    assert todo[1..] + [] == todo[1..] && todo[0] in todo;
    assert MustWaits(cfg, free, e0, todo[0]);
    SameIsSound(cfg, bbErr, free, es, e0, e1);
    forall b: Block | MustLeave(cfg, free, e1, b)
      ensures MustEnter(cfg, e1, b) || Pending(done + {todo[0].0}, todo[1..] + [], b)
    {
      if b == todo[0].0.src {
        assert MustLeave(cfg, free, e0, b);
      } else {
        StillPending(cfg, free, e0, e1, done, todo, [], b);
      }
    }
    forall x | x in todo[1..] ensures MustWaits(cfg, free, e1, x) {
      assert MustWaits(cfg, free, e0, x);
    }
  }

  lemma RiseClimbs(cfg: Cfg, bbErr: BlockMap, free: set<Block>, es: set<Edge>, e0: EdgeMap, e1: EdgeMap,
                   done: set<Edge>, todo: seq<(Edge, Flag)>, next: seq<(Edge, Flag)>)
    requires todo != [] && todo[0].0 !in done && Rising(cfg, bbErr, free, es, e0, done, todo)
    requires Sound(cfg, bbErr, free, es, e1) && MustEnter(cfg, e1, todo[0].0.src)
    requires forall e: Edge :: HasMust(At(e0, e)) ==> HasMust(At(e1, e))
    requires forall e: Edge | At(e1, e) != At(e0, e) :: !HasMust(At(e0, e)) && (e, MUST_RETURN_ERR) in next
    requires forall x | x in next :: MustWaits(cfg, free, e1, x)
    ensures Rising(cfg, bbErr, free, es, e1, done + {todo[0].0}, todo[1..] + next)
  {
    assert todo[0] in todo && MustWaits(cfg, free, e0, todo[0]);
    forall b: Block | MustLeave(cfg, free, e1, b)
      ensures MustEnter(cfg, e1, b) || Pending(done + {todo[0].0}, todo[1..] + next, b)
    {
      if b != todo[0].0.src {
        StillPending(cfg, free, e0, e1, done, todo, next, b);
      }
    }
    forall x | x in todo[1..] ensures MustWaits(cfg, free, e1, x) {
      assert x in todo && MustWaits(cfg, free, e0, x);
    }
  }

  lemma ClimbChanges(cfg: Cfg, free: set<Block>, tb: Block, e0: EdgeMap, e1: EdgeMap, next: seq<(Edge, Flag)>)
    requires cfg.HasBlock(tb) && MustEntered(cfg, tb, e0, e1) && next == MustNext(e0, tb, cfg.preds[tb])
    requires forall e: Edge | cfg.HasEdge(e) && e.dst == tb :: e.src in free
    requires forall e: Edge | cfg.HasEdge(e) && e.dst == tb :: ReturnBits(At(e1, e)) == MUST_RETURN_ERR
    ensures forall e: Edge :: HasMust(At(e0, e)) ==> HasMust(At(e1, e))
    ensures forall e: Edge | At(e1, e) != At(e0, e) :: !HasMust(At(e0, e)) && (e, MUST_RETURN_ERR) in next
    ensures forall x | x in next :: MustWaits(cfg, free, e1, x)
  {
    MustNextHolds(e0, tb, cfg.preds[tb]);
    forall e: Edge ensures cfg.HasEdge(e) && e.dst == tb <==> e.dst == tb && e.src in cfg.preds[tb] {
      EdgeIsListed(cfg, e);
    }
  }

  lemma AllLeave(cfg: Cfg, bbErr: BlockMap, free: set<Block>, es: set<Edge>, edges: EdgeMap, ce: Edge)
    requires Field(cfg, bbErr, free, es) && Sound(cfg, bbErr, free, es, edges)
    requires cfg.HasEdge(ce) && cfg.HasBlock(ce.src) && ce.src in free && SiblingsAllMust(cfg, edges, ce)
    requires ReturnBits(At(edges, ce)) == MUST_RETURN_ERR
    ensures MustLeave(cfg, free, edges, ce.src)
  {
    forall t | t in cfg.succs[ce.src] ensures ReturnBits(At(edges, Edge(ce.src, t))) == MUST_RETURN_ERR {
      assert cfg.HasEdge(Edge(ce.src, t)) && SoundAt(cfg, bbErr, es, edges, Edge(ce.src, t));
    }
  }

  lemma LeavesClimb(cfg: Cfg, free: set<Block>, edges: EdgeMap, x: (Edge, Flag))
    requires cfg.HasBlock(x.0.src) && MustWaits(cfg, free, edges, x) && !Climbs(cfg, x.0, x.1, edges)
    ensures MustLeave(cfg, free, edges, x.0.src) ==> MustEnter(cfg, edges, x.0.src)
  {
    if MustLeave(cfg, free, edges, x.0.src) {
      forall e: Edge | cfg.HasEdge(e) && e.src == x.0.src ensures HasMust(At(edges, e)) && !HasMay(At(edges, e)) {
        assert ReturnBits(At(edges, Edge(e.src, e.dst))) == MUST_RETURN_ERR;
      }
      assert cfg.preds[x.0.src] == [];
      forall e: Edge | cfg.HasEdge(e) ensures e.dst != x.0.src {
        EdgeIsListed(cfg, e);
      }
    }
  }

  lemma ClimbStepRises(cfg: Cfg, bbErr: BlockMap, free: set<Block>, es: set<Edge>, e0: EdgeMap, e1: EdgeMap,
                       done: set<Edge>, todo: seq<(Edge, Flag)>, next: seq<(Edge, Flag)>)
    requires Field(cfg, bbErr, free, es) && todo != [] && todo[0].0 !in done
    requires Rising(cfg, bbErr, free, es, e0, done, todo) && cfg.HasBlock(todo[0].0.src)
    requires MustLeave(cfg, free, e0, todo[0].0.src) && MustEntered(cfg, todo[0].0.src, e0, e1)
    requires next == MustNext(e0, todo[0].0.src, cfg.preds[todo[0].0.src])
    ensures Rising(cfg, bbErr, free, es, e1, done + {todo[0].0}, todo[1..] + next)
  {
    var tb := todo[0].0.src;
    MustLeaveIsDoomed(cfg, bbErr, free, es, e0, tb);
    ClimbedIsSound(cfg, bbErr, free, es, tb, e0, e1);
    forall e: Edge | cfg.HasEdge(e) && e.dst == tb
      ensures e.src in free && ReturnBits(At(e1, e)) == MUST_RETURN_ERR
    {
      IntoDoomed(cfg, bbErr, free, es, e1, e);
      assert HasMust(At(e1, e));
    }
    ClimbChanges(cfg, free, tb, e0, e1, next);
    RiseClimbs(cfg, bbErr, free, es, e0, e1, done, todo, next);
  }

  lemma RiseStep(cfg: Cfg, bbErr: BlockMap, free: set<Block>, es: set<Edge>, e0: EdgeMap, e1: EdgeMap,
                 done: set<Edge>, todo: seq<(Edge, Flag)>, next: seq<(Edge, Flag)>)
    requires Field(cfg, bbErr, free, es) && TwoWay(cfg, bbErr) && todo != [] && todo[0].0 !in done
    requires Rising(cfg, bbErr, free, es, e0, done, todo) && cfg.HasBlock(todo[0].0.src)
    requires Steps(cfg, todo[0], e0, e1, next)
    ensures Rising(cfg, bbErr, free, es, e1, done + {todo[0].0}, todo[1..] + next)
  {
    var x := todo[0];
    assert x in todo && MustWaits(cfg, free, e0, x);
    if Climbs(cfg, x.0, x.1, e0) {
      AllLeave(cfg, bbErr, free, es, e0, x.0);
      ClimbStepRises(cfg, bbErr, free, es, e0, e1, done, todo, next);
    } else {
      IdleStep(cfg, bbErr, free, es, x, e0, e1);
      LeavesClimb(cfg, free, e0, x);
      RiseSame(cfg, bbErr, free, es, e0, e1, done, todo);
    }
  }

  /** With nothing left to do, no Must flag is missing. */
  lemma RisenIsExact(cfg: Cfg, bbErr: BlockMap, free: set<Block>, es: set<Edge>, edges: EdgeMap, done: set<Edge>)
    requires Field(cfg, bbErr, free, es) && Rising(cfg, bbErr, free, es, edges, done, [])
    ensures Exact(cfg, bbErr, free, es, edges)
  {
    var ms := Musts(bbErr, es);
    var x := set b: Block | b in cfg.Blocks() && MustLeave(cfg, free, edges, b);
    forall b: Block | Cornered(cfg, es, ms, x, b) ensures b in x {
      CorneredLeaves(cfg, bbErr, free, es, edges, done, x, b);
    }
    forall e: Edge | cfg.HasEdge(e) && e.src in free ensures ReturnBits(At(edges, e)) == Aim(cfg, bbErr, es, e) {
      assert SoundAt(cfg, bbErr, es, edges, e);
      if Doomed(cfg, es, ms, e.dst) {
        DoomedIn(cfg, es, ms, x, e.dst);
        DoomedIsCertain(cfg, bbErr, free, es, e.dst);
        assert MustEnter(cfg, edges, e.dst);
        assert HasMust(At(edges, e));
      }
    }
  }

  lemma CorneredLeaves(cfg: Cfg, bbErr: BlockMap, free: set<Block>, es: set<Edge>, edges: EdgeMap, done: set<Edge>,
                       x: set<Block>, b: Block)
    requires Field(cfg, bbErr, free, es) && Rising(cfg, bbErr, free, es, edges, done, [])
    requires Cornered(cfg, es, Musts(bbErr, es), x, b) && forall a | a in x :: MustLeave(cfg, free, edges, a)
    ensures MustLeave(cfg, free, edges, b)
  {
    forall t | t in cfg.succs[b] ensures b in free && ReturnBits(At(edges, Edge(b, t))) == MUST_RETURN_ERR {
      assert cfg.HasEdge(Edge(b, t));
      if t in x {
        assert MustEnter(cfg, edges, t);
        assert HasMust(At(edges, Edge(b, t)));
      }
      assert SoundAt(cfg, bbErr, es, edges, Edge(b, t));
    }
    assert cfg.succs[b][0] in cfg.succs[b];
  }

  lemma {:induction false} ClimbIsExact(cfg: Cfg, bbErr: BlockMap, free: set<Block>, es: set<Edge>, edges: EdgeMap,
                                        done: set<Edge>, todo: seq<(Edge, Flag)>, after: EdgeMap)
    requires Field(cfg, bbErr, free, es) && TwoWay(cfg, bbErr)
    requires Rising(cfg, bbErr, free, es, edges, done, todo) && Runs(cfg, edges, done, todo, after)
    ensures Exact(cfg, bbErr, free, es, after)
    decreases cfg.Edges() - done, |todo|
  {
    if todo == [] {
      RisenIsExact(cfg, bbErr, free, es, edges, done);
    } else if todo[0].0 in done {
      ClimbIsExact(cfg, bbErr, free, es, edges, done, todo[1..], after);
    } else {
      var now, next :| Steps(cfg, todo[0], edges, now, next)
                       && Runs(cfg, now, done + {todo[0].0}, todo[1..] + next, after);
      RiseStep(cfg, bbErr, free, es, edges, now, done, todo, next);
      ClimbIsExact(cfg, bbErr, free, es, now, done + {todo[0].0}, todo[1..] + next, after);
    }
  }

  // ---------- one more edge into a returning block ----------

  lemma ExactIsSound(cfg: Cfg, bbErr: BlockMap, free: set<Block>, es: set<Edge>, edges: EdgeMap)
    requires Field(cfg, bbErr, free, es) && Exact(cfg, bbErr, free, es, edges)
    ensures Sound(cfg, bbErr, free, es, edges)
  {
    forall e: Edge | cfg.HasEdge(e) && e.src in free ensures SoundAt(cfg, bbErr, es, edges, e) {
      if Doomed(cfg, es, Musts(bbErr, es), e.dst) {
        DoomedIsCertain(cfg, bbErr, free, es, e.dst);
      }
    }
  }

  /** A new Must edge is all that can be missing. */
  lemma MustStarts(cfg: Cfg, bbErr: BlockMap, free: set<Block>, es: set<Edge>, ce: Edge, before: EdgeMap)
    requires Field(cfg, bbErr, free, es + {ce}) && Exact(cfg, bbErr, free, es, before) && !HasMay(bbErr[ce.dst])
    ensures Rising(cfg, bbErr, free, es + {ce}, before[ce := UpdateReturnFlag(At(before, ce), bbErr[ce.dst])], {},
                   [(ce, bbErr[ce.dst])])
  {
    var e1 := before[ce := UpdateReturnFlag(At(before, ce), bbErr[ce.dst])];
    assert ce in es + {ce};
    assert Field(cfg, bbErr, free, es);
    EdgeIsListed(cfg, ce);
    assert Musts(bbErr, es + {ce}) == Musts(bbErr, es) + {ce};
    assert es + {ce} - Musts(bbErr, es + {ce}) == es - Musts(bbErr, es);
    ExactIsSound(cfg, bbErr, free, es, before);
    forall e: Edge | cfg.HasEdge(e) && e.src in free ensures SoundAt(cfg, bbErr, es + {ce}, e1, e) {
      assert SoundAt(cfg, bbErr, es, before, e);
      if Doomed(cfg, es, Musts(bbErr, es), e.dst) {
        DoomGrows(cfg, es, Musts(bbErr, es), ce, e.dst);
      }
    }
    forall b: Block | MustLeave(cfg, free, e1, b) && b != ce.src ensures MustEnter(cfg, e1, b) {
      assert MustLeave(cfg, free, before, b);
      MustLeaveIsDoomed(cfg, bbErr, free, es, before, b);
    }
    assert (ce, bbErr[ce.dst]) in [(ce, bbErr[ce.dst])];
  }

  lemma AimWithMay(cfg: Cfg, bbErr: BlockMap, free: set<Block>, es: set<Edge>, ce: Edge, e: Edge)
    requires Field(cfg, bbErr, free, es + {ce}) && HasMay(bbErr[ce.dst]) && cfg.HasEdge(ce) && e != ce
    ensures Aim(cfg, bbErr, es + {ce}, e) ==
            if Reaches(cfg.Forward(), e.dst, ce.src) then MAY_RETURN_ERR else Aim(cfg, bbErr, es, e)
    ensures Reaches(cfg.Forward(), e.dst, ce.src) ==> e !in es + {ce} && !Doomed(cfg, es, Musts(bbErr, es), e.dst)
  {
    var ms := Musts(bbErr, es);
    assert ce in es + {ce};
    assert Musts(bbErr, es + {ce}) == ms;
    assert es + {ce} - ms == (es - ms) + {ce};
    FieldIsApart(cfg, bbErr, free, es + {ce});
    DoomStays(cfg, es, ms, ce, e.dst);
    if Doomed(cfg, es, ms, e.dst) {
      DoomedAvoids(cfg, es, ms, e.dst, ce);
    }
  }

  /** What leads to the new edge is reached from it, or leads to an older edge with May. */
  lemma ReachedOrMay(cfg: Cfg, bbErr: BlockMap, free: set<Block>, es: set<Edge>, ce: Edge, e0: EdgeMap, e1: EdgeMap,
                     b: Block)
    requires Field(cfg, bbErr, free, es + {ce}) && Exact(cfg, bbErr, free, es, e0) && HasMay(bbErr[ce.dst])
    requires forall e: Edge | e != ce :: At(e1, e) == At(e0, e)
    requires Reaches(cfg.Forward(), b, ce.src)
    ensures Reaches(ReturnBack(cfg, e1, MAY_RETURN_ERR), ce.src, b) || LeadsTo(cfg, es - Musts(bbErr, es), b)
  {
    var g := ReturnBack(cfg, e1, MAY_RETURN_ERR);
    assert ce in es + {ce};
    EdgeIsListed(cfg, ce);
    var x := set a: Block | a in cfg.Blocks() && Reaches(cfg.Forward(), a, ce.src)
                            && (Reaches(g, ce.src, a) || LeadsTo(cfg, es - Musts(bbErr, es), a));
    forall y: Block, p: Block | y in x && p in cfg.Backward()(y) ensures p in x {
      EdgeIsListed(cfg, Edge(p, y));
      ReachFirst(cfg.Forward(), p, y, ce.src);
      OneMoreBack(cfg, bbErr, free, es, ce, e0, e1, p, y);
    }
    ReachSelf(cfg.Forward(), ce.src);
    ReachSelf(g, ce.src);
    BackwardIsForward(cfg, ce.src, b);
    ClosedHoldsReach(cfg.Backward(), x, ce.src, b);
  }

  lemma OneMoreBack(cfg: Cfg, bbErr: BlockMap, free: set<Block>, es: set<Edge>, ce: Edge, e0: EdgeMap, e1: EdgeMap,
                    p: Block, y: Block)
    requires Field(cfg, bbErr, free, es + {ce}) && Exact(cfg, bbErr, free, es, e0) && HasMay(bbErr[ce.dst])
    requires forall e: Edge | e != ce :: At(e1, e) == At(e0, e)
    requires cfg.HasEdge(Edge(p, y)) && Reaches(cfg.Forward(), y, ce.src)
    requires Reaches(ReturnBack(cfg, e1, MAY_RETURN_ERR), ce.src, y) || LeadsTo(cfg, es - Musts(bbErr, es), y)
    ensures Reaches(ReturnBack(cfg, e1, MAY_RETURN_ERR), ce.src, p) || LeadsTo(cfg, es - Musts(bbErr, es), p)
  {
    var g := ReturnBack(cfg, e1, MAY_RETURN_ERR);
    EdgeIsListed(cfg, Edge(p, y));
    FreeLead(cfg, bbErr, free, es, ce, p, y);
    assert ReturnBits(At(e1, Edge(p, y))) == Aim(cfg, bbErr, es, Edge(p, y));
    if LeadsTo(cfg, es - Musts(bbErr, es), y) {
      LeadsFirst(cfg, es - Musts(bbErr, es), p, y);
    } else if ReturnBits(At(e1, Edge(p, y))) != MAY_RETURN_ERR {
      assert p in g(y);
      ReachNext(g, ce.src, y, p);
    }
  }

  /** An edge that leads to the source of a new edge is not one of the given edges. */
  lemma FreeLead(cfg: Cfg, bbErr: BlockMap, free: set<Block>, es: set<Edge>, ce: Edge, p: Block, y: Block)
    requires Field(cfg, bbErr, free, es + {ce}) && cfg.HasEdge(Edge(p, y)) && Reaches(cfg.Forward(), y, ce.src)
    ensures p in free && Edge(p, y) !in es + {ce}
  {
    assert ce in es + {ce};
    var n: nat :| ReachesIn(cfg.Forward(), y, ce.src, n);
    FreeAbove(cfg, bbErr, free, es + {ce}, y, ce.src, n);
  }

  lemma MayReaches(cfg: Cfg, bbErr: BlockMap, free: set<Block>, es: set<Edge>, ce: Edge, e0: EdgeMap, e1: EdgeMap,
                   e2: EdgeMap, e: Edge)
    requires Field(cfg, bbErr, free, es + {ce}) && Exact(cfg, bbErr, free, es, e0) && HasMay(bbErr[ce.dst])
    requires forall d: Edge | d != ce :: At(e1, d) == At(e0, d)
    requires ReturnClosure(cfg, ce.src, MAY_RETURN_ERR, e1, e2) && cfg.HasEdge(e) && e.src in free
    ensures Reaches(cfg.Forward(), e.dst, ce.src) && e != ce ==> ReturnBits(At(e2, e)) == MAY_RETURN_ERR
    ensures !Reaches(cfg.Forward(), e.dst, ce.src) ==> At(e2, e) == At(e1, e)
  {
    var g := ReturnBack(cfg, e1, MAY_RETURN_ERR);
    assert ce in es + {ce};
    EdgeIsListed(cfg, ce);
    if Reaches(g, ce.src, e.dst) {
      SubgraphReaches(g, cfg.Backward(), ce.src, e.dst);
      BackwardIsForward(cfg, ce.src, e.dst);
    } else if Reaches(cfg.Forward(), e.dst, ce.src) && e != ce {
      ReachedOrMay(cfg, bbErr, free, es, ce, e0, e1, e.dst);
      AimWithMay(cfg, bbErr, free, es, ce, e);
    }
  }

  /** A new edge into a block with May: everything that leads to it becomes May. */
  lemma MaySpreads(cfg: Cfg, bbErr: BlockMap, free: set<Block>, es: set<Edge>, ce: Edge, e0: EdgeMap, e2: EdgeMap)
    requires Field(cfg, bbErr, free, es + {ce}) && Exact(cfg, bbErr, free, es, e0) && HasMay(bbErr[ce.dst])
    requires ReturnClosure(cfg, ce.src, MAY_RETURN_ERR, e0[ce := UpdateReturnFlag(At(e0, ce), bbErr[ce.dst])], e2)
    ensures Exact(cfg, bbErr, free, es + {ce}, e2)
  {
    var e1 := e0[ce := UpdateReturnFlag(At(e0, ce), bbErr[ce.dst])];
    assert ce in es + {ce};
    EdgeIsListed(cfg, ce);
    FieldIsApart(cfg, bbErr, free, es + {ce});
    forall e: Edge | cfg.HasEdge(e) && e.src in free
      ensures ReturnBits(At(e2, e)) == Aim(cfg, bbErr, es + {ce}, e)
    {
      MayReaches(cfg, bbErr, free, es, ce, e0, e1, e2, e);
      if e != ce {
        AimWithMay(cfg, bbErr, free, es, ce, e);
      }
    }
  }

  lemma NothingAbove(cfg: Cfg, b: Block, edges: EdgeMap)
    requires cfg.HasBlock(b) && cfg.preds[b] == []
    ensures ReturnClosure(cfg, b, MAY_RETURN_ERR, edges, edges)
  {
    var g := ReturnBack(cfg, edges, MAY_RETURN_ERR);
    forall e: Edge | cfg.HasEdge(e) ensures !Reaches(g, b, e.dst) {
      EdgeIsListed(cfg, e);
      if Reaches(g, b, e.dst) {
        ClosedHoldsReach(g, {b}, b, e.dst);
        assert false;
      }
    }
  }

  /** Marking one more edge into a returning block, and all that follows from it, keeps the map exact. */
  lemma OneMoreEdge(cfg: Cfg, bbErr: BlockMap, free: set<Block>, es: set<Edge>, ce: Edge, before: EdgeMap,
                    after: EdgeMap)
    requires Field(cfg, bbErr, free, es + {ce}) && TwoWay(cfg, bbErr) && Exact(cfg, bbErr, free, es, before)
    requires cfg.HasEdge(ce) && ce.dst in bbErr
    requires EdgeRuns(cfg, ce, bbErr[ce.dst], before, after)
    ensures Exact(cfg, bbErr, free, es + {ce}, after)
  {
    var flag := bbErr[ce.dst];
    var e1 := before[ce := UpdateReturnFlag(At(before, ce), flag)];
    EdgeIsListed(cfg, ce);
    if HasMay(flag) {
      RunBegins(cfg, ce, flag, e1, after);
      assert ce in es + {ce} && ReturnBits(flag) != 0;
      if cfg.preds[ce.src] == [] {
        NothingAbove(cfg, ce.src, e1);
      }
      MaySpreads(cfg, bbErr, free, es, ce, before, after);
    } else {
      MustStarts(cfg, bbErr, free, es, ce, before);
      ClimbIsExact(cfg, bbErr, free, es + {ce}, e1, {}, [(ce, flag)], after);
    }
  }
}
