/** Blocks from which every path runs into certain edges. */
module Doom {
  import opened Graphs
  import opened ControlFlow

  // ---------- the least closed set ----------

  /** Every way out of the block is one of the edges ms, or leads into x without being one of the edges es. */
  ghost predicate Cornered(cfg: Cfg, es: set<Edge>, ms: set<Edge>, x: set<Block>, b: Block) {
    && cfg.HasBlock(b) && cfg.succs[b] != []
    && forall t | t in cfg.succs[b] :: Edge(b, t) in ms || (Edge(b, t) !in es && t in x)
  }

  ghost predicate HoldsCornered(cfg: Cfg, es: set<Edge>, ms: set<Edge>, x: set<Block>) {
    forall b: Block | Cornered(cfg, es, ms, x, b) :: b in x
  }

  /** The least set that holds every block cornered by it. */
  ghost predicate Doomed(cfg: Cfg, es: set<Edge>, ms: set<Edge>, b: Block) {
    forall x: set<Block> | HoldsCornered(cfg, es, ms, x) :: b in x
  }

  lemma DoomedIn(cfg: Cfg, es: set<Edge>, ms: set<Edge>, x: set<Block>, b: Block)
    requires Doomed(cfg, es, ms, b) && HoldsCornered(cfg, es, ms, x)
    ensures b in x
  {
  }

  lemma CorneredIsDoomed(cfg: Cfg, es: set<Edge>, ms: set<Edge>, b: Block)
    requires cfg.HasBlock(b) && cfg.succs[b] != []
    requires forall t | t in cfg.succs[b] :: Edge(b, t) in ms || (Edge(b, t) !in es && Doomed(cfg, es, ms, t))
    ensures Doomed(cfg, es, ms, b)
  {
    forall x: set<Block> | HoldsCornered(cfg, es, ms, x) ensures b in x {
      assert Cornered(cfg, es, ms, x, b);
    }
  }

  // ---------- doom and reachability ----------

  /** The block leads to the source of one of the edges. */
  ghost predicate LeadsTo(cfg: Cfg, es: set<Edge>, b: Block) {
    exists e | e in es :: Reaches(cfg.Forward(), b, e.src)
  }

  lemma LeadsFirst(cfg: Cfg, es: set<Edge>, b: Block, t: Block)
    requires cfg.HasBlock(b) && t in cfg.succs[b] && LeadsTo(cfg, es, t)
    ensures LeadsTo(cfg, es, b)
  {
    var e :| e in es && Reaches(cfg.Forward(), t, e.src);
    ReachFirst(cfg.Forward(), b, t, e.src);
  }

  lemma LeadsSplits(cfg: Cfg, b: Block, z: Block) returns (t: Block)
    requires Reaches(cfg.Forward(), b, z) && b != z
    ensures cfg.HasBlock(b) && t in cfg.succs[b] && Reaches(cfg.Forward(), t, z)
  {
    var n: nat :| ReachesIn(cfg.Forward(), b, z, n);
    t :| t in cfg.Forward()(b) && ReachesIn(cfg.Forward(), t, z, n - 1);
  }

  lemma DoomedLeads(cfg: Cfg, es: set<Edge>, ms: set<Edge>, b: Block)
    requires Doomed(cfg, es, ms, b)
    ensures cfg.HasBlock(b) && LeadsTo(cfg, ms, b)
  {
    var x := set a: Block | a in cfg.Blocks() && LeadsTo(cfg, ms, a);
    forall a: Block | Cornered(cfg, es, ms, x, a) ensures a in x {
      var t := cfg.succs[a][0];
      if Edge(a, t) in ms {
        ReachSelf(cfg.Forward(), a);
      } else {
        LeadsFirst(cfg, ms, a, t);
      }
    }
    DoomedIn(cfg, es, ms, x, b);
  }

  /** No two of the edges lie on one path. */
  ghost predicate EdgesApart(cfg: Cfg, es: set<Edge>) {
    forall d, e | d in es && e in es :: !Reaches(cfg.Forward(), d.dst, e.src)
  }

  lemma CorneredAvoids(cfg: Cfg, es: set<Edge>, ms: set<Edge>, x: set<Block>, a: Block, e: Edge)
    requires Cornered(cfg, es, ms, x, a) && ms <= es && e !in ms && cfg.HasEdge(e) && EdgesApart(cfg, es + {e})
    requires forall t | t in x :: LeadsTo(cfg, ms, t) && !Reaches(cfg.Forward(), t, e.src)
    ensures !Reaches(cfg.Forward(), a, e.src)
  {
    forall d | d in ms ensures !Reaches(cfg.Forward(), d.dst, e.src) && !Reaches(cfg.Forward(), e.dst, d.src) {
      assert d in es + {e} && e in es + {e};
    }
    assert !LeadsTo(cfg, ms, e.dst);
    assert a == e.src ==> Edge(a, e.dst) == e;
    if a != e.src && Reaches(cfg.Forward(), a, e.src) {
      var t := LeadsSplits(cfg, a, e.src);
      assert false;
    }
  }

  /** A doomed block never leads to a given edge it is not doomed by. */
  lemma DoomedAvoids(cfg: Cfg, es: set<Edge>, ms: set<Edge>, b: Block, e: Edge)
    requires Doomed(cfg, es, ms, b) && ms <= es && e !in ms && cfg.HasEdge(e) && EdgesApart(cfg, es + {e})
    ensures !Reaches(cfg.Forward(), b, e.src)
  {
    var x := set a: Block | a in cfg.Blocks() && LeadsTo(cfg, ms, a) && !Reaches(cfg.Forward(), a, e.src);
    forall a: Block | Cornered(cfg, es, ms, x, a) ensures a in x {
      CorneredAvoids(cfg, es, ms, x, a, e);
      var t := cfg.succs[a][0];
      if Edge(a, t) in ms {
        ReachSelf(cfg.Forward(), a);
      } else {
        LeadsFirst(cfg, ms, a, t);
      }
    }
    DoomedIn(cfg, es, ms, x, b);
  }

  // ---------- one more edge ----------

  lemma DoomGrows(cfg: Cfg, es: set<Edge>, ms: set<Edge>, e: Edge, b: Block)
    requires Doomed(cfg, es, ms, b)
    ensures Doomed(cfg, es + {e}, ms + {e}, b)
  {
    forall x: set<Block> | HoldsCornered(cfg, es + {e}, ms + {e}, x) ensures b in x {
      forall a: Block | Cornered(cfg, es, ms, x, a) ensures a in x {
        assert Cornered(cfg, es + {e}, ms + {e}, x, a);
      }
      assert HoldsCornered(cfg, es, ms, x);
    }
  }

  /** A given edge that dooms nothing leaves the doomed blocks as they were. */
  lemma DoomStays(cfg: Cfg, es: set<Edge>, ms: set<Edge>, e: Edge, b: Block)
    requires ms <= es && e !in ms && cfg.HasEdge(e) && EdgesApart(cfg, es + {e})
    ensures Doomed(cfg, es + {e}, ms, b) <==> Doomed(cfg, es, ms, b)
  {
    if Doomed(cfg, es, ms, b) {
      DoomedAvoids(cfg, es, ms, b, e);
      forall x: set<Block> | HoldsCornered(cfg, es + {e}, ms, x) ensures b in x {
        InWider(cfg, es, ms, e, x, b);
      }
    }
    if Doomed(cfg, es + {e}, ms, b) {
      forall x: set<Block> | HoldsCornered(cfg, es, ms, x) ensures b in x {
        forall a: Block | Cornered(cfg, es + {e}, ms, x, a) ensures a in x {
          assert Cornered(cfg, es, ms, x, a);
        }
        assert HoldsCornered(cfg, es + {e}, ms, x);
      }
    }
  }

  lemma InWider(cfg: Cfg, es: set<Edge>, ms: set<Edge>, e: Edge, x: set<Block>, b: Block)
    requires Doomed(cfg, es, ms, b) && cfg.HasEdge(e) && HoldsCornered(cfg, es + {e}, ms, x)
    requires !Reaches(cfg.Forward(), b, e.src)
    ensures b in x
  {
    var y := x + set a: Block | a in cfg.Blocks() && Reaches(cfg.Forward(), a, e.src);
    forall a: Block | Cornered(cfg, es, ms, y, a) ensures a in y {
      if !Reaches(cfg.Forward(), a, e.src) {
        ReachSelf(cfg.Forward(), e.src);
        forall t | t in cfg.succs[a] && Edge(a, t) !in ms ensures Edge(a, t) !in es + {e} && t in x {
          if Reaches(cfg.Forward(), t, e.src) {
            ReachFirst(cfg.Forward(), a, t, e.src);
          }
        }
        assert Cornered(cfg, es + {e}, ms, x, a);
      }
    }
    DoomedIn(cfg, es, ms, y, b);
  }
}
