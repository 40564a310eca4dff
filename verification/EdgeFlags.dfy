/** The edge map of the marking phase. */
module EdgeFlags {
  import opened ControlFlow
  import opened Flags

  /** An edge without an entry has flag 0. */
  type EdgeMap = map<Edge, Flag>

  type BlockMap = map<Block, Flag>

  function At(edges: EdgeMap, e: Edge): Flag {
    if e in edges then edges[e] else 0
  }

  ghost predicate AllMarks(edges: EdgeMap) {
    forall e: Edge :: IsMark(At(edges, e))
  }

  ghost predicate AllBlockMarks(bbErr: BlockMap) {
    forall b | b in bbErr :: IsMark(bbErr[b])
  }

  /** A block that returns an error itself stops the tracking. */
  predicate Resets(bbErr: BlockMap, b: Block) {
    b in bbErr && ReturnBits(bbErr[b]) != 0
  }

  /** No edge carries a return flag. */
  ghost predicate NoReturns(edges: EdgeMap) {
    forall e: Edge :: ReturnBits(At(edges, e)) == 0
  }

  ghost function Returners(bbErr: BlockMap, bs: set<Block>): set<Block> {
    set b | b in bs && Resets(bbErr, b)
  }

  /** The edges that end in one of the given blocks. */
  ghost function EdgesInto(cfg: Cfg, bs: set<Block>): set<Edge>
  {
    set e | e in cfg.Edges() && e.dst in bs
  }

  /** The edges that leave one of the given blocks. */
  ghost function EdgesOutOf(cfg: Cfg, bs: set<Block>): set<Edge>
  {
    set e | e in cfg.Edges() && e.src in bs
  }

  /** The edges on a worklist of edges with flags. */
  ghost function Waits(waiting: set<(Edge, Flag)>): set<Edge> {
    set x | x in waiting :: x.0
  }
}
