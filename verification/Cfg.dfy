/** Control-flow graphs. */
module ControlFlow {
  import opened Graphs

  type Block = nat

  /** A terminator identifies its block, so a CFG edge is a pair of blocks. */
  datatype Edge = Edge(src: Block, dst: Block)

  /** A block may occur several times in a successor or predecessor list (parallel edges). */
  datatype CfgData = Cfg(succs: seq<seq<Block>>, preds: seq<seq<Block>>) {

    ghost predicate Valid() {
      && |preds| == |succs|
      && (forall b, i | 0 <= b < |succs| && 0 <= i < |succs[b]| :: succs[b][i] < |succs|)
      && (forall b, i | 0 <= b < |succs| && 0 <= i < |preds[b]| :: preds[b][i] < |succs|)
      && (forall p, t | 0 <= p < |succs| && 0 <= t < |succs| :: t in succs[p] <==> p in preds[t])
    }

    predicate HasBlock(b: Block) {
      b < |succs|
    }

    predicate HasEdge(e: Edge) {
      e.src < |succs| && e.dst in succs[e.src]
    }

    ghost function Blocks(): set<Block> {
      UpTo(|succs|)
    }

    ghost function Edges(): set<Edge>
      requires Valid()
    {
      set p, i | 0 <= p < |succs| && 0 <= i < |succs[p]| :: Edge(p, succs[p][i])
    }

    ghost function Forward(): Graph {
      (b: Block) => if b < |succs| then set s | s in succs[b] else {}
    }

    ghost function Backward(): Graph {
      (b: Block) => if b < |preds| then set p | p in preds[b] else {}
    }
  }

  type Cfg = c: CfgData | c.Valid() witness Cfg([], [])

  lemma EdgeIsListed(cfg: Cfg, e: Edge)
    ensures cfg.HasEdge(e) <==> e in cfg.Edges()
    ensures cfg.HasEdge(e) <==> cfg.HasBlock(e.dst) && e.src in cfg.preds[e.dst]
    ensures cfg.HasEdge(e) ==> cfg.HasBlock(e.src)
  {
    if cfg.HasEdge(e) {
      var i :| 0 <= i < |cfg.succs[e.src]| && cfg.succs[e.src][i] == e.dst;
      assert e == Edge(e.src, cfg.succs[e.src][i]);
    }
    if cfg.HasBlock(e.dst) && e.src in cfg.preds[e.dst] {
      var i :| 0 <= i < |cfg.preds[e.dst]| && cfg.preds[e.dst][i] == e.src;
    }
  }

  /** Walking backwards is walking forwards, read from the end. */
  lemma BackwardIsForward(cfg: Cfg, a: Block, b: Block)
    ensures Reaches(cfg.Backward(), a, b) <==> Reaches(cfg.Forward(), b, a)
  {
    forall x: Block, y: Block
      ensures y in cfg.Backward()(x) <==> x in cfg.Forward()(y)
    {
      EdgeIsListed(cfg, Edge(y, x));
    }
    ReachFlips(cfg.Backward(), cfg.Forward(), a, b);
  }
}
