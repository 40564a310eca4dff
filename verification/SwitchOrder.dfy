/** A three-way switch above two Must blocks, where the order of the two blocks decides which flags remain. */
module SwitchOrder {
  import opened Graphs
  import opened ControlFlow
  import opened Flags
  import opened EdgeFlags
  import opened ReturnMarking
  import opened BackwardMarking
  import opened EdgeSpread
  import opened ReturnRuns
  import opened EdgeMarking

  // ---------- single steps, while only Must occurs ----------

  /** Exactly the given edges are Must, and no other edge has a return flag. */
  ghost predicate MustsAre(edges: EdgeMap, ms: set<Edge>) {
    forall e: Edge :: ReturnBits(At(edges, e)) == if e in ms then MUST_RETURN_ERR else 0
  }

  ghost predicate RunsFrom(cfg: Cfg, ms: set<Edge>, edges: EdgeMap, done: set<Edge>, todo: seq<(Edge, Flag)>,
                           after: EdgeMap)
  {
    MustsAre(edges, ms) && Runs(cfg, edges, done, todo, after)
  }

  ghost function Waiting(e: Edge): (Edge, Flag) {
    (e, MUST_RETURN_ERR)
  }

  lemma Alone(x: (Edge, Flag))
    ensures [x] + [] == [x] && [] + [x] == [x]
  {
  }

  lemma Pair(x: (Edge, Flag), y: (Edge, Flag))
    ensures [x] + [y] == [x, y]
  {
  }

  lemma HasMustIn(edges: EdgeMap, ms: set<Edge>, e: Edge)
    requires MustsAre(edges, ms)
    ensures (HasMust(At(edges, e)) <==> e in ms) && !HasMay(At(edges, e))
  {
  }

  lemma OneStep(cfg: Cfg, ms: set<Edge>, edges: EdgeMap, done: set<Edge>, ce: Edge, rest: seq<(Edge, Flag)>,
                after: EdgeMap)
    returns (now: EdgeMap, next: seq<(Edge, Flag)>)
    requires RunsFrom(cfg, ms, edges, done, [Waiting(ce)] + rest, after) && ce !in done
    ensures cfg.HasBlock(ce.src) && Steps(cfg, Waiting(ce), edges, now, next)
    ensures Runs(cfg, now, done + {ce}, rest + next, after)
  {
    var todo := [Waiting(ce)] + rest;
    assert todo[1..] == rest;
    now, next :| Steps(cfg, todo[0], edges, now, next) && Runs(cfg, now, done + {ce}, todo[1..] + next, after);
  }

  /** All siblings are Must: the edges into the block become Must, and those that were not wait. */
  lemma StepClimbs(cfg: Cfg, ms: set<Edge>, edges: EdgeMap, done: set<Edge>, ce: Edge, rest: seq<(Edge, Flag)>,
                   after: EdgeMap, next: seq<(Edge, Flag)>) returns (now: EdgeMap)
    requires RunsFrom(cfg, ms, edges, done, [Waiting(ce)] + rest, after) && ce !in done
    requires cfg.HasBlock(ce.src) && cfg.preds[ce.src] != []
    requires forall t | t in cfg.succs[ce.src] && t != ce.dst :: Edge(ce.src, t) in ms
    requires next == NextOf(ms, ce.src, cfg.preds[ce.src])
    ensures RunsFrom(cfg, ms + EdgesTo(ce.src, cfg.preds[ce.src]), now, done + {ce}, rest + next, after)
  {
    var added;
    now, added := OneStep(cfg, ms, edges, done, ce, rest, after);
    forall e: Edge | cfg.HasEdge(e) && e.src == ce.src && e != ce
      ensures HasMust(At(edges, e)) && !HasMay(At(edges, e))
    {
      HasMustIn(edges, ms, e);
    }
    NextIsMustNext(edges, ms, ce.src, cfg.preds[ce.src]);
    forall e: Edge
      ensures ReturnBits(At(now, e)) == if e in ms + EdgesTo(ce.src, cfg.preds[ce.src]) then MUST_RETURN_ERR else 0
    {
      HasMustIn(edges, ms, e);
      EdgeIsListed(cfg, e);
      MustIsMarked(At(edges, e));
    }
  }

  ghost function NextOf(ms: set<Edge>, tb: Block, ps: seq<Block>): seq<(Edge, Flag)> {
    if ps == [] then []
    else
      var n := |ps| - 1;
      NextOf(ms, tb, ps[..n]) + if Edge(ps[n], tb) in ms || ps[n] in ps[..n] then [] else [Waiting(Edge(ps[n], tb))]
  }

  lemma {:induction false} NextIsMustNext(edges: EdgeMap, ms: set<Edge>, tb: Block, ps: seq<Block>)
    requires MustsAre(edges, ms)
    ensures NextOf(ms, tb, ps) == MustNext(edges, tb, ps)
  {
    if ps != [] {
      var n := |ps| - 1;
      NextIsMustNext(edges, ms, tb, ps[..n]);
      HasMustIn(edges, ms, Edge(ps[n], tb));
    }
  }

  lemma NextOfOne(ms: set<Edge>, tb: Block, p: Block)
    ensures NextOf(ms, tb, [p]) == if Edge(p, tb) in ms then [] else [Waiting(Edge(p, tb))]
    ensures EdgesTo(tb, [p]) == {Edge(p, tb)}
  {
    assert [p][..0] == [];
  }

  lemma NextOfTwo(ms: set<Edge>, tb: Block, p: Block, q: Block)
    requires p != q && Edge(p, tb) !in ms && Edge(q, tb) !in ms
    ensures NextOf(ms, tb, [p, q]) == [Waiting(Edge(p, tb)), Waiting(Edge(q, tb))]
    ensures EdgesTo(tb, [p, q]) == {Edge(p, tb), Edge(q, tb)}
  {
    assert [p, q][..1] == [p];
    NextOfOne(ms, tb, p);
  }

  /** The same for a block with one predecessor that is not Must yet. */
  lemma StepClimbsTo(cfg: Cfg, ms: set<Edge>, edges: EdgeMap, done: set<Edge>, ce: Edge, rest: seq<(Edge, Flag)>,
                     after: EdgeMap, p: Block) returns (now: EdgeMap)
    requires RunsFrom(cfg, ms, edges, done, [Waiting(ce)] + rest, after) && ce !in done
    requires cfg.HasBlock(ce.src) && cfg.preds[ce.src] == [p] && Edge(p, ce.src) !in ms
    requires forall t | t in cfg.succs[ce.src] && t != ce.dst :: Edge(ce.src, t) in ms
    ensures RunsFrom(cfg, ms + {Edge(p, ce.src)}, now, done + {ce}, rest + [Waiting(Edge(p, ce.src))], after)
  {
    NextOfOne(ms, ce.src, p);
    now := StepClimbs(cfg, ms, edges, done, ce, rest, after, [Waiting(Edge(p, ce.src))]);
  }

  /** No sibling is Must, but there is one: nothing changes. */
  lemma StepIdles(cfg: Cfg, ms: set<Edge>, edges: EdgeMap, done: set<Edge>, ce: Edge, rest: seq<(Edge, Flag)>,
                  after: EdgeMap, sibling: Block)
    requires RunsFrom(cfg, ms, edges, done, [Waiting(ce)] + rest, after) && ce !in done
    requires cfg.HasBlock(ce.src) && sibling in cfg.succs[ce.src] && sibling != ce.dst
    requires forall t | t in cfg.succs[ce.src] && t != ce.dst :: Edge(ce.src, t) !in ms
    ensures RunsFrom(cfg, ms, edges, done + {ce}, rest, after)
  {
    var now, next := OneStep(cfg, ms, edges, done, ce, rest, after);
    assert cfg.HasEdge(Edge(ce.src, sibling));
    HasMustIn(edges, ms, Edge(ce.src, sibling));
    forall e: Edge | cfg.HasEdge(e) && e.src == ce.src && e != ce ensures !HasMust(At(edges, e)) {
      HasMustIn(edges, ms, e);
    }
    assert rest + [] == rest;
  }

  /** Some siblings are Must and some are not: May spreads over all edges above. */
  lemma StepSpreads(cfg: Cfg, ms: set<Edge>, edges: EdgeMap, done: set<Edge>, ce: Edge, rest: seq<(Edge, Flag)>,
                    after: EdgeMap, must: Block, other: Block, e: Edge)
    requires RunsFrom(cfg, ms, edges, done, [Waiting(ce)] + rest, after) && ce !in done
    requires cfg.HasBlock(ce.src) && must in cfg.succs[ce.src] && other in cfg.succs[ce.src]
    requires must != ce.dst && Edge(ce.src, must) in ms && other != ce.dst && Edge(ce.src, other) !in ms
    requires cfg.HasEdge(e) && e.dst in cfg.preds[ce.src]
    ensures ReturnBits(At(after, e)) != 0
  {
    var now, next := OneStep(cfg, ms, edges, done, ce, rest, after);
    assert cfg.HasEdge(Edge(ce.src, must)) && cfg.HasEdge(Edge(ce.src, other));
    HasMustIn(edges, ms, Edge(ce.src, must));
    HasMustIn(edges, ms, Edge(ce.src, other));
    var g := ReturnBack(cfg, edges, MAY_RETURN_ERR);
    assert e.dst in g(ce.src);
    ReachSelf(g, ce.src);
    ReachNext(g, ce.src, ce.src, e.dst);
    RunKeepsMarks(cfg, now, done + {ce}, rest + next, after);
  }

  // ---------- the blocks of a run ----------

  /** Nothing happens at blocks that do not return. */
  lemma {:induction false} QuietRun(cfg: Cfg, bbErr: BlockMap, before: EdgeMap, blocks: seq<Block>, after: EdgeMap)
    requires AllRun(cfg, bbErr, before, blocks, after) && forall b | b in blocks :: !Resets(bbErr, b)
    ensures forall e: Edge :: ReturnBits(At(after, e)) == ReturnBits(At(before, e))
    decreases |blocks|
  {
    if blocks != [] {
      var n := |blocks| - 1;
      var now :| AllRun(cfg, bbErr, before, blocks[..n], now) && BlockRuns(cfg, bbErr, blocks[n], now, after);
      QuietRun(cfg, bbErr, before, blocks[..n], now);
    }
  }

  lemma LastTwo(cfg: Cfg, bbErr: BlockMap, before: EdgeMap, blocks: seq<Block>, a: Block, b: Block, after: EdgeMap)
    returns (e1: EdgeMap, e2: EdgeMap)
    requires AllRun(cfg, bbErr, before, blocks + [a, b], after)
    ensures AllRun(cfg, bbErr, before, blocks, e1)
    ensures BlockRuns(cfg, bbErr, a, e1, e2) && BlockRuns(cfg, bbErr, b, e2, after)
  {
    assert (blocks + [a, b])[..|blocks| + 1] == blocks + [a];
    assert AllRunThen(cfg, bbErr, before, blocks + [a], b, after);
    e2 :| AllRun(cfg, bbErr, before, blocks + [a], e2) && BlockRuns(cfg, bbErr, b, e2, after);
    assert (blocks + [a])[..|blocks|] == blocks;
    assert AllRunThen(cfg, bbErr, before, blocks, a, e2);
    e1 :| AllRun(cfg, bbErr, before, blocks, e1) && BlockRuns(cfg, bbErr, a, e1, e2);
  }

  /** A Must block with one predecessor and no successor runs the worklist once. */
  lemma ExitRuns(cfg: Cfg, bbErr: BlockMap, bb: Block, p: Block, before: EdgeMap, after: EdgeMap)
    returns (start: EdgeMap, high: EdgeMap)
    requires cfg.HasBlock(bb) && cfg.preds[bb] == [p] && cfg.succs[bb] == [] && BlockRuns(cfg, bbErr, bb, before, after)
    requires bb in bbErr && bbErr[bb] == MUST_RETURN_ERR
    ensures forall e: Edge ::
              ReturnBits(At(start, e)) == if e == Edge(p, bb) then MUST_RETURN_ERR else ReturnBits(At(before, e))
    ensures Runs(cfg, start, {}, [Waiting(Edge(p, bb))], high)
    ensures forall e: Edge :: At(after, e) == At(high, e)
  {
    var now, top :| SameReturns(before, now)
                    && Around(cfg, bbErr, bb, now, top, after);
    high := top;
    assert [p][..0] == [];
    assert EdgesRunThen(cfg, bb, MUST_RETURN_ERR, now, [], p, high);
    start := now[Edge(p, bb) := UpdateReturnFlag(At(now, Edge(p, bb)), MUST_RETURN_ERR)];
    MustIsMarked(At(now, Edge(p, bb)));
    forall e: Edge ensures At(after, e) == At(high, e) {
      if cfg.HasEdge(e) && Reaches(cfg.Forward(), bb, e.src) {
        ClosedHoldsReach(cfg.Forward(), {bb}, bb, e.src);
      }
    }
  }

  lemma ExitKeepsMarks(cfg: Cfg, bbErr: BlockMap, bb: Block, p: Block, before: EdgeMap, after: EdgeMap)
    requires cfg.HasBlock(bb) && cfg.preds[bb] == [p] && cfg.succs[bb] == [] && BlockRuns(cfg, bbErr, bb, before, after)
    requires bb in bbErr && bbErr[bb] == MUST_RETURN_ERR
    ensures forall e: Edge :: ReturnBits(At(before, e)) != 0 ==> ReturnBits(At(after, e)) != 0
  {
    var start, high := ExitRuns(cfg, bbErr, bb, p, before, after);
    RunKeepsMarks(cfg, start, {}, [Waiting(Edge(p, bb))], high);
  }

  // ---------- the input ----------

  /**
    From the entry block 0 through block 1, which can also end at block 3, to a switch in block 2 with
    the targets 4, 5 and 6. Blocks 4 and 5 meet in block 7 and go on to block 8; block 6 goes on to
    block 9. Blocks 8 and 9 must return an error.
  */
  const SWITCH := Cfg([[1], [2, 3], [4, 5, 6], [], [7], [7], [9], [8], [], []],
                      [[], [0], [1], [1], [2], [2], [2], [4, 5], [7], [6]])
  const MUST_FLAGS: BlockMap := map[8 := MUST_RETURN_ERR, 9 := MUST_RETURN_ERR]

  predicate Arc(p: Block, t: Block) {
    || (p == 0 && t == 1) || (p == 1 && (t == 2 || t == 3)) || (p == 2 && (t == 4 || t == 5 || t == 6))
    || ((p == 4 || p == 5) && t == 7) || (p == 7 && t == 8) || (p == 6 && t == 9)
  }

  lemma SuccsAreArcs(p: Block, t: Block)
    requires p < 10
    ensures t in SWITCH.succs[p] <==> Arc(p, t)
  {
  }

  lemma PredsAreArcs(p: Block, t: Block)
    requires t < 10
    ensures p in SWITCH.preds[t] <==> Arc(p, t)
  {
  }

  lemma SwitchIsValid()
    ensures SWITCH.Valid()
  {
    forall p, t | 0 <= p < 10 && 0 <= t < 10 ensures t in SWITCH.succs[p] <==> p in SWITCH.preds[t] {
      SuccsAreArcs(p, t);
      PredsAreArcs(p, t);
    }
    forall b, i | 0 <= b < 10 && 0 <= i < |SWITCH.succs[b]| ensures SWITCH.succs[b][i] < 10 {
      SuccsAreArcs(b, SWITCH.succs[b][i]);
    }
    forall b, i | 0 <= b < 10 && 0 <= i < |SWITCH.preds[b]| ensures SWITCH.preds[b][i] < 10 {
      PredsAreArcs(SWITCH.preds[b][i], b);
    }
  }

  function Switch(): Cfg {
    SwitchIsValid();
    SWITCH
  }

  ghost predicate IsSwitch(cfg: Cfg) {
    && |cfg.succs| == 10 && |cfg.preds| == 10
    && (forall p: Block, t: Block | p < 10 :: t in cfg.succs[p] <==> Arc(p, t))
    && cfg.preds[1] == [0] && cfg.preds[2] == [1] && cfg.preds[4] == [2] && cfg.preds[5] == [2] && cfg.preds[6] == [2]
    && cfg.preds[7] == [4, 5] && cfg.preds[8] == [7] && cfg.preds[9] == [6]
    && cfg.succs[8] == [] && cfg.succs[9] == []
  }

  ghost predicate MustBlocks(bbErr: BlockMap) {
    8 in bbErr && bbErr[8] == MUST_RETURN_ERR && 9 in bbErr && bbErr[9] == MUST_RETURN_ERR
  }

  /** From block 8, the two edges into block 7 become Must and wait. */
  lemma UpToMeeting(cfg: Cfg, ms: set<Edge>, start: EdgeMap, high: EdgeMap) returns (now: EdgeMap)
    requires IsSwitch(cfg) && RunsFrom(cfg, ms, start, {}, [Waiting(Edge(7, 8))], high)
    requires Edge(4, 7) !in ms && Edge(5, 7) !in ms
    ensures RunsFrom(cfg, ms + {Edge(4, 7), Edge(5, 7)}, now, {} + {Edge(7, 8)},
                     [Waiting(Edge(4, 7)), Waiting(Edge(5, 7))], high)
  {
    var next := [Waiting(Edge(4, 7)), Waiting(Edge(5, 7))];
    assert [Waiting(Edge(7, 8))] + [] == [Waiting(Edge(7, 8))] && [] + next == next;
    NextOfTwo(ms, 7, 4, 5);
    now := StepClimbs(cfg, ms, start, {}, Edge(7, 8), [], high, next);
  }

  /** Then the two edges from the switch towards block 7. */
  lemma UpToSwitch(cfg: Cfg, ms: set<Edge>, start: EdgeMap, done: set<Edge>, high: EdgeMap) returns (now: EdgeMap)
    requires IsSwitch(cfg) && Edge(2, 4) !in ms && Edge(2, 5) !in ms && Edge(4, 7) !in done && Edge(5, 7) !in done
    requires RunsFrom(cfg, ms, start, done, [Waiting(Edge(4, 7)), Waiting(Edge(5, 7))], high)
    ensures RunsFrom(cfg, ms + {Edge(2, 4)} + {Edge(2, 5)}, now, done + {Edge(4, 7)} + {Edge(5, 7)},
                     [Waiting(Edge(2, 4)), Waiting(Edge(2, 5))], high)
  {
    var a, b, c, d := Waiting(Edge(4, 7)), Waiting(Edge(5, 7)), Waiting(Edge(2, 4)), Waiting(Edge(2, 5));
    Pair(a, b);
    Pair(b, c);
    Pair(c, d);
    var e1 := StepClimbsTo(cfg, ms, start, done, Edge(4, 7), [b], high, 2);
    now := StepClimbsTo(cfg, ms + {Edge(2, 4)}, e1, done + {Edge(4, 7)}, Edge(5, 7), [c], high, 2);
  }

  /** From block 8 to the switch, whatever of the way from block 9 is Must already. */
  lemma EightClimbs(cfg: Cfg, bbErr: BlockMap, ms: set<Edge>, before: EdgeMap, after: EdgeMap)
    returns (start: EdgeMap, all: set<Edge>, done: set<Edge>, high: EdgeMap)
    requires IsSwitch(cfg) && 8 in bbErr && bbErr[8] == MUST_RETURN_ERR && BlockRuns(cfg, bbErr, 8, before, after)
    requires MustsAre(before, ms) && forall e | e in ms :: e == Edge(6, 9) || e == Edge(2, 6)
    ensures RunsFrom(cfg, all, start, done, [Waiting(Edge(2, 4)), Waiting(Edge(2, 5))], high)
    ensures forall e: Edge :: At(after, e) == At(high, e)
    ensures Edge(2, 4) in all && Edge(2, 5) in all && (Edge(2, 6) in all <==> Edge(2, 6) in ms)
    ensures forall e | e in all :: 2 <= e.src
    ensures forall e | e in done :: 4 <= e.src
  {
    var e0;
    e0, high := ExitRuns(cfg, bbErr, 8, 7, before, after);
    OneMoreMust(ms, Edge(7, 8), before, e0);
    WayUp(ms);
    var e1 := UpToMeeting(cfg, ms + {Edge(7, 8)}, e0, high);
    all, done := MustsBelow(ms), DoneBelow();
    start := UpToSwitch(cfg, ms + {Edge(7, 8)} + {Edge(4, 7), Edge(5, 7)}, e1, {} + {Edge(7, 8)}, high);
  }

  lemma OneMoreMust(ms: set<Edge>, ce: Edge, before: EdgeMap, after: EdgeMap)
    requires MustsAre(before, ms)
    requires forall e: Edge ::
               ReturnBits(At(after, e)) == if e == ce then MUST_RETURN_ERR else ReturnBits(At(before, e))
    ensures MustsAre(after, ms + {ce})
  {
  }

  ghost function MustsBelow(ms: set<Edge>): set<Edge> {
    ms + {Edge(7, 8)} + {Edge(4, 7), Edge(5, 7)} + {Edge(2, 4)} + {Edge(2, 5)}
  }

  ghost function DoneBelow(): set<Edge> {
    {} + {Edge(7, 8)} + {Edge(4, 7)} + {Edge(5, 7)}
  }

  lemma WayUp(ms: set<Edge>)
    requires forall e | e in ms :: e == Edge(6, 9) || e == Edge(2, 6)
    ensures var m := ms + {Edge(7, 8)}; Edge(4, 7) !in m && Edge(5, 7) !in m
    ensures var m := ms + {Edge(7, 8)} + {Edge(4, 7), Edge(5, 7)}; Edge(2, 4) !in m && Edge(2, 5) !in m
    ensures var all := MustsBelow(ms);
            Edge(2, 4) in all && Edge(2, 5) in all && (Edge(2, 6) in all <==> Edge(2, 6) in ms)
    ensures forall e | e in MustsBelow(ms) :: 2 <= e.src
    ensures forall e | e in DoneBelow() :: 4 <= e.src
  {
  }

  // ---------- block 8 first ----------

  lemma EightFirst(cfg: Cfg, bbErr: BlockMap, before: EdgeMap, now: EdgeMap, after: EdgeMap)
    requires IsSwitch(cfg) && MustBlocks(bbErr) && MustsAre(before, {})
    requires BlockRuns(cfg, bbErr, 8, before, now) && BlockRuns(cfg, bbErr, 9, now, after)
    ensures ReturnBits(At(after, Edge(0, 1))) != 0
  {
    var start, all, done, high := EightClimbs(cfg, bbErr, {}, before, now);
    var c, d := Waiting(Edge(2, 4)), Waiting(Edge(2, 5));
    Pair(c, d);
    StepSpreads(cfg, all, start, done, Edge(2, 4), [d], high, 5, 6, Edge(0, 1));
    ExitKeepsMarks(cfg, bbErr, 9, 6, now, after);
  }

  // ---------- block 9 first ----------

  /** Block 9 marks its side of the switch and stops there. */
  lemma NineAlone(cfg: Cfg, bbErr: BlockMap, before: EdgeMap, after: EdgeMap)
    requires IsSwitch(cfg) && MustBlocks(bbErr) && MustsAre(before, {}) && BlockRuns(cfg, bbErr, 9, before, after)
    ensures MustsAre(after, {Edge(6, 9)} + {Edge(2, 6)})
  {
    var start, high := ExitRuns(cfg, bbErr, 9, 6, before, after);
    OneMoreMust({}, Edge(6, 9), before, start);
    assert {} + {Edge(6, 9)} == {Edge(6, 9)};
    NineClimbs(cfg, start, high);
  }

  lemma NineClimbs(cfg: Cfg, start: EdgeMap, high: EdgeMap)
    requires IsSwitch(cfg) && RunsFrom(cfg, {Edge(6, 9)}, start, {}, [Waiting(Edge(6, 9))], high)
    ensures MustsAre(high, {Edge(6, 9)} + {Edge(2, 6)})
  {
    var a, b := Waiting(Edge(6, 9)), Waiting(Edge(2, 6));
    Alone(a);
    Alone(b);
    var e1 := StepClimbsTo(cfg, {Edge(6, 9)}, start, {}, Edge(6, 9), [], high, 2);
    StepIdles(cfg, {Edge(6, 9)} + {Edge(2, 6)}, e1, {} + {Edge(6, 9)}, Edge(2, 6), [], high, 4);
  }

  /** With every way out of the switch Must, the edge into it becomes Must. */
  lemma OverSwitch(cfg: Cfg, ms: set<Edge>, done: set<Edge>, start: EdgeMap, high: EdgeMap) returns (now: EdgeMap)
    requires IsSwitch(cfg) && Edge(2, 4) in ms && Edge(2, 5) in ms && Edge(2, 6) in ms && Edge(1, 2) !in ms
    requires Edge(2, 4) !in done && Edge(2, 5) !in done
    requires RunsFrom(cfg, ms, start, done, [Waiting(Edge(2, 4)), Waiting(Edge(2, 5))], high)
    ensures RunsFrom(cfg, ms + {Edge(1, 2)}, now, done + {Edge(2, 4)} + {Edge(2, 5)}, [Waiting(Edge(1, 2))], high)
  {
    var c, d, e := Waiting(Edge(2, 4)), Waiting(Edge(2, 5)), Waiting(Edge(1, 2));
    Pair(c, d);
    Pair(d, e);
    Alone(e);
    var e1 := StepClimbsTo(cfg, ms, start, done, Edge(2, 4), [d], high, 1);
    var m1 := ms + {Edge(1, 2)};
    NextOfOne(m1, 2, 1);
    now := StepClimbs(cfg, m1, e1, done + {Edge(2, 4)}, Edge(2, 5), [e], high, []);
    assert m1 + {Edge(1, 2)} == m1;
  }

  /** The other way out of block 1 is not marked, so the climb ends there. */
  lemma StopsBelowEntry(cfg: Cfg, ms: set<Edge>, done: set<Edge>, start: EdgeMap, high: EdgeMap)
    requires IsSwitch(cfg) && Edge(1, 3) !in ms && Edge(1, 2) !in done
    requires RunsFrom(cfg, ms, start, done, [Waiting(Edge(1, 2))], high)
    ensures MustsAre(high, ms)
  {
    Alone(Waiting(Edge(1, 2)));
    StepIdles(cfg, ms, start, done, Edge(1, 2), [], high, 3);
  }

  lemma NineFirst(cfg: Cfg, bbErr: BlockMap, before: EdgeMap, now: EdgeMap, after: EdgeMap)
    requires IsSwitch(cfg) && MustBlocks(bbErr) && MustsAre(before, {})
    requires BlockRuns(cfg, bbErr, 9, before, now) && BlockRuns(cfg, bbErr, 8, now, after)
    ensures ReturnBits(At(after, Edge(0, 1))) == 0
  {
    NineAlone(cfg, bbErr, before, now);
    EightSecond(cfg, bbErr, now, after);
  }

  lemma EightSecond(cfg: Cfg, bbErr: BlockMap, now: EdgeMap, after: EdgeMap)
    requires IsSwitch(cfg) && MustBlocks(bbErr) && MustsAre(now, {Edge(6, 9)} + {Edge(2, 6)})
    requires BlockRuns(cfg, bbErr, 8, now, after)
    ensures ReturnBits(At(after, Edge(0, 1))) == 0
  {
    var start, all, done, high := EightClimbs(cfg, bbErr, {Edge(6, 9)} + {Edge(2, 6)}, now, after);
    OverAndStop(cfg, all, done, start, high);
  }

  lemma OverAndStop(cfg: Cfg, ms: set<Edge>, done: set<Edge>, start: EdgeMap, high: EdgeMap)
    requires IsSwitch(cfg) && Edge(2, 4) in ms && Edge(2, 5) in ms && Edge(2, 6) in ms
    requires (forall e | e in ms :: 2 <= e.src) && forall e | e in done :: 4 <= e.src
    requires RunsFrom(cfg, ms, start, done, [Waiting(Edge(2, 4)), Waiting(Edge(2, 5))], high)
    ensures ReturnBits(At(high, Edge(0, 1))) == 0
  {
    var top := OverSwitch(cfg, ms, done, start, high);
    StopsBelowEntry(cfg, ms + {Edge(1, 2)}, done + {Edge(2, 4)} + {Edge(2, 5)}, top, high);
    assert Edge(0, 1) !in ms + {Edge(1, 2)};
  }

  // ---------- both orders ----------

  lemma SwitchShape()
    ensures IsSwitch(Switch())
  {
    forall p: Block, t: Block | p < 10 ensures t in SWITCH.succs[p] <==> Arc(p, t) {
      SuccsAreArcs(p, t);
    }
  }

  const EIGHT_FIRST: seq<Block> := [0, 1, 2, 3, 4, 5, 6, 7] + [8, 9]
  const NINE_FIRST: seq<Block> := [0, 1, 2, 3, 4, 5, 6, 7] + [9, 8]

  lemma OrdersAreListings()
    ensures Items(EIGHT_FIRST) <= Switch().Blocks() && Items(NINE_FIRST) <= Switch().Blocks()
    ensures multiset(EIGHT_FIRST) == multiset(NINE_FIRST)
    ensures Switch().preds[EIGHT_FIRST[0]] == [] && Switch().preds[NINE_FIRST[0]] == []
  {
    assert EIGHT_FIRST[0] == 0 && NINE_FIRST[0] == 0;
  }

  lemma OthersAreQuiet(cfg: Cfg, blocks: seq<Block>, edges: EdgeMap)
    requires blocks == [0, 1, 2, 3, 4, 5, 6, 7] && AllRun(cfg, MUST_FLAGS, map[], blocks, edges)
    ensures MustsAre(edges, {})
  {
    forall b | b in blocks ensures !Resets(MUST_FLAGS, b) {
      assert b != 8 && b != 9;
    }
    QuietRun(cfg, MUST_FLAGS, map[], blocks, edges);
  }

  lemma EightOrder(after: EdgeMap)
    requires AllRun(Switch(), MUST_FLAGS, map[], EIGHT_FIRST, after)
    ensures ReturnBits(At(after, Edge(0, 1))) != 0
  {
    SwitchShape();
    var e1, e2 := LastTwo(Switch(), MUST_FLAGS, map[], [0, 1, 2, 3, 4, 5, 6, 7], 8, 9, after);
    OthersAreQuiet(Switch(), [0, 1, 2, 3, 4, 5, 6, 7], e1);
    EightFirst(Switch(), MUST_FLAGS, e1, e2, after);
  }

  lemma NineOrder(after: EdgeMap)
    requires AllRun(Switch(), MUST_FLAGS, map[], NINE_FIRST, after)
    ensures ReturnBits(At(after, Edge(0, 1))) == 0
  {
    SwitchShape();
    var e1, e2 := LastTwo(Switch(), MUST_FLAGS, map[], [0, 1, 2, 3, 4, 5, 6, 7], 9, 8, after);
    OthersAreQuiet(Switch(), [0, 1, 2, 3, 4, 5, 6, 7], e1);
    NineFirst(Switch(), MUST_FLAGS, e1, e2, after);
  }

  /** The Must blocks are exits, so neither leads to a returning block. */
  lemma ExitsAreApart()
    ensures Isolated(Switch(), MUST_FLAGS)
  {
    SwitchShape();
    var cfg := Switch();
    forall e: Edge, b: Block | cfg.HasEdge(e) && Resets(MUST_FLAGS, b) ensures !Reaches(cfg.Forward(), b, e.src) {
      assert b == 8 || b == 9;
      if Reaches(cfg.Forward(), b, e.src) {
        ClosedHoldsReach(cfg.Forward(), {b}, b, e.src);
        assert false;
      }
    }
  }

  /**
    Two orders of the same blocks, both from the entry block: in one the edge from 0 to 1 ends with a
    return flag, in the other without, although no returning block leads to a returning block.
  */
  method SwitchOrderMatters() returns (eight: EdgeMap, nine: EdgeMap)
    ensures multiset(EIGHT_FIRST) == multiset(NINE_FIRST)
    ensures Switch().preds[EIGHT_FIRST[0]] == [] && Switch().preds[NINE_FIRST[0]] == []
    ensures Isolated(Switch(), MUST_FLAGS)
    ensures AllRun(Switch(), MUST_FLAGS, map[], EIGHT_FIRST, eight) && ReturnBits(At(eight, Edge(0, 1))) != 0
    ensures AllRun(Switch(), MUST_FLAGS, map[], NINE_FIRST, nine) && ReturnBits(At(nine, Edge(0, 1))) == 0
  {
    OrdersAreListings();
    var any;
    any, eight := MarkAllEdgesErrFlag(Switch(), EIGHT_FIRST, MUST_FLAGS, map[]);
    any, nine := MarkAllEdgesErrFlag(Switch(), NINE_FIRST, MUST_FLAGS, map[]);
    EightOrder(eight);
    NineOrder(nine);
    ExitsAreApart();
  }
}
