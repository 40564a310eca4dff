/** A recursive program on which the backward search misses a witness: the value was seen in another scope. */
module RepeatedValue {
  import opened Graphs
  import opened ControlFlow
  import opened Ir
  import opened Slicing
  import opened Ledger
  import opened ForwardSearch
  import opened PointSearch
  import opened BackwardSearch
  import opened UncheckStage

  // ---------- the program ----------

  /**
    Function 0 has a parameter x (value 0) and a cast w of x (value 1); function 1 is a declaration g.
    From its entry, block 1 passes w to g (value 5); block 2 switches on w (value 4) and goes on to
    block 3, where the function calls itself with w (value 2).
  */
  const NODES: seq<Ir.Node> :=
    [Param(0, false), OtherUnary(0, false), Call(3, Some(0), false, "f", [1], false), Const(OtherConst), Switch(1),
     Call(10, Some(1), false, "g", [1], false), OtherInst([]), Branch(Some(6)), Return(None), Return(None),
     Const(OtherConst), Param(1, false)]

  const CFG: Cfg := Cfg([[1, 2], [], [3], []], [[], [0], [0], [2]])

  const DATA: ProgramData :=
    Program(NODES, [[1], [2, 4, 5], [], [2], [], [], [7], [], [], [], [5], []],
            [0, 0, 3, 0, 2, 1, 0, 0, 1, 3, 0, 0], CFG,
            [[1, 6, 7], [5, 8], [4], [2, 9]], [0, 0, 0, 0],
            [Function("f", [0, 1, 2, 3], [0], false, false), Function("g", [], [11], false, false)])

  const CONTEXT :=
    Context(map[], map[], map[0 := {2}, 1 := {5}], map[2 := [0], 5 := [1]], {0}, {}, {})

  lemma OperandsOfNodes(v: Value)
    requires v < 12
    ensures NODES[v].Operands() == [[], [0], [1, 3], [], [1], [1, 10], [], [6], [], [], [], []][v]
  {
    if v < 4 {
      assert v == 0 || v == 1 || v == 2 || v == 3;
    } else if v < 8 {
      assert v == 4 || v == 5 || v == 6 || v == 7;
    } else {
      assert v == 8 || v == 9 || v == 10 || v == 11;
    }
  }

  lemma OperandsAreValid(v: Value)
    requires v < 12
    ensures !NODES[v].Phi? && forall i | 0 <= i < |NODES[v].Operands()| :: NODES[v].Operands()[i] < 12
  {
    OperandsOfNodes(v);
  }

  lemma UsersAreValid(v: Value)
    requires v < 12
    ensures DATA.parent[v] < 4 && forall i | 0 <= i < |DATA.users[v]| :: DATA.users[v][i] < 12
  {
  }

  lemma BlocksAreValid()
    ensures forall b, i | 0 <= b < 4 && 0 <= i < |DATA.body[b]| :: DATA.body[b][i] < 12
    ensures forall b | 0 <= b < 4 :: DATA.blockFunc[b] == 0
    ensures forall f, i | 0 <= f < 2 && 0 <= i < |DATA.funcs[f].blocks| :: DATA.funcs[f].blocks[i] < 4
    ensures forall f, i | 0 <= f < 2 && 0 <= i < |DATA.funcs[f].params| :: DATA.funcs[f].params[i] < 12
  {
  }

  lemma DataIsValid()
    ensures DATA.Valid()
  {
    forall v: Value | v < 12
      ensures !NODES[v].Phi? && forall i | 0 <= i < |NODES[v].Operands()| :: NODES[v].Operands()[i] < 12
      ensures DATA.parent[v] < 4 && forall i | 0 <= i < |DATA.users[v]| :: DATA.users[v][i] < 12
    {
      OperandsAreValid(v);
      UsersAreValid(v);
    }
    BlocksAreValid();
  }

  function Recursive(): Program {
    DataIsValid();
    DATA
  }

  lemma EndOfBlock(b: Block)
    requires b < 4
    ensures DATA.body[b] != [] && DATA.body[b][|DATA.body[b]| - 1] == [7, 8, 4, 9][b]
  {
  }

  /** Callers and callees are inverse, every call site is a call, and every block ends in a terminator. */
  lemma ProgramIsComplete()
    ensures ValidContext(Recursive(), CONTEXT)
    ensures forall f, call :: call in CallersOf(CONTEXT, f) <==> call in CONTEXT.callees && f in CONTEXT.callees[call]
    ensures forall b: Block | b < 4 :: EndsBlock(Recursive(), b)
  {
    assert NODES[2].Call? && NODES[5].Call?;
    forall b: Block | b < 4 ensures EndsBlock(Recursive(), b) {
      EndOfBlock(b);
    }
  }

  predicate EndsBlock(p: Program, b: Block) {
    && b < |p.body| && p.body[b] != []
    && var last := p.nodes[p.body[b][|p.body[b]| - 1]];
       last.Branch? || last.Switch? || last.Return?
  }

  // ---------- what the search meets ----------

  /** What the search looks at. */
  ghost predicate Shape(p: Program, c: Context) {
    && |p.nodes| == 12 && |p.users| == 12 && |p.parent| == 12
    && |p.funcs| == 2 && |p.cfg.succs| == 4 && |p.blockFunc| == 4
    && p.nodes[0] == Param(0, false) && p.nodes[1] == OtherUnary(0, false)
    && p.nodes[2] == Call(3, Some(0), false, "f", [1], false) && p.nodes[4] == Switch(1)
    && p.nodes[5] == Call(10, Some(1), false, "g", [1], false)
    && p.users[1] == [2, 4, 5] && p.parent[2] == 3 && p.parent[4] == 2 && p.parent[5] == 1 && p.blockFunc[3] == 0
    && p.funcs[0].params == [0] && p.funcs[1].name == "g"
    && p.cfg.succs[0] == [1, 2] && p.cfg.succs[1] == [] && p.cfg.succs[2] == [3] && p.cfg.succs[3] == []
    && c.callers == map[0 := {2}, 1 := {5}] && c.callees == map[2 := [0], 5 := [1]]
    && c.checkInsts == map[] && c.intrinsics == {}
  }

  lemma RecursiveHasShape()
    ensures Shape(Recursive(), CONTEXT)
  {
  }

  lemma NotBefore(g: Graph, b: Block)
    requires g(2) == {3} && g(3) == {} && (b == 2 || b == 3)
    ensures !Reaches(g, b, 1)
  {
    if Reaches(g, b, 1) {
      ClosedHoldsReach(g, {2, 3}, b, 1);
      assert false;
    }
  }

  lemma BlocksBeforeTheUse(p: Program, c: Context)
    requires Shape(p, c)
    ensures BlocksBefore(p.cfg, 1) - {1} == {0}
  {
    var g := p.cfg.Forward();
    assert g(0) == {1, 2} && g(2) == {3} && g(3) == {};
    ReachSelf(g, 0);
    ReachNext(g, 0, 0, 1);
    NotBefore(g, 2);
    NotBefore(g, 3);
  }

  lemma SwitchIsBeforeTheCall(p: Program, c: Context)
    requires Shape(p, c)
    ensures 2 in BlocksBefore(p.cfg, 3)
  {
    ReachSelf(p.cfg.Forward(), 2);
    ReachNext(p.cfg.Forward(), 2, 2, 3);
  }

  /** The use: w passed to g, with the blocks before that call. */
  ghost function UseOfW(p: Program): Point
    requires p.Has(5)
  {
    Point(1, UsePlace(p, 0, 5))
  }

  /** The parameter x, seen from the use. */
  ghost function XOf(p: Program): Point
    requires p.Has(5)
  {
    Point(0, UsePlace(p, 0, 5))
  }

  /** The value w at the call inside the function. */
  ghost function WAtCall(p: Program): Point {
    Point(1, Place(0, BlocksBefore(p.cfg, 3), 2))
  }

  /** From w only x, from x only w at the call inside the function. */
  lemma StepsOfTheSearch(p: Program, c: Context, z: Point)
    requires Shape(p, c)
    ensures StepsOf(p, c)(UseOfW(p), z) <==> z == XOf(p)
    ensures StepsOf(p, c)(XOf(p), z) <==> z == WAtCall(p)
  {
    assert CallersOf(c, 0) == {2};
    assert PassedArg(p, 0, 0, 2) == Some(1);
  }

  lemma UsersOfTheCast(p: Program, c: Context, m: Models, use: Key)
    requires Shape(p, c)
    ensures !CheckedAt(p, c, m, use, UseOfW(p))
    ensures CheckedAt(p, c, m, use, WAtCall(p))
  {
    BlocksBeforeTheUse(p, c);
    forall u | u in p.users[1] ensures !UserChecks(p, c, m, use, UseOfW(p).at, u) {
      assert u == 2 || u == 4 || u == 5;
    }
    SwitchIsBeforeTheCall(p, c);
    assert UserChecks(p, c, m, use, WAtCall(p).at, 4);
    assert 4 in p.users[1];
  }

  lemma WitnessOfTheSearch(p: Program, c: Context, m: Models, use: Key)
    requires Shape(p, c)
    ensures HasWitness(p, c, m, use, UseOfW(p))
  {
    StepsOfTheSearch(p, c, XOf(p));
    StepsOfTheSearch(p, c, WAtCall(p));
    LeadsSelf(StepsOf(p, c), UseOfW(p));
    LeadsOn(StepsOf(p, c), UseOfW(p), UseOfW(p), XOf(p));
    LeadsOn(StepsOf(p, c), UseOfW(p), XOf(p), WAtCall(p));
    UsersOfTheCast(p, c, m, use);
    assert HitsOf(p, c, m, use)(WAtCall(p));
  }

  lemma NothingFreshBehindTheParameter(p: Program, c: Context, m: Models, use: Key, n: nat)
    requires Shape(p, c)
    ensures !FreshIn(StepsOf(p, c), HitsOf(p, c, m, use), XOf(p), {1}, n)
  {
    assert !CheckedAt(p, c, m, use, XOf(p));
    if n > 0 {
      forall y | StepsOf(p, c)(XOf(p), y) ensures y.v in {1} + {0} {
        StepsOfTheSearch(p, c, y);
      }
    }
  }

  lemma NothingFreshFromTheUse(p: Program, c: Context, m: Models, use: Key, n: nat)
    requires Shape(p, c)
    ensures !FreshIn(StepsOf(p, c), HitsOf(p, c, m, use), UseOfW(p), {}, n)
  {
    UsersOfTheCast(p, c, m, use);
    if n > 0 {
      assert {} + {1} == {1};
      NothingFreshBehindTheParameter(p, c, m, use, n - 1);
      forall z | StepsOf(p, c)(UseOfW(p), z) ensures z == XOf(p) {
        StepsOfTheSearch(p, c, z);
      }
    }
  }

  lemma NoFreshChainOfTheSearch(p: Program, c: Context, m: Models, use: Key)
    requires Shape(p, c)
    ensures !FreshChain(StepsOf(p, c), HitsOf(p, c, m, use), UseOfW(p), {})
  {
    forall n: nat ensures !FreshIn(StepsOf(p, c), HitsOf(p, c, m, use), UseOfW(p), {}, n) {
      NothingFreshFromTheUse(p, c, m, use, n);
    }
  }

  lemma ProbesOfTheUse(p: Program, c: Context)
    requires Shape(p, c)
    ensures CallUseProbes(p, c, 0, 5) == [UseProbe(Key(OfFunc(1), 0), 1, UsePlace(p, 0, 5))]
  {
    assert CalleesOf(c, 5) == [1];
    assert SearchedCallee(p, c, 5) == Some(1);
  }

  lemma OneVisit(p: Program, b: Book, e: Event)
    requires ValidEvent(p, e)
    ensures ApplyAll(p, b, [e]) == Apply(p, b, e)
  {
    assert [e][1..] == [];
    assert ApplyAll(p, b, [e]) == ApplyAll(p, Apply(p, b, [e][0]), [e][1..]);
  }

  /** A visit of the use, once its key was checked somewhere, is counted as a missing check. */
  lemma VisitIsAMiss(p: Program, c: Context, before: Book, after: Book)
    requires Shape(p, c) && Key(OfFunc(1), 0) in before.checked
    requires UsesVisited(p, c, CallUseProbes(p, c, 0, 5), before, after)
    ensures after == Apply(p, before, Visited(Key(OfFunc(1), 0), 1, false))
  {
    ProbesOfTheUse(p, c);
    var pr, k := UseProbe(Key(OfFunc(1), 0), 1, UsePlace(p, 0, 5)), Key(OfFunc(1), 0);
    var es: seq<Event> :| UseEvents(p, c, before, [pr], es) && after == ApplyAll(p, before, es);
    assert UseEvent(p, c, before, pr, es[0]);
    NoFreshChainOfTheSearch(p, c, before.checks, k);
    assert es == [es[0]];
    OneVisit(p, before, es[0]);
  }

  /**
    The visit of the use in block 1 counts a missing check although the argument has a witness: w was
    seen in the scope of the use already when the search met it at the call inside the function.
  */
  method MissesTheWitness(before: Book) returns (book: Book)
    requires Key(OfFunc(1), 0) in before.checked
    ensures HasWitness(Recursive(), CONTEXT, before.checks, Key(OfFunc(1), 0), Point(1, UsePlace(Recursive(), 0, 5)))
    ensures book == Apply(Recursive(), before, Visited(Key(OfFunc(1), 0), 1, false))
    ensures Count(book.uncheckCount, Key(OfFunc(1), 0)) == Count(before.uncheckCount, Key(OfFunc(1), 0)) + 1
  {
    RecursiveHasShape();
    ProgramIsComplete();
    book := VisitUses(Recursive(), CONTEXT, 0, 5, before);
    VisitIsAMiss(Recursive(), CONTEXT, before, book);
    WitnessOfTheSearch(Recursive(), CONTEXT, before.checks, Key(OfFunc(1), 0));
  }
}
