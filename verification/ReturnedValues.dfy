/** What returned values say about blocks. */
module ReturnedValues {
  import opened Graphs
  import opened ControlFlow
  import opened Flags
  import opened EdgeFlags
  import opened BlockMarks
  import opened Ir
  import opened ErrorFlow
  import opened ValueFlow
  import opened ReturnFlow
  import opened SecurityChecks
  import opened SecurityPass

  // ---------- error codes as ranges ----------

  /** The low 32 bits lie in the page of encoded error numbers. */
  predicate InErrnoPage(x: int) {
    0x4cedb000 <= x % 0x1_0000_0000 <= 0x4cedbfff
  }

  predicate IsErrorNumber(x: int) {
    -4096 < x < 0 || InErrnoPage(x) || InErrnoPage(-x)
  }

  lemma ErrnoIsPage(x: int)
    ensures IsErrnoCode(x) <==> InErrnoPage(x)
  {
    var y := x % 0x1_0000_0000;
    assert 0x1000 * (y / 0x1000) <= y < 0x1000 * (y / 0x1000) + 0x1000;
  }

  lemma SmallIsNoCode(x: int)
    requires -4096 < x < 4096
    ensures !InErrnoPage(x) && (IsErrorNumber(x) <==> x < 0)
  {
    assert x >= 0 ==> x % 0x1_0000_0000 == x;
    assert x < 0 ==> x % 0x1_0000_0000 == x + 0x1_0000_0000;
    assert -x >= 0 ==> -x % 0x1_0000_0000 == -x;
    assert -x < 0 ==> -x % 0x1_0000_0000 == -x + 0x1_0000_0000;
  }

  /** A constant of a function with or without a pointer result is an error code. */
  predicate IsErrorCode(c: Constant, pointer: bool) {
    || (c.IntConst? && IsErrorNumber(c.value))
    || (c.NullConst? && pointer)
    || (c.ExprConst? && exists o | o in c.operands :: IsErrorCode(o, pointer))
  }

  lemma {:induction false} ErrnoIsErrorCode(c: Constant, pointer: bool)
    ensures IsErrno(c, pointer) <==> IsErrorCode(c, pointer)
    decreases c
  {
    match c {
      case IntConst(x) =>
        ErrnoIsPage(x);
        ErrnoIsPage(-x);
      case ExprConst(ops) =>
        forall o | o in ops ensures IsErrno(o, pointer) <==> IsErrorCode(o, pointer) {
          ErrnoIsErrorCode(o, pointer);
        }
      case _ =>
    }
  }

  ghost predicate IsError(p: Program, f: Func, v: Value) {
    p.Has(v) && f < |p.funcs| && p.nodes[v].Const? && IsErrorCode(p.nodes[v].c, p.funcs[f].returnsPointer)
  }

  // ---------- where a value comes from ----------

  /** Instruction u stores w where v loads from. */
  predicate StoredFor(p: Program, u: Value, w: Value, v: Value) {
    && p.Has(u) && p.Has(v) && p.nodes[v].Load? && p.Has(p.nodes[v].ptr)
    && u in p.users[p.nodes[v].ptr] && p.nodes[u] == Store(w, p.nodes[v].ptr)
  }

  /** The single operand whose value v passes on. */
  predicate PassesOn(p: Program, w: Value, v: Value) {
    && p.Has(v)
    && (|| (p.nodes[v].Gep? && p.nodes[v].ptr == w)
        || (p.nodes[v].Alloca? && p.nodes[v].size == w)
        || (p.nodes[v].OtherUnary? && p.nodes[v].operand == w))
  }

  /** In block b the value of v is that of w. */
  ghost predicate ComesFrom(p: Program, w: Value, b: Block, v: Value) {
    || (exists u: Value :: StoredFor(p, u, w, v) && b == p.parent[u])
    || (p.Has(v) && p.nodes[v].Phi? && Incoming(w, b) in p.nodes[v].incoming)
    || (PassesOn(p, w, v) && b == p.parent[v])
  }

  predicate IsArm(p: Program, w: Value, v: Value) {
    p.Has(v) && p.nodes[v].Select? && (w == p.nodes[v].tval || w == p.nodes[v].fval)
  }

  /** A direct call of a function that returns one of its arguments, given that argument. */
  predicate IsCopy(p: Program, t: Tables, w: Value, v: Value) {
    && p.Has(v) && p.nodes[v].Call? && p.nodes[v].direct.Some?
    && p.nodes[v].name != "PTR_ERR" && p.nodes[v].name != "ERR_PTR"
    && p.nodes[v].name in t.copyFuncs && t.copyFuncs[p.nodes[v].name].1 == -1
    && var k := t.copyFuncs[p.nodes[v].name].0; 0 <= k < |p.nodes[v].args| && p.nodes[v].args[k] == w
  }

  /** Looking at v leads on to w. */
  ghost predicate LooksAt(p: Program, t: Tables, f: Func, w: Value, v: Value) {
    || (p.Has(w) && !p.nodes[w].IsConstant() && (IsArm(p, w, v) || exists b: Block :: ComesFrom(p, w, b, v)))
    || (IsCopy(p, t, w, v) && !IsError(p, f, w))
  }

  // ---------- what a value says about blocks ----------

  ghost predicate Gives(p: Program, f: Func, c: Value, b: Block, m: Mark) {
    && p.Has(c) && p.nodes[c].IsConstant()
    && m == Mark(b, if IsError(p, f, c) then MUST_RETURN_ERR else MAY_RETURN_ERR)
  }

  /** A constant that v takes in a block: error codes must be returned there, others may leave an error out. */
  ghost predicate ConstantMark(p: Program, f: Func, v: Value, m: Mark) {
    exists c: Value :: ComesFrom(p, c, m.block, v) && Gives(p, f, c, m.block, m)
  }

  /** A select of two error codes must return one, a select of one error code may. */
  ghost predicate SelectMark(p: Program, f: Func, v: Value, m: Mark) {
    && p.Has(v) && p.nodes[v].Select? && m.block == p.parent[v]
    && (IsError(p, f, p.nodes[v].tval) || IsError(p, f, p.nodes[v].fval))
    && m.flag == if IsError(p, f, p.nodes[v].tval) && IsError(p, f, p.nodes[v].fval)
                 then MUST_RETURN_ERR else MAY_RETURN_ERR
  }

  /** Error-pointer helpers and copied error codes must return an error. */
  ghost predicate HelperMark(p: Program, t: Tables, f: Func, v: Value, m: Mark) {
    && p.Has(v) && p.nodes[v].Call? && p.nodes[v].direct.Some? && m == Mark(p.parent[v], MUST_RETURN_ERR)
    && (|| p.nodes[v].name == "PTR_ERR"
        || p.nodes[v].name == "ERR_PTR"
        || exists w: Value :: IsCopy(p, t, w, v) && IsError(p, f, w))
  }

  /** A resolved call of another function may return an error; checked at once, its first way out must. */
  ghost predicate CalleeMark(p: Program, t: Tables, f: Func, v: Value, m: Mark) {
    && p.Has(v) && p.nodes[v].Call? && p.nodes[v].direct.Some? && v in t.firstCallee
    && p.nodes[v].name != "PTR_ERR" && p.nodes[v].name != "ERR_PTR" && (forall w: Value :: !IsCopy(p, t, w, v))
    && (|| m == Mark(p.parent[v], MAY_RETURN_ERR)
        || (MayReturn(p, t, t.firstCallee[v]) && CheckedAtOnce(p, v, p.parent[v]) &&
            m == Mark(p.cfg.succs[p.parent[v]][0], MUST_RETURN_ERR)))
  }

  ghost predicate ArithmeticMark(p: Program, v: Value, m: Mark) {
    p.Has(v) && p.nodes[v].Binary? && m == Mark(p.parent[v], MAY_RETURN_ERR)
  }

  ghost predicate Says(p: Program, t: Tables, f: Func, v: Value, m: Mark) {
    || ConstantMark(p, f, v, m) || SelectMark(p, f, v, m)
    || HelperMark(p, t, f, v, m) || CalleeMark(p, t, f, v, m) || ArithmeticMark(p, v, m)
  }

  // ---------- the value flow does exactly this ----------

  lemma IsErrorMeans(p: Program, f: Func, v: Value)
    requires p.Has(v) && f < |p.funcs|
    ensures IsValueErrno(p, f, v) <==> IsError(p, f, v)
  {
    if p.nodes[v].Const? {
      ErrnoIsErrorCode(p.nodes[v].c, p.funcs[f].returnsPointer);
    }
  }

  lemma {:induction false} UnionHolds(vs: seq<Visit>, m: Mark, w: Value)
    ensures m in Union(vs).marks <==> exists i :: 0 <= i < |vs| && m in vs[i].marks
    ensures w in Union(vs).next <==> exists i :: 0 <= i < |vs| && w in vs[i].next
    decreases |vs|
  {
    if vs != [] {
      UnionHolds(vs[1..], m, w);
      if i :| 0 <= i < |vs| && m in vs[i].marks {
        assert i > 0 ==> vs[1..][i - 1] == vs[i];
      }
      if i :| 0 <= i < |vs| && w in vs[i].next {
        assert i > 0 ==> vs[1..][i - 1] == vs[i];
      }
    }
  }

  lemma OperandMeans(p: Program, f: Func, v: Value, b: Block, m: Mark, w: Value)
    requires p.Has(v) && f < |p.funcs|
    ensures m in OperandVisit(p, f, v, b).marks <==> Gives(p, f, v, b, m)
    ensures w in OperandVisit(p, f, v, b).next <==> w == v && !p.nodes[v].IsConstant()
  {
    IsErrorMeans(p, f, v);
  }

  lemma StoreMeans(p: Program, f: Func, v: Value, u: Value, m: Mark, w: Value)
    requires p.Has(v) && p.nodes[v].Load? && f < |p.funcs| && p.Has(p.nodes[v].ptr) && u in p.users[p.nodes[v].ptr]
    ensures m in StoreVisit(p, f, p.nodes[v].ptr, u).marks <==>
            exists c: Value :: StoredFor(p, u, c, v) && Gives(p, f, c, p.parent[u], m)
    ensures w in StoreVisit(p, f, p.nodes[v].ptr, u).next <==>
            StoredFor(p, u, w, v) && p.Has(w) && !p.nodes[w].IsConstant()
  {
    if StoresTo(p, u, p.nodes[v].ptr) {
      StoredExists(p, u, p.nodes[v].ptr);
      OperandMeans(p, f, p.nodes[u].val, p.parent[u], m, w);
      assert StoredFor(p, u, p.nodes[u].val, v);
    }
  }

  lemma LoadMarks(p: Program, f: Func, v: Value, m: Mark)
    requires p.Has(v) && p.nodes[v].Load? && f < |p.funcs| && p.Has(p.nodes[v].ptr)
    ensures m in Union(StoreVisits(p, f, p.nodes[v].ptr, p.users[p.nodes[v].ptr])).marks <==> ConstantMark(p, f, v, m)
  {
    var us := p.users[p.nodes[v].ptr];
    var vs := StoreVisits(p, f, p.nodes[v].ptr, us);
    UnionHolds(vs, m, v);
    if ConstantMark(p, f, v, m) {
      var c: Value :| ComesFrom(p, c, m.block, v) && Gives(p, f, c, m.block, m);
      var u: Value :| StoredFor(p, u, c, v) && m.block == p.parent[u];
      var i :| 0 <= i < |us| && us[i] == u;
      StoreMeans(p, f, v, u, m, v);
      assert m in vs[i].marks;
    }
    if m in Union(vs).marks {
      var i :| 0 <= i < |vs| && m in vs[i].marks;
      StoreMeans(p, f, v, us[i], m, v);
      var c: Value :| StoredFor(p, us[i], c, v) && Gives(p, f, c, p.parent[us[i]], m);
      assert ComesFrom(p, c, m.block, v);
    }
  }

  lemma LoadNext(p: Program, f: Func, v: Value, w: Value)
    requires p.Has(v) && p.nodes[v].Load? && f < |p.funcs| && p.Has(p.nodes[v].ptr)
    ensures w in Union(StoreVisits(p, f, p.nodes[v].ptr, p.users[p.nodes[v].ptr])).next <==>
            p.Has(w) && !p.nodes[w].IsConstant() && exists b: Block :: ComesFrom(p, w, b, v)
  {
    var us := p.users[p.nodes[v].ptr];
    var vs := StoreVisits(p, f, p.nodes[v].ptr, us);
    var m := Mark(0, 0);
    UnionHolds(vs, m, w);
    forall i | 0 <= i < |us|
      ensures w in vs[i].next <==> StoredFor(p, us[i], w, v) && p.Has(w) && !p.nodes[w].IsConstant()
    {
      StoreMeans(p, f, v, us[i], m, w);
    }
    if b: Block :| ComesFrom(p, w, b, v) {
      var u: Value :| StoredFor(p, u, w, v) && b == p.parent[u];
      var i :| 0 <= i < |us| && us[i] == u;
    }
    if w in Union(vs).next {
      var i :| 0 <= i < |vs| && w in vs[i].next;
      assert ComesFrom(p, w, p.parent[us[i]], v);
    }
  }

  lemma PhiMarks(p: Program, f: Func, v: Value, m: Mark)
    requires p.Has(v) && p.nodes[v].Phi? && f < |p.funcs|
    ensures m in Union(IncomingVisits(p, f, p.nodes[v].incoming)).marks <==> ConstantMark(p, f, v, m)
  {
    var inc := p.nodes[v].incoming;
    var vs := IncomingVisits(p, f, inc);
    UnionHolds(vs, m, v);
    forall i | 0 <= i < |inc| ensures m in vs[i].marks <==> Gives(p, f, inc[i].value, inc[i].block, m) {
      OperandMeans(p, f, inc[i].value, inc[i].block, m, v);
    }
    if ConstantMark(p, f, v, m) {
      var c: Value :| ComesFrom(p, c, m.block, v) && Gives(p, f, c, m.block, m);
      var i :| 0 <= i < |inc| && inc[i] == Incoming(c, m.block);
      assert m in vs[i].marks;
    }
    if m in Union(vs).marks {
      var i :| 0 <= i < |vs| && m in vs[i].marks;
      assert inc[i] == Incoming(inc[i].value, inc[i].block);
      assert ComesFrom(p, inc[i].value, m.block, v);
    }
  }

  lemma PhiNext(p: Program, f: Func, v: Value, w: Value)
    requires p.Has(v) && p.nodes[v].Phi? && f < |p.funcs|
    ensures w in Union(IncomingVisits(p, f, p.nodes[v].incoming)).next <==>
            p.Has(w) && !p.nodes[w].IsConstant() && exists b: Block :: ComesFrom(p, w, b, v)
  {
    var inc := p.nodes[v].incoming;
    var vs := IncomingVisits(p, f, inc);
    UnionHolds(vs, Mark(0, 0), w);
    forall i | 0 <= i < |inc| ensures w in vs[i].next <==> w == inc[i].value && !p.nodes[w].IsConstant() {
      OperandMeans(p, f, inc[i].value, inc[i].block, Mark(0, 0), w);
    }
    if b: Block :| p.Has(w) && !p.nodes[w].IsConstant() && ComesFrom(p, w, b, v) {
      var i :| 0 <= i < |inc| && inc[i] == Incoming(w, b);
      assert w in vs[i].next;
    }
    if w in Union(vs).next {
      var i :| 0 <= i < |vs| && w in vs[i].next;
      assert inc[i] == Incoming(inc[i].value, inc[i].block);
      assert ComesFrom(p, w, inc[i].block, v);
    }
  }

  lemma PassMeans(p: Program, f: Func, v: Value, o: Value, m: Mark, w: Value)
    requires p.Has(v) && (p.nodes[v].Gep? || p.nodes[v].Alloca? || p.nodes[v].OtherUnary?) && f < |p.funcs|
    requires p.Has(o) && PassesOn(p, o, v)
    ensures var r := OperandVisit(p, f, o, p.parent[v]);
            && (m in r.marks <==> ConstantMark(p, f, v, m))
            && (w in r.next <==> p.Has(w) && !p.nodes[w].IsConstant() && exists b: Block :: ComesFrom(p, w, b, v))
  {
    OperandMeans(p, f, o, p.parent[v], m, w);
    assert ComesFrom(p, o, p.parent[v], v);
    assert forall c: Value, b: Block :: ComesFrom(p, c, b, v) <==> c == o && b == p.parent[v];
  }

  lemma SelectMeans(p: Program, f: Func, v: Value, m: Mark, w: Value)
    requires p.Has(v) && p.nodes[v].Select? && f < |p.funcs| && p.Has(p.nodes[v].tval) && p.Has(p.nodes[v].fval)
    ensures var r := SelectVisit(p, f, p.nodes[v].tval, p.nodes[v].fval, p.parent[v]);
            && (m in r.marks <==> SelectMark(p, f, v, m))
            && (w in r.next <==> p.Has(w) && !p.nodes[w].IsConstant() && IsArm(p, w, v))
            && (r.errSelect <==> (IsError(p, f, p.nodes[v].tval) <==> !IsError(p, f, p.nodes[v].fval)))
  {
    IsErrorMeans(p, f, p.nodes[v].tval);
    IsErrorMeans(p, f, p.nodes[v].fval);
  }

  lemma CallMeans(p: Program, t: Tables, f: Func, v: Value, m: Mark, w: Value)
    requires p.Has(v) && p.nodes[v].Call? && f < |p.funcs|
    ensures m in CallVisit(p, t, f, v).marks <==> HelperMark(p, t, f, v, m) || CalleeMark(p, t, f, v, m)
    ensures w in CallVisit(p, t, f, v).next <==> IsCopy(p, t, w, v) && !IsError(p, f, w)
  {
    var n := p.nodes[v];
    var arg := CopiedArg(t, n.name, n.args);
    if arg.Some? && p.Has(arg.value) {
      IsErrorMeans(p, f, arg.value);
    }
    assert forall c: Value :: IsCopy(p, t, c, v) ==> arg == Some(c);
    if arg.Some? && n.direct.Some? && n.name != "PTR_ERR" && n.name != "ERR_PTR" {
      assert IsCopy(p, t, arg.value, v);
    }
  }

  /** The marks of a value are exactly those it says. */
  lemma VisitSays(p: Program, t: Tables, f: Func, v: Value, m: Mark)
    requires f < |p.funcs|
    ensures m in VisitOf(p, t, f, v).marks <==> Says(p, t, f, v, m)
  {
    if p.Has(v) {
      match p.nodes[v] {
        case Load(ptr) =>
          OperandsExist(p, v, p.nodes[v].Operands()[0]);
          LoadMarks(p, f, v, m);
        case Phi(_) =>
          PhiMarks(p, f, v, m);
        case Select(_, _, _) =>
          OperandsExist(p, v, p.nodes[v].Operands()[1]);
          OperandsExist(p, v, p.nodes[v].Operands()[2]);
          SelectMeans(p, f, v, m, v);
        case Gep(o, _) =>
          OperandsExist(p, v, p.nodes[v].Operands()[0]);
          PassMeans(p, f, v, o, m, v);
        case Alloca(o) =>
          OperandsExist(p, v, p.nodes[v].Operands()[0]);
          PassMeans(p, f, v, o, m, v);
        case OtherUnary(o, _) =>
          OperandsExist(p, v, p.nodes[v].Operands()[0]);
          PassMeans(p, f, v, o, m, v);
        case Call(_, _, _, _, _, _) =>
          CallMeans(p, t, f, v, m, v);
        case _ =>
      }
    }
  }

  /** The values looked at next are exactly those v comes from. */
  lemma VisitLooks(p: Program, t: Tables, f: Func, v: Value, w: Value)
    requires f < |p.funcs|
    ensures w in VisitOf(p, t, f, v).next <==> LooksAt(p, t, f, w, v)
  {
    var m := Mark(0, 0);
    if p.Has(v) {
      match p.nodes[v] {
        case Load(ptr) =>
          OperandsExist(p, v, p.nodes[v].Operands()[0]);
          LoadNext(p, f, v, w);
        case Phi(_) =>
          PhiNext(p, f, v, w);
        case Select(_, _, _) =>
          OperandsExist(p, v, p.nodes[v].Operands()[1]);
          OperandsExist(p, v, p.nodes[v].Operands()[2]);
          SelectMeans(p, f, v, m, w);
        case Gep(o, _) =>
          OperandsExist(p, v, p.nodes[v].Operands()[0]);
          PassMeans(p, f, v, o, m, w);
        case Alloca(o) =>
          OperandsExist(p, v, p.nodes[v].Operands()[0]);
          PassMeans(p, f, v, o, m, w);
        case OtherUnary(o, _) =>
          OperandsExist(p, v, p.nodes[v].Operands()[0]);
          PassMeans(p, f, v, o, m, w);
        case Call(_, _, _, _, _, _) =>
          CallMeans(p, t, f, v, m, w);
        case _ =>
      }
    }
  }

  // ---------- what is returned ----------

  ghost function LooksBack(p: Program, t: Tables, f: Func): Graph {
    (v: Value) => set w | w in UpTo(|p.nodes|) && LooksAt(p, t, f, w, v)
  }

  ghost predicate Returns(p: Program, f: Func, v: Value) {
    exists i :: i in CodeOf(p, f) && p.Has(i) && p.nodes[i] == Return(Some(v))
  }

  /** Some returned value comes from v in any number of steps. */
  ghost predicate FlowsToReturn(p: Program, t: Tables, f: Func, v: Value) {
    exists r: Value :: Returns(p, f, r) && Reaches(LooksBack(p, t, f), r, v)
  }

  lemma SameFlow(p: Program, t: Tables, f: Func, v: Value)
    requires f < |p.funcs|
    ensures FlowBack(VisitsOf(p, t, f), |p.nodes|)(v) == LooksBack(p, t, f)(v)
  {
    forall w: Value
      ensures w in FlowBack(VisitsOf(p, t, f), |p.nodes|)(v) <==> w in LooksBack(p, t, f)(v)
    {
      VisitLooks(p, t, f, v, w);
    }
  }

  lemma SameFlows(p: Program, t: Tables, f: Func, r: Value, v: Value)
    requires f < |p.funcs|
    ensures Reaches(FlowBack(VisitsOf(p, t, f), |p.nodes|), r, v) <==> Reaches(LooksBack(p, t, f), r, v)
  {
    forall x: Value ensures FlowBack(VisitsOf(p, t, f), |p.nodes|)(x) == LooksBack(p, t, f)(x) {
      SameFlow(p, t, f, x);
    }
    SameReach(FlowBack(VisitsOf(p, t, f), |p.nodes|), LooksBack(p, t, f), r, v);
  }

  lemma ReturnedByMeans(p: Program, f: Func, r: Value)
    ensures r in ReturnedBy(p, CodeOf(p, f)) <==> Returns(p, f, r)
  {
    if r in ReturnedBy(p, CodeOf(p, f)) {
      var i :| i in CodeOf(p, f) && p.Has(i) && p.nodes[i].Return? && p.nodes[i].result == Some(r);
      assert p.nodes[i] == Return(Some(r));
    }
  }

  lemma InRegion(g: Graph, n: nat, roots: set<Value>, v: Value)
    requires v < n
    ensures v in Region(g, UpTo(n), roots) <==> exists r :: r in roots && Reaches(g, r, v)
  {
  }

  /** What influences the result of a function is what flows into a returned value. */
  lemma InfluencesAre(p: Program, t: Tables, f: Func, v: Value)
    requires f < |p.funcs| && p.Has(v)
    ensures v in ReturnInfluences(p, t, f) <==> FlowsToReturn(p, t, f, v)
  {
    InRegion(FlowBack(VisitsOf(p, t, f), |p.nodes|), |p.nodes|, ReturnedBy(p, CodeOf(p, f)), v);
    forall r: Value
      ensures r in ReturnedBy(p, CodeOf(p, f)) <==> Returns(p, f, r)
      ensures Reaches(FlowBack(VisitsOf(p, t, f), |p.nodes|), r, v) <==> Reaches(LooksBack(p, t, f), r, v)
    {
      ReturnedByMeans(p, f, r);
      SameFlows(p, t, f, r, v);
    }
  }

  lemma InMarks(look: Visits, vs: set<Value>, m: Mark)
    ensures m in MarksOf(look, vs) <==> exists v :: v in vs && m in look(v).marks
  {
  }

  /** The marks of a function are exactly what the values that flow into its returns say. */
  lemma MarksAre(p: Program, t: Tables, f: Func, m: Mark)
    requires f < |p.funcs|
    ensures m in ReturnMarks(p, t, f) <==> exists v: Value :: FlowsToReturn(p, t, f, v) && Says(p, t, f, v, m)
  {
    InMarks(VisitsOf(p, t, f), ReturnInfluences(p, t, f), m);
    forall v: Value
      ensures v in ReturnInfluences(p, t, f) && m in VisitOf(p, t, f, v).marks <==>
              FlowsToReturn(p, t, f, v) && Says(p, t, f, v, m)
    {
      MarkAt(p, t, f, v, m);
    }
  }

  lemma MarkAt(p: Program, t: Tables, f: Func, v: Value, m: Mark)
    requires f < |p.funcs|
    ensures v in ReturnInfluences(p, t, f) && m in VisitOf(p, t, f, v).marks <==>
            FlowsToReturn(p, t, f, v) && Says(p, t, f, v, m)
  {
    VisitSays(p, t, f, v, m);
    if p.Has(v) {
      InfluencesAre(p, t, f, v);
    }
  }

  lemma {:induction false} NoUnionRecord(vs: seq<Visit>)
    requires forall i | 0 <= i < |vs| :: !vs[i].errSelect
    ensures !Union(vs).errSelect
    decreases |vs|
  {
    if vs != [] {
      NoUnionRecord(vs[1..]);
    }
  }

  lemma NoSelectNoRecord(p: Program, t: Tables, f: Func, v: Value)
    requires f < |p.funcs| && p.Has(v) && !p.nodes[v].Select?
    ensures !VisitOf(p, t, f, v).errSelect
  {
    match p.nodes[v] {
      case Load(ptr) =>
        OperandsExist(p, v, p.nodes[v].Operands()[0]);
        NoUnionRecord(StoreVisits(p, f, ptr, p.users[ptr]));
      case Phi(inc) =>
        NoUnionRecord(IncomingVisits(p, f, inc));
      case _ =>
    }
  }

  /** The recorded selects are exactly those of one error code that flow into a return. */
  lemma SelectsAre(p: Program, t: Tables, f: Func, v: Value)
    requires f < |p.funcs| && p.Has(v)
    ensures v in ErrSelects(VisitsOf(p, t, f), ReturnInfluences(p, t, f)) <==>
            && FlowsToReturn(p, t, f, v) && p.nodes[v].Select?
            && (IsError(p, f, p.nodes[v].tval) <==> !IsError(p, f, p.nodes[v].fval))
  {
    InfluencesAre(p, t, f, v);
    if p.nodes[v].Select? {
      OperandsExist(p, v, p.nodes[v].Operands()[1]);
      OperandsExist(p, v, p.nodes[v].Operands()[2]);
      SelectMeans(p, f, v, Mark(0, 0), v);
    } else {
      NoSelectNoRecord(p, t, f, v);
    }
  }

  // ---------- returned constants ----------

  lemma ReturnedFlows(p: Program, t: Tables, f: Func, i: Value, v: Value)
    requires i in CodeOf(p, f) && p.Has(i) && p.nodes[i] == Return(Some(v))
    ensures FlowsToReturn(p, t, f, v)
  {
    assert Returns(p, f, v);
    ReachSelf(LooksBack(p, t, f), v);
  }

  lemma ConstantSays(p: Program, t: Tables, f: Func, v: Value, c: Value, m: Mark)
    requires ComesFrom(p, c, m.block, v) && Gives(p, f, c, m.block, m)
    ensures Says(p, t, f, v, m)
  {
  }

  lemma ConstantMarks(p: Program, t: Tables, f: Func, v: Value, c: Value, x: int, b: Block)
    requires f < |p.funcs| && FlowsToReturn(p, t, f, v) && ComesFrom(p, c, b, v)
    requires p.Has(c) && p.nodes[c] == Const(IntConst(x))
    ensures -4096 < x < 0 ==> Mark(b, MUST_RETURN_ERR) in ReturnMarks(p, t, f)
    ensures 0 <= x < 4096 ==> Mark(b, MAY_RETURN_ERR) in ReturnMarks(p, t, f)
  {
    var m := Mark(b, if IsError(p, f, c) then MUST_RETURN_ERR else MAY_RETURN_ERR);
    ConstantSays(p, t, f, v, c, m);
    MarksAre(p, t, f, m);
    if -4096 < x < 4096 {
      SmallIsNoCode(x);
    }
  }

  /** A returned PHI: a small negative constant marks its block Must, a small other one May. */
  lemma ReturnedPhiConstant(p: Program, t: Tables, f: Func, i: Value, v: Value, c: Value, x: int, b: Block)
    requires i in CodeOf(p, f) && f < |p.funcs| && p.Has(i) && p.nodes[i] == Return(Some(v))
    requires p.Has(v) && p.nodes[v].Phi? && Incoming(c, b) in p.nodes[v].incoming
    requires p.Has(c) && p.nodes[c] == Const(IntConst(x))
    ensures -4096 < x < 0 ==> Mark(b, MUST_RETURN_ERR) in ReturnMarks(p, t, f)
    ensures 0 <= x < 4096 ==> Mark(b, MAY_RETURN_ERR) in ReturnMarks(p, t, f)
  {
    ReturnedFlows(p, t, f, i, v);
    ConstantMarks(p, t, f, v, c, x, b);
  }

  /** A returned load: the same for constants stored to the variable, at the blocks of the stores. */
  lemma ReturnedStoredConstant(p: Program, t: Tables, f: Func, i: Value, v: Value, ptr: Value, u: Value, c: Value,
                               x: int)
    requires i in CodeOf(p, f) && f < |p.funcs| && p.Has(i) && p.nodes[i] == Return(Some(v))
    requires p.Has(v) && p.nodes[v] == Load(ptr) && p.Has(ptr) && u in p.users[ptr]
    requires p.Has(u) && p.nodes[u] == Store(c, ptr) && p.Has(c) && p.nodes[c] == Const(IntConst(x))
    ensures -4096 < x < 0 ==> Mark(p.parent[u], MUST_RETURN_ERR) in ReturnMarks(p, t, f)
    ensures 0 <= x < 4096 ==> Mark(p.parent[u], MAY_RETURN_ERR) in ReturnMarks(p, t, f)
  {
    ReturnedFlows(p, t, f, i, v);
    assert StoredFor(p, u, c, v);
    ConstantMarks(p, t, f, v, c, x, p.parent[u]);
  }

  // ---------- functions that may return an error ----------

  /** Instruction i of g stores an error code, calls for a pointer, or calls an error-pointer helper. */
  ghost predicate StoresError(p: Program, g: Func, i: Value) {
    && p.Has(i)
    && (|| (p.nodes[i].Store? && IsError(p, g, p.nodes[i].val))
        || (p.nodes[i].Call? && p.nodes[i].pointer)
        || (&& p.nodes[i].Call? && p.nodes[i].direct.Some?
            && (p.nodes[i].name == "ERR_PTR" || p.nodes[i].name == "PTR_ERR")))
  }

  /** Instruction i of a function leads on to h: another call of it, or a return of a call of it. */
  predicate GoesTo(p: Program, t: Tables, i: Value, h: Func) {
    && p.Has(i)
    && (|| (&& p.nodes[i].Call? && !p.nodes[i].pointer && p.nodes[i].direct.Some?
            && p.nodes[i].name != "ERR_PTR" && p.nodes[i].name != "PTR_ERR"
            && i in t.firstCallee && t.firstCallee[i] == h)
        || (&& p.nodes[i].Return? && p.nodes[i].result.Some? && p.Has(p.nodes[i].result.value)
            && p.nodes[p.nodes[i].result.value].Call?
            && p.nodes[i].result.value in t.firstCallee && t.firstCallee[p.nodes[i].result.value] == h))
  }

  ghost predicate SetsErrorCode(p: Program, g: Func) {
    exists i :: i in CodeOf(p, g) && StoresError(p, g, i)
  }

  ghost function GoesOnTo(p: Program, t: Tables): Graph {
    (g: Func) => set i, h | i in CodeOf(p, g) && h in FirstCallees(t) && GoesTo(p, t, i, h) :: h
  }

  ghost function FirstCallees(t: Tables): set<Func> {
    set v | v in t.firstCallee :: t.firstCallee[v]
  }

  lemma ScanMeans(p: Program, t: Tables, g: Func, i: Value, h: Func)
    requires p.Has(i) && g < |p.funcs|
    ensures ScanInst(p, t, g, i) == Hit <==> StoresError(p, g, i)
    ensures ScanInst(p, t, g, i) == Follow(h) <==> GoesTo(p, t, i, h)
  {
    match p.nodes[i] {
      case Store(v, _) =>
        OperandsExist(p, i, p.nodes[i].Operands()[0]);
        IsErrorMeans(p, g, v);
      case Return(Some(r)) =>
        OperandsExist(p, i, p.nodes[i].Operands()[0]);
      case _ =>
    }
  }

  lemma FollowedAre(p: Program, t: Tables, g: Func, h: Func)
    ensures h in CallsFollowed(p, t)(g) <==> h in GoesOnTo(p, t)(g)
    ensures ScansTo(p, t, g, Hit) <==> SetsErrorCode(p, g)
  {
    forall i | i in CodeOf(p, g)
      ensures p.Has(i) && g < |p.funcs|
      ensures ScanInst(p, t, g, i) == Hit <==> StoresError(p, g, i)
      ensures ScanInst(p, t, g, i) == Follow(h) <==> GoesTo(p, t, i, h)
      ensures GoesTo(p, t, i, h) ==> h in FirstCallees(t)
    {
      CodeExists(p, g, i);
      ScanMeans(p, t, g, i, h);
    }
    if h in GoesOnTo(p, t)(g) {
      var i :| i in CodeOf(p, g) && GoesTo(p, t, i, h);
      assert ScanInst(p, t, g, i).Follow? && ScanInst(p, t, g, i).callee == h;
    }
  }

  /** A function may return an error exactly when one it goes on to, or itself, sets an error code. */
  lemma MayReturnMeans(p: Program, t: Tables, f: Func)
    ensures MayReturn(p, t, f) <==> exists g: Func :: Reaches(GoesOnTo(p, t), f, g) && SetsErrorCode(p, g)
  {
    forall g: Func
      ensures CallsFollowed(p, t)(g) == GoesOnTo(p, t)(g)
      ensures ScansTo(p, t, g, Hit) <==> SetsErrorCode(p, g)
    {
      FollowedAre(p, t, g, 0);
      forall h: Func ensures h in CallsFollowed(p, t)(g) <==> h in GoesOnTo(p, t)(g) {
        FollowedAre(p, t, g, h);
      }
    }
    forall g: Func ensures Reaches(CallsFollowed(p, t), f, g) <==> Reaches(GoesOnTo(p, t), f, g) {
      SameReach(CallsFollowed(p, t), GoesOnTo(p, t), f, g);
    }
  }

  /** A call whose result is an operand of what its block branches on is checked at once. */
  lemma ComparedAtOnce(p: Program, call: Value, bb: Block, ti: Value, cond: Value)
    requires p.Has(call) && bb < |p.body| && |p.cfg.succs[bb]| > 1
    requires p.body[bb] != [] && p.body[bb][|p.body[bb]| - 1] == ti && p.Has(ti)
    requires p.nodes[ti] == Branch(Some(cond)) || p.nodes[ti] == Switch(cond)
    requires p.Has(cond) && p.nodes[cond].IsInstruction() && call in p.nodes[cond].Operands()
    ensures CheckedAtOnce(p, call, bb)
  {
    ReachSelf(StoredLoads(p), call);
  }

  // ---------- the check of an early return ----------

  /**
    A two-way branch to a block that returns a small negative constant and to a block that only
    returns a small other one is a check.
  */
  lemma EarlyReturnIsCheck(p: Program, t: Tables, f: Func, edges: EdgeMap, selects: set<Value>, br: Value, ret: Value,
                           v: Value, c1: Value, x1: int, b1: Block, c2: Value, x2: int, b2: Block)
    requires f < |p.funcs| && p.Has(br) && EdgesMean(p, t, f, edges)
    requires p.nodes[br].Branch? && p.nodes[br].condition.Some?
    requires ReturnsApart(p.cfg, ReturnMarks(p, t, f)) && ReturnsTwoWay(p.cfg, ReturnMarks(p, t, f))
    requires BeforeReturns(p, t, f, p.parent[br])
    requires ret in CodeOf(p, f) && p.Has(ret) && p.nodes[ret] == Return(Some(v)) && p.Has(v) && p.nodes[v].Phi?
    requires Incoming(c1, b1) in p.nodes[v].incoming && Incoming(c2, b2) in p.nodes[v].incoming
    requires p.Has(c1) && p.nodes[c1] == Const(IntConst(x1)) && -4096 < x1 < 0
    requires p.Has(c2) && p.nodes[c2] == Const(IntConst(x2)) && 0 <= x2 < 4096
    requires Mark(b2, MUST_RETURN_ERR) !in ReturnMarks(p, t, f)
    requires b1 in p.cfg.succs[p.parent[br]] && b1 in p.funcs[f].blocks
    requires b2 in p.cfg.succs[p.parent[br]] && b2 in p.funcs[f].blocks
    ensures CheckCondition(p, edges, selects, br) == p.nodes[br].condition
  {
    ReturnedPhiConstant(p, t, f, ret, v, c1, x1, b1);
    ReturnedPhiConstant(p, t, f, ret, v, c2, x2, b2);
    SplitsAreReturns(p, t, f, b1, b2, p.parent[br]);
    BranchCheckMeans(p, t, f, edges, selects, br);
    ConditionIsOperand(p, edges, selects, br);
  }

  lemma SplitsAreReturns(p: Program, t: Tables, f: Func, b1: Block, b2: Block, bb: Block)
    requires f < |p.funcs| && bb < |p.cfg.succs| && b1 in p.cfg.succs[bb] && b2 in p.cfg.succs[bb]
    requires b1 in p.funcs[f].blocks && Mark(b1, MUST_RETURN_ERR) in ReturnMarks(p, t, f)
    requires b2 in p.funcs[f].blocks && Mark(b2, MAY_RETURN_ERR) in ReturnMarks(p, t, f)
    requires Mark(b2, MUST_RETURN_ERR) !in ReturnMarks(p, t, f)
    ensures ReturnSplit(p, t, f, bb)
  {
    assert SureToReturn(p, t, f, b1) && !SureToReturn(p, t, f, b2);
  }
}
