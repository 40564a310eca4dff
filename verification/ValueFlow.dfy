/** What one value adds to the flow of returns. */
module ValueFlow {
  import opened Graphs
  import opened ControlFlow
  import opened Flags
  import opened EdgeFlags
  import opened BlockMarks
  import opened Ir
  import opened ErrorFlow

  // ---------- one value ----------

  /** What looking at one value adds: values to look at next, marks, and whether it is an error select. */
  datatype Visit = Visit(next: set<Value>, marks: set<Mark>, errSelect: bool)

  ghost const NoVisit := Visit({}, {}, false)

  function ConstantFlag(p: Program, f: Func, v: Value): Flag
    requires p.Has(v) && f < |p.funcs|
  {
    if IsValueErrno(p, f, v) then MUST_RETURN_ERR else MAY_RETURN_ERR
  }

  /** A constant marks the block it flows from; any other value is looked at next. */
  ghost function OperandVisit(p: Program, f: Func, v: Value, bb: Block): Visit
    requires p.Has(v) && f < |p.funcs|
  {
    if p.nodes[v].IsConstant() then Visit({}, {Mark(bb, ConstantFlag(p, f, v))}, false) else Visit({v}, {}, false)
  }

  predicate StoresTo(p: Program, u: Value, ptr: Value) {
    p.Has(u) && p.nodes[u].Store? && p.nodes[u].ptr == ptr
  }

  lemma StoredExists(p: Program, u: Value, ptr: Value)
    requires StoresTo(p, u, ptr)
    ensures p.Has(p.nodes[u].val)
  {
    OperandsExist(p, u, p.nodes[u].Operands()[0]);
  }

  /** What one user of a loaded pointer contributes. */
  ghost function StoreVisit(p: Program, f: Func, ptr: Value, u: Value): Visit
    requires f < |p.funcs|
  {
    if StoresTo(p, u, ptr) then StoredExists(p, u, ptr); OperandVisit(p, f, p.nodes[u].val, p.parent[u]) else NoVisit
  }

  ghost function Union(vs: seq<Visit>): Visit {
    if vs == [] then NoVisit
    else var r := Union(vs[1..]); Visit(vs[0].next + r.next, vs[0].marks + r.marks, vs[0].errSelect || r.errSelect)
  }

  lemma {:induction false} UnionAppend(vs: seq<Visit>, v: Visit)
    ensures Union(vs + [v]) ==
            Visit(Union(vs).next + v.next, Union(vs).marks + v.marks, Union(vs).errSelect || v.errSelect)
  {
    if vs == [] {
      assert vs + [v] == [v];
      assert Union([v]) == Visit(v.next + {}, v.marks + {}, v.errSelect);
    } else {
      assert (vs + [v])[1..] == vs[1..] + [v];
      UnionAppend(vs[1..], v);
    }
  }

  ghost function StoreVisits(p: Program, f: Func, ptr: Value, us: seq<Value>): seq<Visit>
    requires f < |p.funcs|
  {
    seq(|us|, i requires 0 <= i < |us| => StoreVisit(p, f, ptr, us[i]))
  }

  ghost function IncomingVisits(p: Program, f: Func, inc: seq<Incoming>): seq<Visit>
    requires f < |p.funcs| && forall i | 0 <= i < |inc| :: p.Has(inc[i].value)
  {
    seq(|inc|, i requires 0 <= i < |inc| => OperandVisit(p, f, inc[i].value, inc[i].block))
  }

  ghost function SelectVisit(p: Program, f: Func, tval: Value, fval: Value, bb: Block): Visit
    requires p.Has(tval) && p.Has(fval) && f < |p.funcs|
  {
    var flag1, flag2 := IsValueErrno(p, f, tval), IsValueErrno(p, f, fval);
    Visit(set v | v in {tval, fval} && !p.nodes[v].IsConstant(),
          if flag1 && flag2 then {Mark(bb, MUST_RETURN_ERR)}
          else if flag1 || flag2 then {Mark(bb, MAY_RETURN_ERR)} else {},
          flag1 != flag2)
  }

  /** The argument a copy function returns, if it is one that returns its source. */
  function CopiedArg(t: Tables, name: string, args: seq<Value>): Option<Value> {
    if name in t.copyFuncs && t.copyFuncs[name].1 == -1 && 0 <= t.copyFuncs[name].0 < |args|
    then Some(args[t.copyFuncs[name].0]) else None
  }

  /** The instruction that decides where block bb branches to. */
  function BranchCondition(p: Program, bb: Block): Option<Value>
    requires bb < |p.body|
  {
    if p.body[bb] == [] then None
    else
      var ti := p.body[bb][|p.body[bb]| - 1];
      match p.nodes[ti]
      case Branch(Some(c)) =>
        OperandsExist(p, ti, p.nodes[ti].Operands()[0]);
        if p.nodes[c].IsInstruction() then Some(c) else None
      case Switch(c) =>
        OperandsExist(p, ti, p.nodes[ti].Operands()[0]);
        if p.nodes[c].IsInstruction() then Some(c) else None
      case _ => None
  }

  /** The call's result, or a variable it was saved in, is compared right at the end of the block. */
  ghost predicate CheckedAtOnce(p: Program, call: Value, bb: Block)
    requires p.Has(call) && bb < |p.body|
  {
    && |p.cfg.succs[bb]| > 1
    && BranchCondition(p, bb).Some?
    && p.Has(BranchCondition(p, bb).value)
    && exists o | o in p.nodes[BranchCondition(p, bb).value].Operands() :: Reaches(StoredLoads(p), call, o)
  }

  ghost function CallVisit(p: Program, t: Tables, f: Func, call: Value): Visit
    requires p.Has(call) && p.nodes[call].Call? && f < |p.funcs|
  {
    var n, bb := p.nodes[call], p.parent[call];
    if n.direct.None? then NoVisit
    else if n.name == "PTR_ERR" || n.name == "ERR_PTR" then Visit({}, {Mark(bb, MUST_RETURN_ERR)}, false)
    else if CopiedArg(t, n.name, n.args).Some? then
      var arg := CopiedArg(t, n.name, n.args).value;
      if p.Has(arg) && IsValueErrno(p, f, arg) then Visit({}, {Mark(bb, MUST_RETURN_ERR)}, false)
      else Visit({arg}, {}, false)
    else if call !in t.firstCallee then NoVisit
    else if MayReturn(p, t, t.firstCallee[call]) && CheckedAtOnce(p, call, bb) then
      Visit({}, {Mark(bb, MAY_RETURN_ERR), Mark(p.cfg.succs[bb][0], MUST_RETURN_ERR)}, false)
    else Visit({}, {Mark(bb, MAY_RETURN_ERR)}, false)
  }

  ghost function VisitOf(p: Program, t: Tables, f: Func, v: Value): Visit
    requires f < |p.funcs|
  {
    if !p.Has(v) then NoVisit
    else
      match p.nodes[v]
      case Load(ptr) =>
        OperandsExist(p, v, p.nodes[v].Operands()[0]);
        Union(StoreVisits(p, f, ptr, p.users[ptr]))
      case Phi(inc) => Union(IncomingVisits(p, f, inc))
      case Select(_, tval, fval) =>
        OperandsExist(p, v, p.nodes[v].Operands()[1]);
        OperandsExist(p, v, p.nodes[v].Operands()[2]);
        SelectVisit(p, f, tval, fval, p.parent[v])
      case Gep(ptr, _) =>
        OperandsExist(p, v, p.nodes[v].Operands()[0]);
        OperandVisit(p, f, ptr, p.parent[v])
      case Call(_, _, _, _, _, _) => CallVisit(p, t, f, v)
      case Alloca(o) =>
        OperandsExist(p, v, p.nodes[v].Operands()[0]);
        OperandVisit(p, f, o, p.parent[v])
      case OtherUnary(o, _) =>
        OperandsExist(p, v, p.nodes[v].Operands()[0]);
        OperandVisit(p, f, o, p.parent[v])
      case Binary(_, _) => Visit({}, {Mark(p.parent[v], MAY_RETURN_ERR)}, false)
      case _ => NoVisit
  }

  ghost predicate Performed(p: Program, v: Visit, b0: BlockMap, b1: BlockMap, next: seq<Value>) {
    Items(next) == v.next && Absorbed(b0, b1, v.marks) && v.next <= UpTo(|p.nodes|)
  }

  method VisitOperand(p: Program, f: Func, v: Value, bb: Block, before: BlockMap)
    returns (bbErr: BlockMap, next: seq<Value>)
    requires p.Has(v) && f < |p.funcs|
    ensures Performed(p, OperandVisit(p, f, v, bb), before, bbErr, next)
  {
    if p.nodes[v].IsConstant() {
      return MarkBBErr(bb, ConstantFlag(p, f, v), before), [];
    }
    return before, [v];
  }

  lemma PerformedTwice(p: Program, v1: Visit, v2: Visit, b0: BlockMap, b1: BlockMap, b2: BlockMap,
                       next1: seq<Value>, next2: seq<Value>)
    requires Performed(p, v1, b0, b1, next1) && Performed(p, v2, b1, b2, next2)
    ensures Performed(p, Visit(v1.next + v2.next, v1.marks + v2.marks, v1.errSelect || v2.errSelect), b0, b2,
                      next1 + next2)
  {
    AbsorbedTwice(b0, b1, b2, v1.marks, v2.marks);
    assert forall x :: x in next1 + next2 <==> x in next1 || x in next2;
  }

  method VisitLoad(p: Program, f: Func, ptr: Value, before: BlockMap) returns (bbErr: BlockMap, next: seq<Value>)
    requires p.Has(ptr) && f < |p.funcs|
    ensures Performed(p, Union(StoreVisits(p, f, ptr, p.users[ptr])), before, bbErr, next)
  {
    bbErr, next := before, [];
    var us := p.users[ptr];
    for i := 0 to |us|
      invariant Performed(p, Union(StoreVisits(p, f, ptr, us[..i])), before, bbErr, next)
    {
      var u := us[i];
      UsersExist(p, ptr, u);
      ghost var vs, b1, next1 := StoreVisits(p, f, ptr, us[..i]), bbErr, next;
      assert StoreVisits(p, f, ptr, us[..i + 1]) == vs + [StoreVisit(p, f, ptr, u)];
      UnionAppend(vs, StoreVisit(p, f, ptr, u));
      var more := [];
      if StoresTo(p, u, ptr) {
        StoredExists(p, u, ptr);
        bbErr, more := VisitOperand(p, f, p.nodes[u].val, p.parent[u], bbErr);
      } else {
      }
      PerformedTwice(p, Union(vs), StoreVisit(p, f, ptr, u), before, b1, bbErr, next1, more);
      next := next + more;
    }
    PrefixIsAll(us);
  }

  method VisitPhi(p: Program, f: Func, inc: seq<Incoming>, before: BlockMap)
    returns (bbErr: BlockMap, next: seq<Value>)
    requires f < |p.funcs| && forall i | 0 <= i < |inc| :: p.Has(inc[i].value)
    ensures Performed(p, Union(IncomingVisits(p, f, inc)), before, bbErr, next)
  {
    bbErr, next := before, [];
    for i := 0 to |inc|
      invariant Performed(p, Union(IncomingVisits(p, f, inc[..i])), before, bbErr, next)
    {
      ghost var vs, b1, next1 := IncomingVisits(p, f, inc[..i]), bbErr, next;
      ghost var vi := OperandVisit(p, f, inc[i].value, inc[i].block);
      assert IncomingVisits(p, f, inc[..i + 1]) == vs + [vi];
      UnionAppend(vs, vi);
      var more;
      bbErr, more := VisitOperand(p, f, inc[i].value, inc[i].block, bbErr);
      PerformedTwice(p, Union(vs), vi, before, b1, bbErr, next1, more);
      next := next + more;
    }
    PrefixIsAll(inc);
  }

  method VisitSelect(p: Program, f: Func, tval: Value, fval: Value, bb: Block, before: BlockMap)
    returns (bbErr: BlockMap, next: seq<Value>, errSelect: bool)
    requires p.Has(tval) && p.Has(fval) && f < |p.funcs|
    ensures Performed(p, SelectVisit(p, f, tval, fval, bb), before, bbErr, next)
    ensures errSelect == SelectVisit(p, f, tval, fval, bb).errSelect
  {
    var flag1, flag2 := false, false;
    bbErr, next, errSelect := before, [], false;
    if p.nodes[tval].IsConstant() {
      flag1 := IsValueErrno(p, f, tval);
    } else {
      next := next + [tval];
    }
    if p.nodes[fval].IsConstant() {
      flag2 := IsValueErrno(p, f, fval);
    } else {
      next := next + [fval];
    }
    if flag1 && flag2 {
      bbErr := MarkBBErr(bb, MUST_RETURN_ERR, bbErr);
    } else if flag1 || flag2 {
      bbErr := MarkBBErr(bb, MAY_RETURN_ERR, bbErr);
      // Exactly one of the two operands sets an error code
      errSelect := true;
    }
  }

  method IsCheckedAtOnce(p: Program, call: Value, bb: Block) returns (checked: bool)
    requires p.Has(call) && bb < |p.body|
    ensures checked <==> CheckedAtOnce(p, call, bb)
  {
    if |p.cfg.succs[bb]| <= 1 {
      return false;
    }
    // Blocks that end in neither branch nor switch compare nothing
    var cond := BranchCondition(p, bb);
    if cond.None? || !p.Has(cond.value) {
      return false;
    }
    var same := FindSameVariablesFrom(p, call);
    var operands := p.nodes[cond.value].Operands();
    for i := 0 to |operands|
      invariant forall o | o in operands[..i] :: o !in same
    {
      PrefixGrows(operands, i);
      if operands[i] in same {
        return true;
      }
    }
    PrefixIsAll(operands);
    return false;
  }

  method VisitCall(p: Program, t: Tables, f: Func, call: Value, before: BlockMap)
    returns (bbErr: BlockMap, next: seq<Value>)
    requires p.Has(call) && p.nodes[call].Call? && f < |p.funcs| && t.Valid(p)
    ensures Performed(p, CallVisit(p, t, f, call), before, bbErr, next)
  {
    var n, bb := p.nodes[call], p.parent[call];
    bbErr, next := before, [];
    if n.direct.None? {
      return;
    }
    if n.name == "PTR_ERR" || n.name == "ERR_PTR" {
      bbErr := MarkBBErr(bb, MUST_RETURN_ERR, bbErr);
      return;
    }
    var copied := CopiedArg(t, n.name, n.args);
    if copied.Some? {
      var arg := copied.value;
      assert arg in n.Operands();
      OperandsExist(p, call, arg);
      if IsValueErrno(p, f, arg) {
        bbErr := MarkBBErr(bb, MUST_RETURN_ERR, bbErr);
      } else {
        next := [arg];
      }
      return;
    }
    // Calls that were never resolved contribute nothing
    if call !in t.firstCallee {
      return;
    }
    bbErr := MarkBBErr(bb, MAY_RETURN_ERR, bbErr);
    ghost var b1 := bbErr;
    var mayReturn := MayReturnErr(p, t, t.firstCallee[call]);
    if mayReturn {
      // A call that is compared at once taints only the first way out
      var checked := IsCheckedAtOnce(p, call, bb);
      if checked {
        var errSucc := p.cfg.succs[bb][0];
        bbErr := MarkBBErr(errSucc, MUST_RETURN_ERR, bbErr);
        AbsorbedTwice(before, b1, bbErr, {Mark(bb, MAY_RETURN_ERR)}, {Mark(errSucc, MUST_RETURN_ERR)});
        assert {Mark(bb, MAY_RETURN_ERR)} + {Mark(errSucc, MUST_RETURN_ERR)} == CallVisit(p, t, f, call).marks;
      }
    }
  }

  method VisitValue(p: Program, t: Tables, f: Func, v: Value, before: BlockMap)
    returns (bbErr: BlockMap, next: seq<Value>, errSelect: bool)
    requires p.Has(v) && f < |p.funcs| && t.Valid(p)
    ensures Performed(p, VisitOf(p, t, f, v), before, bbErr, next)
    ensures errSelect == VisitOf(p, t, f, v).errSelect
  {
    bbErr, next, errSelect := before, [], false;
    var n := p.nodes[v];
    match n {
      case Load(ptr) =>
        OperandsExist(p, v, n.Operands()[0]);
        NoErrSelects(p, f, ptr, p.users[ptr]);
        bbErr, next := VisitLoad(p, f, ptr, bbErr);
      case Phi(inc) =>
        NoErrSelectsIn(p, f, inc);
        bbErr, next := VisitPhi(p, f, inc, bbErr);
      case Select(_, tval, fval) =>
        OperandsExist(p, v, n.Operands()[1]);
        OperandsExist(p, v, n.Operands()[2]);
        bbErr, next, errSelect := VisitSelect(p, f, tval, fval, p.parent[v], bbErr);
      case Gep(ptr, _) =>
        OperandsExist(p, v, n.Operands()[0]);
        bbErr, next := VisitOperand(p, f, ptr, p.parent[v], bbErr);
      case Call(_, _, _, _, _, _) =>
        bbErr, next := VisitCall(p, t, f, v, bbErr);
      case Alloca(o) =>
        OperandsExist(p, v, n.Operands()[0]);
        bbErr, next := VisitOperand(p, f, o, p.parent[v], bbErr);
      case OtherUnary(o, _) =>
        OperandsExist(p, v, n.Operands()[0]);
        bbErr, next := VisitOperand(p, f, o, p.parent[v], bbErr);
      case Binary(_, _) =>
        bbErr := MarkBBErr(p.parent[v], MAY_RETURN_ERR, bbErr);
      case _ =>
    }
  }

  lemma {:induction false} NoErrSelects(p: Program, f: Func, ptr: Value, us: seq<Value>)
    requires f < |p.funcs|
    ensures !Union(StoreVisits(p, f, ptr, us)).errSelect
    decreases |us|
  {
    if us != [] {
      assert StoreVisits(p, f, ptr, us)[1..] == StoreVisits(p, f, ptr, us[1..]);
      NoErrSelects(p, f, ptr, us[1..]);
    }
  }

  lemma {:induction false} NoErrSelectsIn(p: Program, f: Func, inc: seq<Incoming>)
    requires f < |p.funcs| && forall i | 0 <= i < |inc| :: p.Has(inc[i].value)
    ensures !Union(IncomingVisits(p, f, inc)).errSelect
    decreases |inc|
  {
    if inc != [] {
      assert IncomingVisits(p, f, inc)[1..] == IncomingVisits(p, f, inc[1..]);
      NoErrSelectsIn(p, f, inc[1..]);
    }
  }
}
