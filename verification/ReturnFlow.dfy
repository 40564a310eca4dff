/** Marking every block that influences what a function returns. */
module ReturnFlow {
  import opened Graphs
  import opened EdgeFlags
  import opened BlockMarks
  import opened Ir
  import opened ErrorFlow
  import opened ValueFlow

  /** What looking at each value adds; the values are numbered below n. */
  type Visits = Value -> Visit

  ghost function VisitsOf(p: Program, t: Tables, f: Func): Visits
    requires f < |p.funcs|
  {
    (v: Value) => VisitOf(p, t, f, v)
  }

  ghost function MarksOf(look: Visits, vs: set<Value>): set<Mark> {
    set v, m | v in vs && m in look(v).marks :: m
  }

  ghost function ErrSelects(look: Visits, vs: set<Value>): set<Value> {
    set v | v in vs && look(v).errSelect
  }

  /** The backward value flow. */
  ghost function FlowBack(look: Visits, n: nat): Graph {
    (v: Value) => look(v).next * UpTo(n)
  }

  ghost function FlowBeyond(look: Visits, n: nat, seen: set<Value>): Graph {
    Beyond(FlowBack(look, n), seen)
  }

  /** The state: visited values, block flags and error selects. */
  datatype Flow = Flow(seen: set<Value>, bbErr: BlockMap, selects: set<Value>)

  /** Worklist invariant of one return value. */
  ghost predicate FlowSearch(look: Visits, n: nat, rv: Value, before: Flow, now: Flow, done: set<Value>,
                             waiting: set<Value>)
  {
    && Searching(FlowBeyond(look, n, before.seen), {rv}, done, waiting)
    && waiting <= UpTo(n)
    && now.seen == before.seen + done
    && Absorbed(before.bbErr, now.bbErr, MarksOf(look, done - before.seen))
    && now.selects == before.selects + ErrSelects(look, done - before.seen)
  }

  lemma FlowStart(look: Visits, n: nat, rv: Value, before: Flow)
    requires rv < n
    ensures FlowSearch(look, n, rv, before, before, {}, {rv})
  {
    StartSearch(FlowBeyond(look, n, before.seen), rv);
    assert {} - before.seen == {} && MarksOf(look, {}) == {} && ErrSelects(look, {}) == {};
  }

  /** A value visited before is dropped. */
  lemma {:induction false} FlowSkip(look: Visits, n: nat, rv: Value, before: Flow, now: Flow, done: set<Value>,
                                    todo: seq<Value>)
    requires todo != [] && FlowSearch(look, n, rv, before, now, done, Items(todo))
    requires todo[0] in now.seen
    ensures FlowSearch(look, n, rv, before, now, done + {todo[0]}, Items(todo[1..]))
  {
    var v := todo[0];
    ItemsPop(todo, []);
    assert todo[1..] + [] == todo[1..];
    if v in done {
      SkipFirst(FlowBeyond(look, n, before.seen), {rv}, done, todo);
      assert done + {v} == done;
    } else {
      assert Items<Value>([]) == {};
      ExpandFirst(FlowBeyond(look, n, before.seen), {rv}, done, todo, []);
      assert (done + {v}) - before.seen == done - before.seen;
    }
  }

  lemma MarksOfOneMore(look: Visits, vs: set<Value>, v: Value)
    ensures MarksOf(look, vs + {v}) == MarksOf(look, vs) + look(v).marks
    ensures ErrSelects(look, vs + {v}) == ErrSelects(look, vs) + if look(v).errSelect then {v} else {}
  {
  }

  lemma {:induction false} FlowStep(look: Visits, n: nat, rv: Value, before: Flow, now: Flow, done: set<Value>,
                                    todo: seq<Value>, bbErr: BlockMap, next: seq<Value>)
    requires todo != [] && FlowSearch(look, n, rv, before, now, done, Items(todo))
    requires todo[0] !in now.seen
    requires Items(next) == look(todo[0]).next <= UpTo(n) && Absorbed(now.bbErr, bbErr, look(todo[0]).marks)
    ensures FlowSearch(look, n, rv, before,
                       Flow(now.seen + {todo[0]}, bbErr,
                            now.selects + if look(todo[0]).errSelect then {todo[0]} else {}),
                       done + {todo[0]}, Items(todo[1..] + next))
  {
    var v := todo[0];
    ItemsPop(todo, next);
    ExpandFirst(FlowBeyond(look, n, before.seen), {rv}, done, todo, next);
    assert (done + {v}) - before.seen == (done - before.seen) + {v};
    MarksOfOneMore(look, done - before.seen, v);
    AbsorbedTwice(before.bbErr, now.bbErr, bbErr, MarksOf(look, done - before.seen), look(v).marks);
  }

  /** All values that flow into the return value rv and were not visited before. */
  ghost function FlowsInto(look: Visits, n: nat, rv: Value, seen: set<Value>): set<Value> {
    NewRegion(FlowBack(look, n), UpTo(n), seen, rv)
  }

  /** Exactly the unvisited values that flow into rv are visited, marked and recorded. */
  ghost predicate FlowAdded(look: Visits, n: nat, rv: Value, before: Flow, after: Flow) {
    var vs := FlowsInto(look, n, rv, before.seen);
    && after.seen == before.seen + vs
    && Absorbed(before.bbErr, after.bbErr, MarksOf(look, vs))
    && after.selects == before.selects + ErrSelects(look, vs)
  }

  lemma {:induction false} FlowEnd(look: Visits, n: nat, rv: Value, before: Flow, now: Flow, done: set<Value>)
    requires FlowSearch(look, n, rv, before, now, done, {}) && done <= UpTo(n)
    ensures FlowAdded(look, n, rv, before, now)
  {
    EndSearch(FlowBeyond(look, n, before.seen), rv, done);
    assert done - before.seen == FlowsInto(look, n, rv, before.seen);
  }

  method CheckErrValueFlow(p: Program, t: Tables, f: Func, ret: Value, before: Flow) returns (now: Flow)
    requires f < |p.funcs| && p.Has(ret) && p.nodes[ret].Return? && t.Valid(p)
    ensures p.nodes[ret].result.None? ==> now == before
    ensures p.nodes[ret].result.Some? ==>
              FlowAdded(VisitsOf(p, t, f), |p.nodes|, p.nodes[ret].result.value, before, now)
  {
    now := before;
    if p.nodes[ret].result.None? {
      return;
    }
    var rv := p.nodes[ret].result.value;
    OperandsExist(p, ret, p.nodes[ret].Operands()[0]);
    var todo: seq<Value> := [rv];
    ghost var done: set<Value> := {};
    ghost var look, n := VisitsOf(p, t, f), |p.nodes|;
    FlowStart(look, n, rv, before);
    assert Items(todo) == {rv};
    while todo != []
      invariant FlowSearch(look, n, rv, before, now, done, Items(todo))
      invariant done <= UpTo(|p.nodes|)
      decreases UpTo(|p.nodes|) - now.seen, |todo|
    {
      var v := todo[0];
      assert v in Items(todo);
      if v in now.seen {
        FlowSkip(look, n, rv, before, now, done, todo);
        done, todo := done + {v}, todo[1..];
        continue;
      }
      var bbErr, next, errSelect := VisitValue(p, t, f, v, now.bbErr);
      FlowStep(look, n, rv, before, now, done, todo, bbErr, next);
      now := Flow(now.seen + {v}, bbErr, now.selects + if errSelect then {v} else {});
      done, todo := done + {v}, todo[1..] + next;
    }
    assert Items(todo) == {};
    FlowEnd(look, n, rv, before, now, done);
  }

  // ---------- all returns of a function ----------

  ghost function ReturnedBy(p: Program, code: seq<Value>): set<Value> {
    set i | i in code && p.Has(i) && p.nodes[i].Return? && p.nodes[i].result.Some? :: p.nodes[i].result.value
  }

  /** All values that flow into one of the given return values. */
  ghost function Influences(look: Visits, n: nat, roots: set<Value>): set<Value> {
    Region(FlowBack(look, n), UpTo(n), roots)
  }

  ghost predicate FlowComplete(look: Visits, n: nat, roots: set<Value>, before: Flow, now: Flow) {
    var vs := Influences(look, n, roots);
    && now.seen == vs
    && Absorbed(before.bbErr, now.bbErr, MarksOf(look, vs))
    && now.selects == before.selects + ErrSelects(look, vs)
  }

  lemma {:induction false} FlowCompleteOneMore(look: Visits, n: nat, roots: set<Value>, rv: Value, before: Flow,
                                               f1: Flow, f2: Flow)
    requires roots <= UpTo(n) && rv < n
    requires FlowComplete(look, n, roots, before, f1) && FlowAdded(look, n, rv, f1, f2)
    ensures FlowComplete(look, n, roots + {rv}, before, f2)
  {
    RegionGrows(FlowBack(look, n), UpTo(n), roots, rv);
    var known, added := Influences(look, n, roots), FlowsInto(look, n, rv, f1.seen);
    AbsorbedTwice(before.bbErr, f1.bbErr, f2.bbErr, MarksOf(look, known), MarksOf(look, added));
    assert MarksOf(look, known + added) == MarksOf(look, known) + MarksOf(look, added);
    assert ErrSelects(look, known + added) == ErrSelects(look, known) + ErrSelects(look, added);
  }

  lemma NothingReturned(look: Visits, n: nat, bbErr: BlockMap, selects: set<Value>)
    ensures FlowComplete(look, n, {}, Flow({}, bbErr, selects), Flow({}, bbErr, selects))
  {
    assert Influences(look, n, {}) == {};
    assert MarksOf(look, {}) == {} && ErrSelects(look, {}) == {};
  }

  lemma ResultExists(p: Program, i: Value)
    requires p.Has(i) && p.nodes[i].Return? && p.nodes[i].result.Some?
    ensures p.Has(p.nodes[i].result.value)
  {
    OperandsExist(p, i, p.nodes[i].Operands()[0]);
  }

  /** What one instruction adds: only a return with a value adds anything. */
  lemma {:induction false} OneMoreInstruction(p: Program, look: Visits, i: Value, roots: set<Value>, before: Flow,
                                              f1: Flow, f2: Flow)
    requires p.Has(i) && roots <= UpTo(|p.nodes|) && FlowComplete(look, |p.nodes|, roots, before, f1)
    requires if p.nodes[i].Return? && p.nodes[i].result.Some?
             then FlowAdded(look, |p.nodes|, p.nodes[i].result.value, f1, f2) else f2 == f1
    ensures roots + ReturnedBy(p, [i]) <= UpTo(|p.nodes|)
    ensures FlowComplete(look, |p.nodes|, roots + ReturnedBy(p, [i]), before, f2)
  {
    if p.nodes[i].Return? && p.nodes[i].result.Some? {
      assert ReturnedBy(p, [i]) == {p.nodes[i].result.value};
      ResultExists(p, i);
      FlowCompleteOneMore(look, |p.nodes|, roots, p.nodes[i].result.value, before, f1, f2);
    } else {
      assert ReturnedBy(p, [i]) == {};
      assert roots + {} == roots;
    }
  }

  /** The marks of all values that flow into a return, whatever the order of the returns. */
  method CheckErrReturn(p: Program, t: Tables, f: Func, bbErr: BlockMap, selects: set<Value>) returns (now: Flow)
    requires f < |p.funcs| && t.Valid(p)
    ensures FlowComplete(VisitsOf(p, t, f), |p.nodes|, ReturnedBy(p, CodeOf(p, f)), Flow({}, bbErr, selects), now)
  {
    now := Flow({}, bbErr, selects);
    var code := CodeOf(p, f);
    assert ReturnedBy(p, code[..0]) == {};
    ghost var look := VisitsOf(p, t, f);
    NothingReturned(look, |p.nodes|, bbErr, selects);
    for k := 0 to |code|
      invariant ReturnedBy(p, code[..k]) <= UpTo(|p.nodes|)
      invariant FlowComplete(look, |p.nodes|, ReturnedBy(p, code[..k]), Flow({}, bbErr, selects), now)
    {
      var i := code[k];
      CodeExists(p, f, i);
      ghost var f1 := now;
      if p.nodes[i].Return? {
        // The values seen for one return are skipped for the next
        now := CheckErrValueFlow(p, t, f, i, now);
      }
      ReturnedOneMore(p, code, k);
      OneMoreInstruction(p, look, i, ReturnedBy(p, code[..k]), Flow({}, bbErr, selects), f1, now);
    }
    PrefixIsAll(code);
  }

  lemma ReturnedOneMore(p: Program, code: seq<Value>, k: nat)
    requires k < |code|
    ensures ReturnedBy(p, code[..k + 1]) == ReturnedBy(p, code[..k]) + ReturnedBy(p, [code[k]])
  {
    PrefixGrows(code, k);
    forall v | v in ReturnedBy(p, code[..k]) + ReturnedBy(p, [code[k]]) ensures v in ReturnedBy(p, code[..k + 1]) {
      if v in ReturnedBy(p, code[..k]) {
        var i :| i in code[..k] && p.Has(i) && p.nodes[i].Return? && p.nodes[i].result == Some(v);
        assert i in code[..k + 1];
      } else {
        assert code[k] in code[..k + 1];
      }
    }
    forall v | v in ReturnedBy(p, code[..k + 1]) ensures v in ReturnedBy(p, code[..k]) + ReturnedBy(p, [code[k]]) {
      var i :| i in code[..k + 1] && p.Has(i) && p.nodes[i].Return? && p.nodes[i].result == Some(v);
      assert i in code[..k] || i in [code[k]];
    }
  }
}
