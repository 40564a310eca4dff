/** Stage 2: searching the checked sources and uses for missing checks. */
module UncheckStage {
  import opened Graphs
  import opened Ir
  import opened Slicing
  import opened Ledger
  import opened ForwardSearch
  import opened PointSearch
  import opened BackwardSearch

  const SKIPPED_FUNCS: set<string> :=
    {"outb", "__const_udelay", "__udelay", "scnprintf", "__fswab16", "__fswab32"}

  // ---------- what is visited ----------

  /** One place where a source may go unchecked: the tracked values and where to search. */
  datatype Probe = Probe(key: Key, v: Value, roots: set<Value>, q: Query)

  ghost predicate ProbeChecked(p: Program, c: Context, m: Models, pr: Probe) {
    exists r | r in pr.roots :: CheckedForward(p, c, m, pr.q, r)
  }

  ghost function ProbeEvents(p: Program, c: Context, m: Models, prs: seq<Probe>): seq<Event> {
    seq(|prs|, i requires 0 <= i < |prs| => Visited(prs[i].key, prs[i].v, ProbeChecked(p, c, m, prs[i])))
  }

  /** The book after visiting the probes: a missing check is counted where no tracked value is checked. */
  ghost function VisitAll(p: Program, c: Context, b: Book, prs: seq<Probe>): Book {
    ApplyAll(p, b, ProbeEvents(p, c, b.checks, prs))
  }

  lemma VisitNone(p: Program, c: Context, b: Book)
    ensures VisitAll(p, c, b, []) == b
  {
  }

  lemma VisitTwice(p: Program, c: Context, b: Book, xs: seq<Probe>, ys: seq<Probe>)
    ensures VisitAll(p, c, b, xs + ys) == VisitAll(p, c, VisitAll(p, c, b, xs), ys)
    ensures VisitAll(p, c, b, xs).checked == b.checked && VisitAll(p, c, b, xs).checks == b.checks
  {
    var es, ds := ProbeEvents(p, c, b.checks, xs), ProbeEvents(p, c, b.checks, ys);
    assert ProbeEvents(p, c, b.checks, xs + ys) == es + ds;
    ApplyAppend(p, b, es, ds);
    VisitsKeepChecks(p, b, es);
  }

  // ---------- positions of a direct call ----------

  /** The output of a call at one position: the returned value, or what a pointer argument points to. */
  ghost function PositionProbes(p: Program, c: Context, f: Func, call: Value, cf: Func, argNo: int): seq<Probe>
    requires p.Has(call) && p.nodes[call].Call? && -1 <= argNo < |p.nodes[call].args|
  {
    var scope, key := BlocksAfter(p.cfg, p.parent[call]), Key(OfFunc(cf), argNo);
    if argNo == -1 then
      if p.users[call] == [] then [] else [Probe(key, call, {call}, Query(f, key, scope))]
    else
      var param := p.nodes[call].args[argNo];
      if param !in c.pointers then []
      else [Probe(key, call, LoadsWithin(p, scope, GetAliasPointers(c.aliases, f, param)), Query(f, key, scope))]
  }

  /** The positions below argNo: the returned value at -1, then the arguments. */
  ghost function DirectProbes(p: Program, c: Context, f: Func, call: Value, cf: Func, argNo: int): seq<Probe>
    requires p.Has(call) && p.nodes[call].Call? && -1 <= argNo <= |p.nodes[call].args|
    decreases argNo + 1
  {
    if argNo == -1 then []
    else DirectProbes(p, c, f, call, cf, argNo - 1) + PositionProbes(p, c, f, call, cf, argNo - 1)
  }

  // ---------- callees of an indirect call ----------

  /** One callee of an indirect call: its parameter is the source. */
  ghost function CalleeProbes(p: Program, c: Context, f: Func, call: Value, argNo: nat, callee: Func): seq<Probe>
    requires callee < |p.funcs|
  {
    var fn, key := p.funcs[callee], Key(OfCall(call), argNo);
    if argNo >= |fn.params| || fn.blocks == [] then []
    else
      var parg := fn.params[argNo];
      var scope := BlocksAfter(p.cfg, fn.blocks[0]);
      var loads := if parg in c.pointers then LoadsWithin(p, scope, GetAliasPointers(c.aliases, callee, parg)) else {};
      [Probe(key, parg, {parg} + loads, Query(f, key, scope))]
  }

  ghost function ArgumentProbes(p: Program, c: Context, f: Func, call: Value, argNo: nat,
                                callees: seq<Func>): seq<Probe>
    requires forall g | g in callees :: g < |p.funcs|
    decreases |callees|
  {
    if callees == [] then []
    else
      var rest, last := callees[..|callees| - 1], callees[|callees| - 1];
      assert last in callees && forall g | g in rest :: g in callees;
      ArgumentProbes(p, c, f, call, argNo, rest) + CalleeProbes(p, c, f, call, argNo, last)
  }

  function CalleesOf(c: Context, call: Value): seq<Func> {
    if call in c.callees then c.callees[call] else []
  }

  ghost function IndirectProbes(p: Program, c: Context, f: Func, call: Value, n: nat): seq<Probe>
    requires ValidContext(p, c)
    decreases n
  {
    if n == 0 then []
    else IndirectProbes(p, c, f, call, n - 1) + ArgumentProbes(p, c, f, call, n - 1, CalleesOf(c, call))
  }

  // ---------- all calls ----------

  /** The callee whose sources and uses a direct call is searched for, unless the call is skipped. */
  function SearchedCallee(p: Program, c: Context, call: Value): Option<Func>
    requires p.Has(call) && p.nodes[call].Call?
  {
    if call in c.intrinsics || (p.users[call] == [] && p.nodes[call].args == []) || CalleesOf(c, call) == [] then None
    else
      var cf := CalleesOf(c, call)[0];
      if cf < |p.funcs| && p.funcs[cf].name in SKIPPED_FUNCS then None else Some(cf)
  }

  ghost function CallProbes(p: Program, c: Context, f: Func, i: Value): seq<Probe>
    requires p.Has(i) && ValidContext(p, c)
  {
    if !p.nodes[i].Call? then []
    else if p.nodes[i].indirect then IndirectProbes(p, c, f, i, |p.nodes[i].args|)
    else
      match SearchedCallee(p, c, i)
      case None => []
      case Some(cf) =>
        var params := if cf < |p.funcs| then |p.funcs[cf].params| else 0;
        DirectProbes(p, c, f, i, cf, Smaller(params, |p.nodes[i].args|))
  }

  ghost function CodeProbes(p: Program, c: Context, f: Func, code: seq<Value>): seq<Probe>
    requires ValidContext(p, c) && forall i | i in code :: p.Has(i)
    decreases |code|
  {
    if code == [] then []
    else
      var rest, last := code[..|code| - 1], code[|code| - 1];
      assert last in code && forall i | i in rest :: i in code;
      CodeProbes(p, c, f, rest) + CallProbes(p, c, f, last)
  }

  // ---------- visiting sources ----------

  /** Visits one probe of a checked source. */
  method VisitProbe(p: Program, c: Context, key: Key, v: Value, roots: set<Value>, q: Query, before: Book)
    returns (book: Book)
    requires ValidContext(p, c) && key in before.checked && forall r | r in roots :: p.Has(r)
    ensures book == VisitAll(p, c, before, [Probe(key, v, roots, q)])
  {
    var isChecked := AnyIsChecked(p, c, before.checks, q, roots);
    book := before;
    if !isChecked {
      book := AddUncheck(book, key, v);
    }
    book := AddTotal(book, key);
    ghost var pr := Probe(key, v, roots, q);
    assert ProbeEvents(p, c, before.checks, [pr]) == [Visited(key, v, isChecked)];
    assert [Visited(key, v, isChecked)][1..] == [];
    assert ApplyAll(p, before, [Visited(key, v, isChecked)]) == Apply(p, before, Visited(key, v, isChecked));
  }

  /** Probes of an unchecked key change nothing. */
  lemma UncheckedKeyIgnored(p: Program, c: Context, b: Book, prs: seq<Probe>)
    requires |prs| <= 1 && forall pr | pr in prs :: pr.key !in b.checked
    ensures VisitAll(p, c, b, prs) == b
  {
    if prs != [] {
      assert prs[0] in prs;
      var es := ProbeEvents(p, c, b.checks, prs);
      assert es[1..] == [];
      assert ApplyAll(p, b, es) == ApplyAll(p, Apply(p, b, es[0]), es[1..]);
    }
  }

  method VisitPosition(p: Program, c: Context, f: Func, call: Value, cf: Func, argNo: int, before: Book)
    returns (book: Book)
    requires p.Has(call) && p.nodes[call].Call? && -1 <= argNo < |p.nodes[call].args| && ValidContext(p, c)
    ensures book == VisitAll(p, c, before, PositionProbes(p, c, f, call, cf, argNo))
  {
    book := before;
    VisitNone(p, c, before);
    // Nobody looks at the returned value
    if argNo == -1 && p.users[call] == [] {
      return;
    }
    // A call gives results back only through what its arguments point to
    if argNo >= 0 && p.nodes[call].args[argNo] !in c.pointers {
      return;
    }
    var key := Key(OfFunc(cf), argNo);
    if key !in before.checked {
      UncheckedKeyIgnored(p, c, before, PositionProbes(p, c, f, call, cf, argNo));
      return;
    }
    var reach := CollectSuccReachBlocks(p.cfg, p.parent[call], {});
    CollectedForward(p.cfg, p.parent[call], reach);
    if argNo == -1 {
      book := VisitProbe(p, c, key, call, {call}, Query(f, key, reach), book);
    } else {
      // The argument itself is not tracked, only what is read through it afterwards
      var param := p.nodes[call].args[argNo];
      ArgExists(p, call, argNo);
      var loads := CollectLoadsWithin(p, reach, GetAliasPointers(c.aliases, f, param));
      var roots := set l | l in loads;
      assert roots == Items(loads);
      book := VisitProbe(p, c, key, call, roots, Query(f, key, reach), book);
    }
  }

  lemma ArgExists(p: Program, call: Value, k: int)
    requires p.Has(call) && p.nodes[call].Call? && 0 <= k < |p.nodes[call].args|
    ensures p.Has(p.nodes[call].args[k])
  {
    assert p.nodes[call].Operands()[k] == p.nodes[call].args[k];
    OperandsExist(p, call, p.nodes[call].Operands()[k]);
  }

  /** The book after the positions below argNo. */
  ghost predicate VisitedBelow(p: Program, c: Context, f: Func, call: Value, cf: Func, argNo: int, before: Book,
                               book: Book)
    requires p.Has(call) && p.nodes[call].Call? && -1 <= argNo <= |p.nodes[call].args|
  {
    book == VisitAll(p, c, before, DirectProbes(p, c, f, call, cf, argNo))
  }

  method VisitDirect(p: Program, c: Context, f: Func, call: Value, cf: Func, params: nat, before: Book)
    returns (book: Book)
    requires p.Has(call) && p.nodes[call].Call? && ValidContext(p, c)
    ensures VisitedBelow(p, c, f, call, cf, Smaller(params, |p.nodes[call].args|), before, book)
  {
    book := before;
    VisitNone(p, c, before);
    var numArgs := |p.nodes[call].args|;
    var argNo: int, more := -1, true;
    while more && argNo < numArgs
      invariant -1 <= argNo <= Smaller(params, numArgs)
      invariant more <==> argNo == -1 || argNo < params
      invariant VisitedBelow(p, c, f, call, cf, argNo, before, book)
      decreases params - argNo
    {
      book := VisitNext(p, c, f, call, cf, argNo, before, book);
      argNo := argNo + 1;
      more := argNo < params;
    }
    assert argNo == Smaller(params, numArgs);
  }

  method VisitNext(p: Program, c: Context, f: Func, call: Value, cf: Func, argNo: int, ghost before: Book, book: Book)
    returns (after: Book)
    requires p.Has(call) && p.nodes[call].Call? && -1 <= argNo < |p.nodes[call].args| && ValidContext(p, c)
    requires VisitedBelow(p, c, f, call, cf, argNo, before, book)
    ensures VisitedBelow(p, c, f, call, cf, argNo + 1, before, after)
  {
    OneMorePosition(p, c, f, call, cf, argNo, before);
    after := VisitPosition(p, c, f, call, cf, argNo, book);
  }

  lemma OneMorePosition(p: Program, c: Context, f: Func, call: Value, cf: Func, argNo: int, b: Book)
    requires p.Has(call) && p.nodes[call].Call? && -1 <= argNo < |p.nodes[call].args|
    ensures VisitAll(p, c, b, DirectProbes(p, c, f, call, cf, argNo + 1)) ==
            VisitAll(p, c, VisitAll(p, c, b, DirectProbes(p, c, f, call, cf, argNo)),
                     PositionProbes(p, c, f, call, cf, argNo))
  {
    VisitTwice(p, c, b, DirectProbes(p, c, f, call, cf, argNo), PositionProbes(p, c, f, call, cf, argNo));
  }

  method VisitCallee(p: Program, c: Context, f: Func, call: Value, argNo: nat, callee: Func, before: Book)
    returns (book: Book)
    requires callee < |p.funcs| && ValidContext(p, c) && Key(OfCall(call), argNo) in before.checked
    ensures book == VisitAll(p, c, before, CalleeProbes(p, c, f, call, argNo, callee))
  {
    book := before;
    VisitNone(p, c, before);
    var fn, key := p.funcs[callee], Key(OfCall(call), argNo);
    if argNo >= |fn.params| || |fn.blocks| < 1 {
      return;
    }
    var parg := fn.params[argNo];
    var reach := CollectSuccReachBlocks(p.cfg, fn.blocks[0], {});
    CollectedForward(p.cfg, fn.blocks[0], reach);
    var roots := {parg};
    if parg in c.pointers {
      // Here the pointer stays a root beside what is read through it
      var loads := CollectLoadsWithin(p, reach, GetAliasPointers(c.aliases, callee, parg));
      roots := roots + set l | l in loads;
      assert (set l | l in loads) == Items(loads);
    } else {
      assert {parg} + {} == roots;
    }
    book := VisitProbe(p, c, key, parg, roots, Query(f, key, reach), book);
  }

  method VisitArgument(p: Program, c: Context, f: Func, call: Value, argNo: nat, before: Book) returns (book: Book)
    requires ValidContext(p, c) && Key(OfCall(call), argNo) in before.checked
    ensures book == VisitAll(p, c, before, ArgumentProbes(p, c, f, call, argNo, CalleesOf(c, call)))
  {
    book := before;
    VisitNone(p, c, before);
    var callees := CalleesOf(c, call);
    for k := 0 to |callees|
      invariant forall g | g in callees[..k] :: g < |p.funcs|
      invariant Key(OfCall(call), argNo) in book.checked
      invariant book == VisitAll(p, c, before, ArgumentProbes(p, c, f, call, argNo, callees[..k]))
    {
      assert callees[..k + 1] == callees[..k] + [callees[k]];
      assert callees[k] in callees;
      OneMoreCallee(p, c, f, call, argNo, callees[..k], callees[k], before);
      book := VisitCallee(p, c, f, call, argNo, callees[k], book);
    }
    PrefixIsAll(callees);
  }

  lemma OneMoreCallee(p: Program, c: Context, f: Func, call: Value, argNo: nat, fs: seq<Func>, g: Func, b: Book)
    requires g < |p.funcs| && (forall h | h in fs :: h < |p.funcs|) && forall h | h in fs + [g] :: h < |p.funcs|
    ensures var b1 := VisitAll(p, c, b, ArgumentProbes(p, c, f, call, argNo, fs));
            VisitAll(p, c, b, ArgumentProbes(p, c, f, call, argNo, fs + [g])) ==
            VisitAll(p, c, b1, CalleeProbes(p, c, f, call, argNo, g))
    ensures VisitAll(p, c, b, ArgumentProbes(p, c, f, call, argNo, fs + [g])).checked == b.checked
  {
    var xs, ys := ArgumentProbes(p, c, f, call, argNo, fs), CalleeProbes(p, c, f, call, argNo, g);
    assert (fs + [g])[..|fs|] == fs;
    assert ArgumentProbes(p, c, f, call, argNo, fs + [g]) == xs + ys;
    VisitTwice(p, c, b, xs, ys);
    VisitTwice(p, c, b, xs + ys, []);
  }

  lemma {:induction false} ArgumentProbesKey(p: Program, c: Context, f: Func, call: Value, argNo: nat,
                                             callees: seq<Func>, b: Book)
    requires forall g | g in callees :: g < |p.funcs|
    requires Key(OfCall(call), argNo) !in b.checked
    ensures VisitAll(p, c, b, ArgumentProbes(p, c, f, call, argNo, callees)) == b
    decreases |callees|
  {
    if callees == [] {
      VisitNone(p, c, b);
    } else {
      var rest, last := callees[..|callees| - 1], callees[|callees| - 1];
      assert last in callees && forall g | g in rest :: g in callees;
      ArgumentProbesKey(p, c, f, call, argNo, rest, b);
      UncheckedKeyIgnored(p, c, b, CalleeProbes(p, c, f, call, argNo, last));
      VisitTwice(p, c, b, ArgumentProbes(p, c, f, call, argNo, rest), CalleeProbes(p, c, f, call, argNo, last));
    }
  }

  method VisitIndirect(p: Program, c: Context, f: Func, call: Value, numArgs: nat, before: Book) returns (book: Book)
    requires ValidContext(p, c)
    ensures book == VisitAll(p, c, before, IndirectProbes(p, c, f, call, numArgs))
  {
    book := before;
    VisitNone(p, c, before);
    for argNo := 0 to numArgs
      invariant book == VisitAll(p, c, before, IndirectProbes(p, c, f, call, argNo))
    {
      VisitTwice(p, c, before, IndirectProbes(p, c, f, call, argNo),
                 ArgumentProbes(p, c, f, call, argNo, CalleesOf(c, call)));
      if Key(OfCall(call), argNo) !in book.checked {
        ArgumentProbesKey(p, c, f, call, argNo, CalleesOf(c, call), book);
        continue;
      }
      book := VisitArgument(p, c, f, call, argNo, book);
    }
  }

  /** All sources of one instruction. */
  method VisitCall(p: Program, c: Context, f: Func, i: Value, before: Book) returns (book: Book)
    requires p.Has(i) && ValidContext(p, c)
    ensures book == VisitAll(p, c, before, CallProbes(p, c, f, i))
  {
    book := before;
    VisitNone(p, c, before);
    if !p.nodes[i].Call? {
      return;
    }
    if p.nodes[i].indirect {
      book := VisitIndirect(p, c, f, i, |p.nodes[i].args|, book);
      return;
    }
    var cf := SearchedCallee(p, c, i);
    if cf.Some? {
      var params := if cf.value < |p.funcs| then |p.funcs[cf.value].params| else 0;
      book := VisitDirect(p, c, f, i, cf.value, params, book);
    }
  }

  // ---------- visiting uses ----------

  /** One argument of a call whose use may go unchecked. */
  datatype UseProbe = UseProbe(key: Key, arg: Value, at: Place)

  /**
    What is known of the answer: a yes has a witness that repeats no value, a no has a cover without a
    checked point, and the answer is exact where no value is met at two places.
  */
  ghost predicate UseAnswer(p: Program, c: Context, m: Models, pr: UseProbe, isChecked: bool) {
    && (isChecked ==> HasWitness(p, c, m, pr.key, Point(pr.arg, pr.at)))
    && (isChecked ==> FreshChain(StepsOf(p, c), HitsOf(p, c, m, pr.key), Point(pr.arg, pr.at), {}))
    && (!isChecked ==> HasCover(StepsOf(p, c), HitsOf(p, c, m, pr.key), Point(pr.arg, pr.at)))
    && (OnePlaceEach(StepsOf(p, c), Point(pr.arg, pr.at)) ==>
          (isChecked <==> HasWitness(p, c, m, pr.key, Point(pr.arg, pr.at))))
    && (StaysLocal(p, c, pr.at, pr.arg) ==> (isChecked <==> CheckedLocally(p, c, m, pr.key, Point(pr.arg, pr.at))))
  }

  /** The events of visited uses: one each, with a justified answer where the key was checked. */
  ghost predicate UseEvents(p: Program, c: Context, b: Book, prs: seq<UseProbe>, es: seq<Event>) {
    |es| == |prs| && forall i | 0 <= i < |prs| :: UseEvent(p, c, b, prs[i], es[i])
  }

  ghost predicate UseEvent(p: Program, c: Context, b: Book, pr: UseProbe, e: Event) {
    && e.Visited? && e.key == pr.key && e.v == pr.arg
    && (pr.key in b.checked ==> UseAnswer(p, c, b.checks, pr, e.isChecked))
  }

  ghost predicate UsesVisited(p: Program, c: Context, prs: seq<UseProbe>, b0: Book, b1: Book) {
    exists es: seq<Event> :: UseEvents(p, c, b0, prs, es) && b1 == ApplyAll(p, b0, es)
  }

  lemma UsesVisitedNone(p: Program, c: Context, b: Book)
    ensures UsesVisited(p, c, [], b, b)
  {
    assert UseEvents(p, c, b, [], []) && b == ApplyAll(p, b, []);
  }

  lemma UseEventsAreVisits(p: Program, c: Context, b: Book, prs: seq<UseProbe>, es: seq<Event>)
    requires UseEvents(p, c, b, prs, es)
    ensures forall e | e in es :: e.Visited?
  {
    forall e | e in es ensures e.Visited? {
      var i :| 0 <= i < |es| && es[i] == e;
      assert UseEvent(p, c, b, prs[i], es[i]);
    }
  }

  lemma UsesVisitedTwice(p: Program, c: Context, xs: seq<UseProbe>, ys: seq<UseProbe>, b0: Book, b1: Book, b2: Book)
    requires UsesVisited(p, c, xs, b0, b1) && UsesVisited(p, c, ys, b1, b2)
    ensures UsesVisited(p, c, xs + ys, b0, b2)
  {
    var es: seq<Event> :| UseEvents(p, c, b0, xs, es) && b1 == ApplyAll(p, b0, es);
    UseEventsAreVisits(p, c, b0, xs, es);
    VisitsKeepChecks(p, b0, es);
    var ds: seq<Event> :| UseEvents(p, c, b1, ys, ds) && b2 == ApplyAll(p, b1, ds);
    UseEventsAreVisits(p, c, b1, ys, ds);
    ApplyAppend(p, b0, es, ds);
    UseEventsJoin(p, c, b0, b1, xs, ys, es, ds);
  }

  lemma UseEventsJoin(p: Program, c: Context, b0: Book, b1: Book, xs: seq<UseProbe>, ys: seq<UseProbe>,
                      es: seq<Event>, ds: seq<Event>)
    requires UseEvents(p, c, b0, xs, es) && UseEvents(p, c, b1, ys, ds)
    requires b1.checked == b0.checked && b1.checks == b0.checks
    ensures UseEvents(p, c, b0, xs + ys, es + ds)
  {
    forall i | 0 <= i < |xs + ys| ensures UseEvent(p, c, b0, (xs + ys)[i], (es + ds)[i]) {
      if i < |xs| {
        assert UseEvent(p, c, b0, xs[i], es[i]);
      } else {
        assert UseEvent(p, c, b1, ys[i - |xs|], ds[i - |xs|]);
      }
    }
  }

  lemma UsesVisitedKeepChecks(p: Program, c: Context, prs: seq<UseProbe>, b0: Book, b1: Book)
    requires UsesVisited(p, c, prs, b0, b1)
    ensures b1.checked == b0.checked && b1.checks == b0.checks && b1.checkCount == b0.checkCount
    ensures Balanced(b0) ==> Balanced(b1)
  {
    var es: seq<Event> :| UseEvents(p, c, b0, prs, es) && b1 == ApplyAll(p, b0, es);
    UseEventsAreVisits(p, c, b0, prs, es);
    VisitsKeepChecks(p, b0, es);
    if Balanced(b0) {
      EveryRunIsBalanced(p, b0, es);
    }
  }

  /** Before the call, but not in its own block. */
  ghost function UsePlace(p: Program, f: Func, call: Value): Place
    requires p.Has(call)
  {
    Place(f, BlocksBefore(p.cfg, p.parent[call]) - {p.parent[call]}, 1)
  }

  ghost function UseProbes(p: Program, f: Func, call: Value, cf: Func, n: nat): seq<UseProbe>
    requires p.Has(call) && p.nodes[call].Call? && n <= |p.nodes[call].args|
  {
    seq(n, k requires 0 <= k < n => UseProbe(Key(OfFunc(cf), k), p.nodes[call].args[k], UsePlace(p, f, call)))
  }

  ghost function CallUseProbes(p: Program, c: Context, f: Func, i: Value): seq<UseProbe>
    requires p.Has(i)
  {
    if !p.nodes[i].Call? || p.nodes[i].indirect || SearchedCallee(p, c, i).None? then []
    else UseProbes(p, f, i, SearchedCallee(p, c, i).value, |p.nodes[i].args|)
  }

  ghost function CodeUseProbes(p: Program, c: Context, f: Func, code: seq<Value>): seq<UseProbe>
    requires forall i | i in code :: p.Has(i)
    decreases |code|
  {
    if code == [] then []
    else
      var rest, last := code[..|code| - 1], code[|code| - 1];
      assert last in code && forall i | i in rest :: i in code;
      CodeUseProbes(p, c, f, rest) + CallUseProbes(p, c, f, last)
  }

  lemma OneUseVisited(p: Program, c: Context, pr: UseProbe, b: Book, isChecked: bool)
    requires pr.key in b.checked ==> UseAnswer(p, c, b.checks, pr, isChecked)
    ensures UsesVisited(p, c, [pr], b, Apply(p, b, Visited(pr.key, pr.arg, isChecked)))
  {
    var es := [Visited(pr.key, pr.arg, isChecked)];
    assert es[1..] == [];
    assert UseEvents(p, c, b, [pr], es);
    assert ApplyAll(p, b, es) == ApplyAll(p, Apply(p, b, es[0]), es[1..]);
  }

  method VisitUse(p: Program, c: Context, f: Func, call: Value, cf: Func, argNo: nat, before: Book) returns (book: Book)
    requires p.Has(call) && p.nodes[call].Call? && argNo < |p.nodes[call].args| && ValidContext(p, c)
    ensures UsesVisited(p, c, [UseProbe(Key(OfFunc(cf), argNo), p.nodes[call].args[argNo], UsePlace(p, f, call))],
                        before, book)
  {
    book := before;
    var key, arg := Key(OfFunc(cf), argNo), p.nodes[call].args[argNo];
    ghost var pr := UseProbe(key, arg, UsePlace(p, f, call));
    if key !in before.checked {
      OneUseVisited(p, c, pr, before, true);
      return;
    }
    ArgExists(p, call, argNo);
    var reach := CollectPredReachBlocks(p.cfg, p.parent[call], {});
    CollectedBackward(p.cfg, p.parent[call], reach);
    var isChecked := UseIsChecked(p, c, before.checks, key, f, arg, reach - {p.parent[call]});
    if !isChecked {
      book := AddUncheck(book, key, arg);
    }
    book := AddTotal(book, key);
    OneUseVisited(p, c, pr, before, isChecked);
  }

  method VisitUses(p: Program, c: Context, f: Func, i: Value, before: Book) returns (book: Book)
    requires p.Has(i) && ValidContext(p, c)
    ensures UsesVisited(p, c, CallUseProbes(p, c, f, i), before, book)
  {
    book := before;
    UsesVisitedNone(p, c, before);
    if !p.nodes[i].Call? || p.nodes[i].indirect {
      return;
    }
    var cf := SearchedCallee(p, c, i);
    if cf.None? {
      return;
    }
    var numArgs := |p.nodes[i].args|;
    for argNo := 0 to numArgs
      invariant UsesVisited(p, c, UseProbes(p, f, i, cf.value, argNo), before, book)
    {
      ghost var b1, prs := book, UseProbes(p, f, i, cf.value, argNo);
      book := VisitUse(p, c, f, i, cf.value, argNo, book);
      ghost var pr := UseProbe(Key(OfFunc(cf.value), argNo), p.nodes[i].args[argNo], UsePlace(p, f, i));
      UsesVisitedTwice(p, c, prs, [pr], before, b1, book);
      assert UseProbes(p, f, i, cf.value, argNo + 1) == prs + [pr];
    }
  }

  /** Count the missing checks of a function: for its calls, first the sources, then the uses. */
  method CountSrcUseUnchecks(p: Program, c: Context, f: Func, code: seq<Value>, src: Book, use: Book)
    returns (src': Book, use': Book)
    requires ValidContext(p, c) && forall i | i in code :: p.Has(i)
    ensures src' == VisitAll(p, c, src, CodeProbes(p, c, f, code))
    ensures UsesVisited(p, c, CodeUseProbes(p, c, f, code), use, use')
  {
    src', use' := src, use;
    VisitNone(p, c, src);
    UsesVisitedNone(p, c, use);
    for k := 0 to |code|
      invariant src' == VisitAll(p, c, src, CodeProbes(p, c, f, code[..k]))
      invariant UsesVisited(p, c, CodeUseProbes(p, c, f, code[..k]), use, use')
    {
      assert code[..k + 1][..k] == code[..k] && code[k] in code;
      VisitTwice(p, c, src, CodeProbes(p, c, f, code[..k]), CallProbes(p, c, f, code[k]));
      src' := VisitCall(p, c, f, code[k], src');
      ghost var u1 := use';
      use' := VisitUses(p, c, f, code[k], use');
      UsesVisitedTwice(p, c, CodeUseProbes(p, c, f, code[..k]), CallUseProbes(p, c, f, code[k]), use, u1, use');
    }
    PrefixIsAll(code);
  }
}
