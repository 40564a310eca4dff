/** Is a use ever checked: a search across call sites. */
module BackwardSearch {
  import opened Graphs
  import opened ControlFlow
  import opened Ir
  import opened Slicing
  import opened Ledger
  import opened ForwardSearch
  import opened PointSearch

  const MAX_DEPTH := 5

  // ---------- one value ----------

  predicate UserChecks(p: Program, c: Context, m: Models, use: Key, at: Place, u: Value) {
    && p.Has(u) && p.nodes[u].IsInstruction() && p.parent[u] in at.scope
    && match p.nodes[u]
       case Cmp(_, _, _) => InModeledCheckSet(p, m, u, use)
       case Switch(_) => true
       case Call(_, _, _, _, _, _) => IsCheckInst(c, at.f, u)
       case _ => false
  }

  /** Some user in the scope checks the value; arguments are judged at their call sites instead. */
  ghost predicate CheckedAt(p: Program, c: Context, m: Models, use: Key, pt: Point) {
    && pt.at.depth <= MAX_DEPTH && p.Has(pt.v) && !p.nodes[pt.v].Param?
    && exists u | u in p.users[pt.v] :: UserChecks(p, c, m, use, pt.at, u)
  }

  /** Loads and stored values behind an alias of a loaded pointer. */
  function BehindAlias(p: Program, scope: set<Block>, u: Value): Option<Value> {
    if !p.Has(u) || !p.nodes[u].IsInstruction() || p.parent[u] !in scope then None
    else if p.nodes[u].Load? then Some(u)
    else if p.nodes[u].Store? then Some(p.nodes[u].val)
    else None
  }

  ghost function BehindAliases(p: Program, scope: set<Block>, aliases: set<Value>): set<Value> {
    set a, u | a in aliases && p.Has(a) && u in p.users[a] && BehindAlias(p, scope, u).Some? ::
      BehindAlias(p, scope, u).value
  }

  /** Where a value comes from, inside the function. */
  ghost function LocalNext(p: Program, c: Context, f: Func, scope: set<Block>, v: Value): set<Value> {
    if !p.Has(v) then {}
    else
      match p.nodes[v]
      case Load(ptr) => BehindAliases(p, scope, GetAliasPointers(c.aliases, f, ptr))
      case Phi(inc) => set i | 0 <= i < |inc| :: inc[i].value
      case Select(_, tval, fval) => {tval, fval}
      case Gep(ptr, _) => {ptr}
      case Alloca(s) => {s}
      case OtherUnary(o, _) => {o}
      case Binary(l, r) => {l, r}
      case _ => {}
  }

  ghost function LocalFlow(p: Program, c: Context, f: Func, scope: set<Block>): Graph {
    (v: Value) => LocalNext(p, c, f, scope, v)
  }

  function CallersOf(c: Context, f: Func): set<Value> {
    if f in c.callers then c.callers[f] else {}
  }

  /** The argument a caller passes for a parameter. */
  function PassedArg(p: Program, f: Func, v: Value, call: Value): Option<Value> {
    if !p.Has(call) || !p.nodes[call].Call? || f >= |p.funcs| then None
    else
      var k := ArgIndex(p.funcs[f].params, v);
      if 0 <= k < |p.nodes[call].args| then Some(p.nodes[call].args[k]) else None
  }

  /** The point at a call site: everything before the call counts, one call deeper. */
  ghost function AtCaller(p: Program, call: Value, depth: nat, arg: Value): Point
    requires p.Has(call)
  {
    Point(arg, Place(p.blockFunc[p.parent[call]], BlocksBefore(p.cfg, p.parent[call]), depth + 1))
  }

  /** One step of the backward data flow: inside a function, or from a parameter to a call site. */
  ghost predicate Steps(p: Program, c: Context, a: Point, z: Point) {
    && p.Has(a.v) && a.at.depth <= MAX_DEPTH
    && if p.nodes[a.v].Param? then
         exists call | call in CallersOf(c, p.nodes[a.v].fn) ::
           && p.Has(call) && PassedArg(p, a.at.f, a.v, call).Some?
           && z == AtCaller(p, call, a.at.depth, PassedArg(p, a.at.f, a.v, call).value)
       else z.at == a.at && z.v in LocalNext(p, c, a.at.f, a.at.scope, a.v)
  }

  ghost function StepsOf(p: Program, c: Context): StepRel {
    (a: Point, z: Point) => Steps(p, c, a, z)
  }

  ghost function HitsOf(p: Program, c: Context, m: Models, use: Key): Point -> bool {
    (a: Point) => CheckedAt(p, c, m, use, a)
  }

  /** A chain of n backward steps, some of them across calls, that ends at a checked value. */
  ghost predicate Witness(p: Program, c: Context, m: Models, use: Key, a: Point, n: nat, calls: nat)
    decreases n
  {
    if n == 0 then calls == 0 && CheckedAt(p, c, m, use, a)
    else
      exists z :: Steps(p, c, a, z) &&
        if p.nodes[a.v].Param? then calls > 0 && Witness(p, c, m, use, z, n - 1, calls - 1)
        else Witness(p, c, m, use, z, n - 1, calls)
  }

  /** A chain of backward steps leads to a checked value. */
  ghost predicate HasWitness(p: Program, c: Context, m: Models, use: Key, a: Point) {
    LeadsToPoint(StepsOf(p, c), HitsOf(p, c, m, use), a)
  }

  /** Every such chain crosses some number of calls. */
  lemma {:induction false} WitnessCrossesCalls(p: Program, c: Context, m: Models, use: Key, a: Point, z: Point, n: nat)
    returns (calls: nat)
    requires LeadsIn(StepsOf(p, c), a, z, n) && CheckedAt(p, c, m, use, z)
    ensures Witness(p, c, m, use, a, n, calls)
    decreases n
  {
    if n == 0 {
      return 0;
    }
    var y :| StepsOf(p, c)(a, y) && LeadsIn(StepsOf(p, c), y, z, n - 1);
    calls := WitnessCrossesCalls(p, c, m, use, y, z, n - 1);
    if p.nodes[a.v].Param? {
      calls := calls + 1;
    }
  }

  /** It crosses no more calls than the depth leaves: at most four from depth one. */
  lemma {:induction false} WitnessCrossesFewCalls(p: Program, c: Context, m: Models, use: Key, a: Point, n: nat,
                                                  calls: nat)
    requires Witness(p, c, m, use, a, n, calls)
    ensures a.at.depth + calls <= MAX_DEPTH
    decreases n
  {
    if n > 0 {
      if p.nodes[a.v].Param? {
        var z :| Steps(p, c, a, z) && Witness(p, c, m, use, z, n - 1, calls - 1);
        WitnessCrossesFewCalls(p, c, m, use, z, n - 1, calls - 1);
      } else {
        var z :| Steps(p, c, a, z) && Witness(p, c, m, use, z, n - 1, calls);
        WitnessCrossesFewCalls(p, c, m, use, z, n - 1, calls);
      }
    }
  }

  // ---------- when no call site is crossed ----------

  /** Nothing the value comes from inside the function is a parameter. */
  ghost predicate StaysLocal(p: Program, c: Context, at: Place, v: Value) {
    forall x: Value | Reaches(LocalFlow(p, c, at.f, at.scope), v, x) :: p.Has(x) && !p.nodes[x].Param?
  }

  lemma KidStaysLocal(p: Program, c: Context, at: Place, v: Value, k: Value)
    requires StaysLocal(p, c, at, v) && k in LocalFlow(p, c, at.f, at.scope)(v)
    ensures StaysLocal(p, c, at, k)
  {
    forall x: Value | Reaches(LocalFlow(p, c, at.f, at.scope), k, x) ensures p.Has(x) && !p.nodes[x].Param? {
      ReachFirst(LocalFlow(p, c, at.f, at.scope), v, k, x);
    }
  }

  // ---------- the search ----------

  method SomeUserChecks(p: Program, c: Context, m: Models, use: Key, at: Place, v: Value) returns (checks: bool)
    requires p.Has(v)
    ensures checks <==> exists u | u in p.users[v] :: UserChecks(p, c, m, use, at, u)
  {
    var us := p.users[v];
    for i := 0 to |us|
      invariant forall u | u in us[..i] :: !UserChecks(p, c, m, use, at, u)
    {
      PrefixGrows(us, i);
      if UserChecks(p, c, m, use, at, us[i]) {
        return true;
      }
    }
    PrefixIsAll(us);
    return false;
  }

  method CollectBehindAliases(p: Program, scope: set<Block>, aliases: set<Value>) returns (next: seq<Value>)
    requires forall a | a in aliases :: p.Has(a)
    ensures Items(next) == BehindAliases(p, scope, aliases)
  {
    var rest := aliases;
    next := [];
    while rest != {}
      invariant rest <= aliases
      invariant Items(next) == BehindAliases(p, scope, aliases - rest)
    {
      var a :| a in rest;
      var more := CollectBehindAlias(p, scope, a);
      assert forall x :: x in next + more <==> x in Items(next) || x in Items(more);
      assert aliases - (rest - {a}) == (aliases - rest) + {a};
      next, rest := next + more, rest - {a};
    }
    assert aliases - rest == aliases;
  }

  method CollectBehindAlias(p: Program, scope: set<Block>, a: Value) returns (next: seq<Value>)
    requires p.Has(a)
    ensures Items(next) == BehindAliases(p, scope, {a})
  {
    next := [];
    var us := p.users[a];
    for i := 0 to |us|
      invariant forall x :: x in next <==> exists u | u in us[..i] :: BehindAlias(p, scope, u) == Some(x)
    {
      PrefixGrows(us, i);
      var behind := BehindAlias(p, scope, us[i]);
      if behind.Some? {
        next := next + [behind.value];
      }
    }
    PrefixIsAll(us);
  }

  method LocalOrigins(p: Program, c: Context, at: Place, v: Value) returns (next: seq<Value>)
    requires p.Has(v) && ValidAliases(p, c.aliases)
    ensures Items(next) == LocalNext(p, c, at.f, at.scope, v)
  {
    next := [];
    match p.nodes[v] {
      case Load(ptr) =>
        OperandsExist(p, v, p.nodes[v].Operands()[0]);
        next := CollectBehindAliases(p, at.scope, GetAliasPointers(c.aliases, at.f, ptr));
      case Phi(inc) =>
        next := seq(|inc|, i requires 0 <= i < |inc| => inc[i].value);
        assert forall i | 0 <= i < |inc| :: next[i] == inc[i].value;
        assert Items(next) == set i | 0 <= i < |inc| :: inc[i].value;
      case Select(_, tval, fval) =>
        next := [tval, fval];
      case Gep(ptr, _) =>
        next := [ptr];
      case Alloca(s) =>
        next := [s];
      case OtherUnary(o, _) =>
        next := [o];
      case Binary(l, r) =>
        next := [l, r];
      case _ =>
    }
  }

  lemma LocalOriginsExist(p: Program, c: Context, f: Func, scope: set<Block>, v: Value)
    requires p.Has(v)
    ensures LocalNext(p, c, f, scope, v) <= UpTo(|p.nodes|)
  {
    forall u: Value | p.Has(u) && p.nodes[u].Store? ensures p.Has(p.nodes[u].val) {
      OperandsExist(p, u, p.nodes[u].Operands()[0]);
    }
    var os := p.nodes[v].Operands();
    match p.nodes[v] {
      case Select(_, tval, fval) =>
        assert os[1] == tval && os[2] == fval;
      case Gep(ptr, _) =>
        assert os[0] == ptr;
      case Alloca(s) =>
        assert os[0] == s;
      case OtherUnary(o, _) =>
        assert os[0] == o;
      case Binary(l, r) =>
        assert os[0] == l && os[1] == r;
      case _ =>
    }
  }

  ghost predicate ValidContext(p: Program, c: Context) {
    && ValidAliases(p, c.aliases)
    && (forall f, call | f in c.callers && call in c.callers[f] :: p.Has(call) && p.nodes[call].Call?)
    && (forall call, f | call in c.callees && f in c.callees[call] :: f < |p.funcs|)
  }

  ghost predicate SearchedBack(p: Program, c: Context, m: Models, use: Key, a: Point, before: Found, after: Found) {
    Answered(StepsOf(p, c), HitsOf(p, c, m, use), a, before, after)
  }

  ghost predicate AtOrigins(p: Program, c: Context, m: Models, use: Key, a: Point, before: Found, kids: set<Value>,
                            now: Found)
  {
    AtPoint(StepsOf(p, c), HitsOf(p, c, m, use), a, before, kids, now)
  }

  method IsCheckedBackward(p: Program, c: Context, m: Models, use: Key, a: Point, before: Found)
    returns (now: Found)
    requires p.Has(a.v) && ValidContext(p, c)
    ensures SearchedBack(p, c, m, use, a, before, now)
    decreases UpTo(|p.nodes|) - before.seen, 2
  {
    now := before;
    ghost var st, hit := StepsOf(p, c), HitsOf(p, c, m, use);
    if before.isChecked || a.v in before.seen {
      SeenBefore(st, hit, a, before);
      return;
    }
    now := before.(seen := before.seen + {a.v});
    AtPointStart(st, hit, a, before);
    if a.at.depth > MAX_DEPTH {
      AtPointEnd(st, hit, a, before, {}, now);
      return;
    }
    // An argument comes from the call sites
    if p.nodes[a.v].Param? {
      now := SearchCallers(p, c, m, use, a, before, now);
      return;
    }
    var checks := SomeUserChecks(p, c, m, use, a.at, a.v);
    if checks {
      AtPointHit(st, hit, a, before);
      return now.(isChecked := true);
    }
    var next := LocalOrigins(p, c, a.at, a.v);
    LocalSteps(p, c, a);
    now := SearchOrigins(p, c, m, use, a, before, next, now);
    AtPointEnd(st, hit, a, before, Items(next), now);
  }

  lemma LocalSteps(p: Program, c: Context, a: Point)
    requires p.Has(a.v) && !p.nodes[a.v].Param? && a.at.depth <= MAX_DEPTH
    ensures forall w | w in LocalNext(p, c, a.at.f, a.at.scope, a.v) :: p.Has(w) && StepsOf(p, c)(a, Point(w, a.at))
    ensures forall z | StepsOf(p, c)(a, z) :: z.v in LocalNext(p, c, a.at.f, a.at.scope, a.v)
  {
    LocalOriginsExist(p, c, a.at.f, a.at.scope, a.v);
  }

  method SearchOrigins(p: Program, c: Context, m: Models, use: Key, a: Point, before: Found,
                       next: seq<Value>, start: Found)
    returns (now: Found)
    requires ValidContext(p, c) && a.v !in before.seen && p.Has(a.v)
    requires forall w | w in next :: p.Has(w) && StepsOf(p, c)(a, Point(w, a.at))
    requires AtOrigins(p, c, m, use, a, before, {}, start)
    ensures AtOrigins(p, c, m, use, a, before, Items(next), now)
    decreases UpTo(|p.nodes|) - before.seen, 0
  {
    now := start;
    ghost var st, hit := StepsOf(p, c), HitsOf(p, c, m, use);
    assert Items(next[..0]) == {};
    for j := 0 to |next|
      invariant AtOrigins(p, c, m, use, a, before, Items(next[..j]), now)
    {
      PrefixGrows(next, j);
      assert next[j] in next;
      ghost var f1, z := now, Point(next[j], a.at);
      now := IsCheckedBackward(p, c, m, use, Point(next[j], a.at), now);
      AtNextPoint(st, hit, a, before, Items(next[..j]), f1, z, now);
      assert Items(next[..j + 1]) == Items(next[..j]) + {next[j]};
    }
    PrefixIsAll(next);
  }

  /** The point at a call site, if the call passes the argument on. */
  ghost function CallSite(p: Program, a: Point, call: Value): set<Point> {
    if p.Has(call) && PassedArg(p, a.at.f, a.v, call).Some?
    then {AtCaller(p, call, a.at.depth, PassedArg(p, a.at.f, a.v, call).value)} else {}
  }

  ghost function PassedValues(p: Program, a: Point, calls: set<Value>): set<Value> {
    set call, z | call in calls && z in CallSite(p, a, call) :: z.v
  }

  lemma PassedByOneMore(p: Program, a: Point, calls: set<Value>, call: Value)
    ensures PassedValues(p, a, calls + {call}) ==
            PassedValues(p, a, calls) +
            if PassedArg(p, a.at.f, a.v, call).Some? then {PassedArg(p, a.at.f, a.v, call).value} else {}
  {
    forall w
      ensures (exists z :: z in CallSite(p, a, call) && z.v == w) <==> PassedArg(p, a.at.f, a.v, call) == Some(w)
    {
      if PassedArg(p, a.at.f, a.v, call) == Some(w) {
        assert AtCaller(p, call, a.at.depth, w) in CallSite(p, a, call);
      }
    }
  }

  lemma CallerSteps(p: Program, c: Context, a: Point, call: Value)
    requires p.Has(a.v) && p.nodes[a.v].Param? && call in CallersOf(c, p.nodes[a.v].fn) && a.at.depth <= MAX_DEPTH
    ensures forall z | z in CallSite(p, a, call) :: p.Has(z.v) && StepsOf(p, c)(a, z)
  {
    if p.Has(call) && PassedArg(p, a.at.f, a.v, call).Some? {
      var arg := PassedArg(p, a.at.f, a.v, call).value;
      assert arg in p.nodes[call].args;
      assert forall x | x in p.nodes[call].args :: x in p.nodes[call].args + [p.nodes[call].called];
      OperandsExist(p, call, arg);
    }
  }

  lemma AllCallerSteps(p: Program, c: Context, a: Point)
    requires p.Has(a.v) && p.nodes[a.v].Param? && a.at.depth <= MAX_DEPTH
    ensures forall z | StepsOf(p, c)(a, z) :: z.v in PassedValues(p, a, CallersOf(c, p.nodes[a.v].fn))
  {
    var calls := CallersOf(c, p.nodes[a.v].fn);
    forall z | StepsOf(p, c)(a, z) ensures z.v in PassedValues(p, a, calls) {
      var call :| call in calls && p.Has(call) && PassedArg(p, a.at.f, a.v, call).Some?
                  && z == AtCaller(p, call, a.at.depth, PassedArg(p, a.at.f, a.v, call).value);
      assert z in CallSite(p, a, call);
    }
  }

  /** The search goes on at one call site with the blocks before the call. */
  method SearchCaller(p: Program, c: Context, m: Models, use: Key, a: Point, before: Found,
                      ghost calls: set<Value>, call: Value, start: Found)
    returns (now: Found)
    requires p.Has(a.v) && p.nodes[a.v].Param? && ValidContext(p, c) && a.v !in before.seen && a.at.depth <= MAX_DEPTH
    requires p.Has(call) && call in CallersOf(c, p.nodes[a.v].fn)
    requires AtOrigins(p, c, m, use, a, before, PassedValues(p, a, calls), start)
    ensures AtOrigins(p, c, m, use, a, before, PassedValues(p, a, calls + {call}), now)
    decreases UpTo(|p.nodes|) - before.seen, 0
  {
    now := start;
    PassedByOneMore(p, a, calls, call);
    var arg := PassedArg(p, a.at.f, a.v, call);
    if arg.None? {
      return;
    }
    CallerSteps(p, c, a, call);
    var scope := CollectPredReachBlocks(p.cfg, p.parent[call], {});
    CollectedBackward(p.cfg, p.parent[call], scope);
    var z := Point(arg.value, Place(p.blockFunc[p.parent[call]], scope, a.at.depth + 1));
    assert z in CallSite(p, a, call);
    now := IsCheckedBackward(p, c, m, use, z, now);
    AtNextPoint(StepsOf(p, c), HitsOf(p, c, m, use), a, before, PassedValues(p, a, calls), start, z, now);
  }

  /** A parameter is searched for at every call site, in any order. */
  method SearchCallers(p: Program, c: Context, m: Models, use: Key, a: Point, before: Found,
                       start: Found)
    returns (now: Found)
    requires p.Has(a.v) && p.nodes[a.v].Param? && ValidContext(p, c) && !before.isChecked && a.v !in before.seen
    requires a.at.depth <= MAX_DEPTH && AtOrigins(p, c, m, use, a, before, {}, start)
    ensures SearchedBack(p, c, m, use, a, before, now)
    decreases UpTo(|p.nodes|) - before.seen, 1
  {
    now := start;
    ghost var st, hit := StepsOf(p, c), HitsOf(p, c, m, use);
    var calls := CallersOf(c, p.nodes[a.v].fn);
    var rest := calls;
    assert PassedValues(p, a, {}) == {};
    TakeNone(calls);
    while rest != {}
      invariant rest <= calls && AtOrigins(p, c, m, use, a, before, PassedValues(p, a, calls - rest), now)
    {
      var call :| call in rest;
      now := SearchCaller(p, c, m, use, a, before, calls - rest, call, now);
      TakeOne(calls, rest, call);
      if now.isChecked {
        AtPointChecked(st, hit, a, before, PassedValues(p, a, calls - (rest - {call})), now);
        return;
      }
      rest := rest - {call};
    }
    AllCallerSteps(p, c, a);
    AtPointEnd(st, hit, a, before, PassedValues(p, a, calls), now);
  }

  // ---------- what the answers mean ----------

  /** A value the given one comes from, inside the function, is checked. */
  ghost predicate CheckedLocally(p: Program, c: Context, m: Models, use: Key, a: Point) {
    exists x: Value :: Reaches(LocalFlow(p, c, a.at.f, a.at.scope), a.v, x) && CheckedAt(p, c, m, use, Point(x, a.at))
  }

  /** Where no parameter is met, all points lie at the same place. */
  lemma {:induction false} LocalChain(p: Program, c: Context, a: Point, z: Point, n: nat)
    requires LeadsIn(StepsOf(p, c), a, z, n) && StaysLocal(p, c, a.at, a.v)
    ensures z.at == a.at && Reaches(LocalFlow(p, c, a.at.f, a.at.scope), a.v, z.v)
    decreases n
  {
    var g := LocalFlow(p, c, a.at.f, a.at.scope);
    ReachSelf(g, a.v);
    if n > 0 {
      var y :| StepsOf(p, c)(a, y) && LeadsIn(StepsOf(p, c), y, z, n - 1);
      KidStaysLocal(p, c, a.at, a.v, y.v);
      LocalChain(p, c, y, z, n - 1);
      ReachFirst(g, a.v, y.v, z.v);
    }
  }

  lemma {:induction false} LocalReach(p: Program, c: Context, a: Point, x: Value, n: nat)
    requires ReachesIn(LocalFlow(p, c, a.at.f, a.at.scope), a.v, x, n) && StaysLocal(p, c, a.at, a.v)
    requires a.at.depth <= MAX_DEPTH
    ensures LeadsIn(StepsOf(p, c), a, Point(x, a.at), n)
    decreases n
  {
    if n > 0 {
      var g := LocalFlow(p, c, a.at.f, a.at.scope);
      var k :| k in g(a.v) && ReachesIn(g, k, x, n - 1);
      ReachSelf(g, a.v);
      KidStaysLocal(p, c, a.at, a.v, k);
      assert StepsOf(p, c)(a, Point(k, a.at));
      LocalReach(p, c, Point(k, a.at), x, n - 1);
    }
  }

  /** There every value has one place, and a witness is a checked value inside the function. */
  lemma LocalIsOnePlace(p: Program, c: Context, m: Models, use: Key, a: Point)
    requires StaysLocal(p, c, a.at, a.v) && a.at.depth <= MAX_DEPTH
    ensures OnePlaceEach(StepsOf(p, c), a)
    ensures HasWitness(p, c, m, use, a) <==> CheckedLocally(p, c, m, use, a)
  {
    forall z | Leads(StepsOf(p, c), a, z)
      ensures z.at == a.at && Reaches(LocalFlow(p, c, a.at.f, a.at.scope), a.v, z.v)
    {
      var n: nat :| LeadsIn(StepsOf(p, c), a, z, n);
      LocalChain(p, c, a, z, n);
    }
    forall x: Value | Reaches(LocalFlow(p, c, a.at.f, a.at.scope), a.v, x)
      ensures Leads(StepsOf(p, c), a, Point(x, a.at))
    {
      var n: nat :| ReachesIn(LocalFlow(p, c, a.at.f, a.at.scope), a.v, x, n);
      LocalReach(p, c, a, x, n);
    }
    if HasWitness(p, c, m, use, a) {
      var z :| Leads(StepsOf(p, c), a, z) && HitsOf(p, c, m, use)(z);
      assert z == Point(z.v, a.at);
    }
    if CheckedLocally(p, c, m, use, a) {
      var x: Value :| Reaches(LocalFlow(p, c, a.at.f, a.at.scope), a.v, x) && CheckedAt(p, c, m, use, Point(x, a.at));
      assert HitsOf(p, c, m, use)(Point(x, a.at));
    }
  }

  /**
    The answer for one use: a yes always has a witness, even one that repeats no value; after a no
    every value that was met is met at a point that is not checked. Where no value is met at two
    places the answer is exact, in particular where no parameter is met.
  */
  method UseIsChecked(p: Program, c: Context, m: Models, use: Key, f: Func, v: Value, scope: set<Block>)
    returns (isChecked: bool)
    requires p.Has(v) && ValidContext(p, c)
    ensures isChecked ==> HasWitness(p, c, m, use, Point(v, Place(f, scope, 1)))
    ensures isChecked ==> FreshChain(StepsOf(p, c), HitsOf(p, c, m, use), Point(v, Place(f, scope, 1)), {})
    ensures !isChecked ==> HasCover(StepsOf(p, c), HitsOf(p, c, m, use), Point(v, Place(f, scope, 1)))
    ensures CheckedAt(p, c, m, use, Point(v, Place(f, scope, 1))) ==> isChecked
    ensures OnePlaceEach(StepsOf(p, c), Point(v, Place(f, scope, 1))) ==>
              (isChecked <==> HasWitness(p, c, m, use, Point(v, Place(f, scope, 1))))
    ensures StaysLocal(p, c, Place(f, scope, 1), v) ==>
              (isChecked <==> CheckedLocally(p, c, m, use, Point(v, Place(f, scope, 1))))
  {
    ghost var a, st, hit := Point(v, Place(f, scope, 1)), StepsOf(p, c), HitsOf(p, c, m, use);
    var found := IsCheckedBackward(p, c, m, use, Point(v, Place(f, scope, 1)), Found({}, false));
    isChecked := found.isChecked;
    if isChecked {
      FreshChainLeads(st, hit, a, {});
    } else {
      NoHasCover(st, hit, a, found);
    }
    if OnePlaceEach(st, a) {
      AnswerIsExact(st, hit, a, found);
    }
    if StaysLocal(p, c, a.at, v) {
      LocalIsOnePlace(p, c, m, use, a);
    }
  }
}
