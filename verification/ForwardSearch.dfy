/** Is a source ever checked: one shared search. */
module ForwardSearch {
  import opened Graphs
  import opened ControlFlow
  import opened Ir
  import opened ErrorFlow
  import opened Slicing
  import opened Ledger

  /** What earlier passes provide: aliases, the call graph, checks, and facts about types and calls. */
  datatype Context = Context(
    aliases: Aliases,
    checkInsts: map<Func, set<Value>>,
    callers: map<Func, set<Value>>,
    callees: map<Value, seq<Func>>,
    unified: set<Func>,
    pointers: set<Value>,
    intrinsics: set<Value>)

  predicate IsCheckInst(c: Context, f: Func, i: Value) {
    f in c.checkInsts && i in c.checkInsts[f]
  }

  /** One search: where, for which source, and in which blocks. */
  datatype Query = Query(f: Func, key: Key, scope: set<Block>)

  /** What one user of a value means for the search. */
  datatype Use = Checks | Flows | StoredAt(ptr: Value) | Nothing

  function UseOf(p: Program, c: Context, m: Models, q: Query, v: Value, u: Value): Use {
    if !p.Has(u) || !p.nodes[u].IsInstruction() || p.parent[u] !in q.scope then Nothing
    else
      match p.nodes[u]
      case Cmp(_, _, _) => if InModeledCheckSet(p, m, u, q.key) then Checks else Nothing
      case Switch(_) => Checks
      case Call(_, _, _, _, _, _) => if IsCheckInst(c, q.f, u) then Checks else Nothing
      case Return(_) => Checks
      case Store(val, ptr) => if val == v then StoredAt(ptr) else Nothing
      case Gep(ptr, _) => if ptr == v then Flows else Nothing
      case Phi(_) => Flows
      case Load(_) => Flows
      case Alloca(_) => Flows
      case OtherUnary(_, _) => Flows
      case Binary(_, _) => Flows
      case _ => Nothing
  }

  /** The loads of all aliases of a pointer. */
  ghost function AliasLoads(p: Program, aliases: set<Value>): set<Value> {
    set a, l | a in aliases && l in LoadsFrom(p, a) :: l
  }

  ghost function UseNext(p: Program, c: Context, m: Models, q: Query, v: Value, u: Value): set<Value> {
    match UseOf(p, c, m, q, v, u)
    case Flows => {u}
    case StoredAt(ptr) => AliasLoads(p, GetAliasPointers(c.aliases, q.f, ptr))
    case _ => {}
  }

  ghost function UsesNext(p: Program, c: Context, m: Models, q: Query, v: Value, us: set<Value>): set<Value> {
    set u, x | u in us && x in UseNext(p, c, m, q, v, u) :: x
  }

  /** The forward value flow within the scope. */
  ghost function FlowForward(p: Program, c: Context, m: Models, q: Query): Graph {
    (v: Value) => if p.Has(v) then UsesNext(p, c, m, q, v, Items(p.users[v])) else {}
  }

  /** Some user of the value in the scope checks it. */
  ghost function CheckedHere(p: Program, c: Context, m: Models, q: Query): Value -> bool {
    (v: Value) => p.Has(v) && exists u | u in p.users[v] :: UseOf(p, c, m, q, v, u) == Checks
  }

  /** The value, or something it flows to, is a hit. */
  ghost predicate LeadsToHit(g: Graph, hit: Value -> bool, v: Value) {
    exists x: Value :: Reaches(g, v, x) && hit(x)
  }

  /** The value, or something it flows to, is checked. */
  ghost predicate CheckedForward(p: Program, c: Context, m: Models, q: Query, v: Value) {
    LeadsToHit(FlowForward(p, c, m, q), CheckedHere(p, c, m, q), v)
  }

  lemma LeadsThrough(g: Graph, hit: Value -> bool, v: Value, k: Value)
    requires k in g(v) && LeadsToHit(g, hit, k)
    ensures LeadsToHit(g, hit, v)
  {
    var x: Value :| Reaches(g, k, x) && hit(x);
    ReachFirst(g, v, k, x);
  }

  /** Visited values and the answer so far. */
  datatype Found = Found(seen: set<Value>, isChecked: bool)

  ghost predicate NoHit(hit: Value -> bool, vs: set<Value>) {
    forall x | x in vs :: !hit(x)
  }

  /** What a search from v adds: a witness, or a fully explored part without any hit. */
  ghost predicate Searched(g: Graph, hit: Value -> bool, v: Value, before: Found, after: Found) {
    && before.seen <= after.seen
    && (before.isChecked ==> after == before)
    && (after.isChecked && !before.isChecked ==> LeadsToHit(g, hit, v))
    && (!after.isChecked ==> Explored(g, before.seen, v, after.seen) && NoHit(hit, after.seen - before.seen))
  }

  /** The search is at v: part of its users is dealt with. */
  ghost predicate AtValue(g: Graph, hit: Value -> bool, v: Value, before: Found, kids: set<Value>, now: Found) {
    && before.seen + {v} <= now.seen
    && (now.isChecked ==> LeadsToHit(g, hit, v))
    && (!now.isChecked ==>
          Exploring(g, before.seen, v, kids, now.seen) && NoHit(hit, now.seen - before.seen - {v}))
  }

  lemma AtNextKid(g: Graph, hit: Value -> bool, v: Value, before: Found, kids: set<Value>,
                  f1: Found, k: Value, f2: Found)
    requires AtValue(g, hit, v, before, kids, f1) && k in g(v)
    requires Searched(g, hit, k, f1, f2)
    ensures AtValue(g, hit, v, before, kids + {k}, f2)
  {
    if f2.isChecked && !f1.isChecked {
      LeadsThrough(g, hit, v, k);
    }
    if !f2.isChecked {
      ExploreKid(g, before.seen, v, kids, f1.seen, k, f2.seen);
      assert forall x | x in f2.seen - before.seen - {v} ::
          x in f1.seen - before.seen - {v} || x in f2.seen - f1.seen;
    }
  }

  lemma AtHit(g: Graph, hit: Value -> bool, v: Value)
    requires hit(v)
    ensures LeadsToHit(g, hit, v)
  {
    ReachSelf(g, v);
  }

  lemma OneMoreUser(p: Program, c: Context, m: Models, q: Query, v: Value, us: seq<Value>, i: nat)
    requires i < |us|
    ensures UsesNext(p, c, m, q, v, Items(us[..i + 1])) ==
            UsesNext(p, c, m, q, v, Items(us[..i])) + UseNext(p, c, m, q, v, us[i])
  {
    PrefixGrows(us, i);
  }

  /** The loads of all aliases, aliases in any order. */
  method CollectAliasLoads(p: Program, aliases: set<Value>) returns (loads: seq<Value>)
    requires forall a | a in aliases :: p.Has(a)
    ensures Items(loads) == AliasLoads(p, aliases)
  {
    var rest := aliases;
    loads := [];
    while rest != {}
      invariant rest <= aliases
      invariant Items(loads) == AliasLoads(p, aliases - rest)
    {
      var a :| a in rest;
      var more := LoadsOf(p, a);
      assert forall x :: x in loads + more <==> x in Items(loads) || x in Items(more);
      assert aliases - (rest - {a}) == (aliases - rest) + {a};
      loads, rest := loads + more, rest - {a};
    }
    assert aliases - rest == aliases;
  }

  /** The loads of all aliases of a pointer that lie in the given blocks. */
  ghost function LoadsWithin(p: Program, scope: set<Block>, aliases: set<Value>): set<Value> {
    set l | l in AliasLoads(p, aliases) && p.parent[l] in scope
  }

  method CollectLoadsWithin(p: Program, scope: set<Block>, aliases: set<Value>) returns (within: seq<Value>)
    requires forall a | a in aliases :: p.Has(a)
    ensures Items(within) == LoadsWithin(p, scope, aliases) <= UpTo(|p.nodes|)
  {
    var loads := CollectAliasLoads(p, aliases);
    within := [];
    for i := 0 to |loads|
      invariant forall x :: x in within <==> x in loads[..i] && p.Has(x) && p.parent[x] in scope
    {
      PrefixGrows(loads, i);
      assert loads[i] in Items(loads);
      if p.parent[loads[i]] in scope {
        within := within + [loads[i]];
      }
    }
    PrefixIsAll(loads);
  }

  /** The values to go on with after one user. */
  method NextOfUse(p: Program, c: Context, m: Models, q: Query, v: Value, u: Value) returns (next: seq<Value>)
    requires p.Has(v) && p.Has(u) && ValidAliases(p, c.aliases)
    ensures Items(next) == UseNext(p, c, m, q, v, u)
    ensures Items(next) <= UpTo(|p.nodes|)
  {
    next := [];
    match UseOf(p, c, m, q, v, u) {
      case Flows =>
        next := [u];
      case StoredAt(ptr) =>
        OperandsExist(p, u, p.nodes[u].Operands()[1]);
        next := CollectAliasLoads(p, GetAliasPointers(c.aliases, q.f, ptr));
      case _ =>
    }
  }

  method IsCheckedForward(p: Program, c: Context, m: Models, q: Query, v: Value, before: Found) returns (now: Found)
    requires p.Has(v) && ValidAliases(p, c.aliases)
    ensures Searched(FlowForward(p, c, m, q), CheckedHere(p, c, m, q), v, before, now)
    decreases UpTo(|p.nodes|) - before.seen
  {
    now := before;
    if before.isChecked {
      return;
    }
    ghost var g, hit := FlowForward(p, c, m, q), CheckedHere(p, c, m, q);
    if v in before.seen {
      ExploredBefore(g, before.seen, v);
      return;
    }
    now := before.(seen := before.seen + {v});
    ExploreStart(g, before.seen, v);
    var us := p.users[v];
    assert UsesNext(p, c, m, q, v, Items(us[..0])) == {};
    for i := 0 to |us|
      invariant !now.isChecked && AtValue(g, hit, v, before, UsesNext(p, c, m, q, v, Items(us[..i])), now)
      invariant forall u | u in us[..i] :: UseOf(p, c, m, q, v, u) != Checks
    {
      PrefixGrows(us, i);
      OneMoreUser(p, c, m, q, v, us, i);
      UsersExist(p, v, us[i]);
      if UseOf(p, c, m, q, v, us[i]) == Checks {
        AtHit(g, hit, v);
        return now.(isChecked := true);
      }
      var next := NextOfUse(p, c, m, q, v, us[i]);
      now := SearchKids(p, c, m, q, v, before, UsesNext(p, c, m, q, v, Items(us[..i])), next, now);
      if now.isChecked {
        return;
      }
    }
    PrefixIsAll(us);
  }

  /** Goes on with each of the values one user leads to. */
  method SearchKids(p: Program, c: Context, m: Models, q: Query, v: Value, before: Found, ghost kids: set<Value>,
                    next: seq<Value>, start: Found)
    returns (now: Found)
    requires p.Has(v) && ValidAliases(p, c.aliases) && v !in before.seen && Items(next) <= UpTo(|p.nodes|)
    requires !start.isChecked && AtValue(FlowForward(p, c, m, q), CheckedHere(p, c, m, q), v, before, kids, start)
    requires Items(next) <= FlowForward(p, c, m, q)(v)
    ensures AtValue(FlowForward(p, c, m, q), CheckedHere(p, c, m, q), v, before, kids + Items(next), now)
    decreases UpTo(|p.nodes|) - before.seen, 0
  {
    now := start;
    ghost var g, hit := FlowForward(p, c, m, q), CheckedHere(p, c, m, q);
    assert Items(next[..0]) == {} && kids + {} == kids;
    for j := 0 to |next|
      invariant AtValue(g, hit, v, before, kids + Items(next[..j]), now)
    {
      PrefixGrows(next, j);
      assert next[j] in Items(next);
      ghost var f1 := now;
      now := IsCheckedForward(p, c, m, q, next[j], now);
      AtNextKid(g, hit, v, before, kids + Items(next[..j]), f1, next[j], now);
      assert kids + Items(next[..j + 1]) == kids + Items(next[..j]) + {next[j]};
    }
    PrefixIsAll(next);
  }

  // ---------- all tracked values ----------

  lemma {:induction false} ClosedMeansUnchecked(g: Graph, hit: Value -> bool, roots: set<Value>, seen: set<Value>)
    requires roots <= seen && Closed(g, seen) && NoHit(hit, seen)
    ensures forall r | r in roots :: !LeadsToHit(g, hit, r)
  {
    forall r, x: Value | r in roots && Reaches(g, r, x) ensures !hit(x) {
      ClosedHoldsReach(g, seen, r, x);
    }
  }

  /** Check each tracked value, in any order, with one visited set: the answer is exact. */
  method AnyIsChecked(p: Program, c: Context, m: Models, q: Query, roots: set<Value>) returns (isChecked: bool)
    requires ValidAliases(p, c.aliases) && forall r | r in roots :: p.Has(r)
    ensures isChecked <==> exists r | r in roots :: CheckedForward(p, c, m, q, r)
  {
    var found := Found({}, false);
    ghost var g, hit := FlowForward(p, c, m, q), CheckedHere(p, c, m, q);
    var rest := roots;
    while rest != {}
      invariant rest <= roots && !found.isChecked && roots - rest <= found.seen
      invariant Closed(g, found.seen) && NoHit(hit, found.seen)
    {
      var r :| r in rest;
      ghost var f1 := found;
      found := IsCheckedForward(p, c, m, q, r, found);
      if found.isChecked {
        return true;
      }
      rest := rest - {r};
    }
    ClosedMeansUnchecked(g, hit, roots, found.seen);
    return false;
  }
}
