/** What counts as checked. */
module CheckedValues {
  import opened Graphs
  import opened ControlFlow
  import opened Ir
  import opened ErrorFlow
  import opened Slicing
  import opened Ledger
  import opened ForwardSearch
  import opened PointSearch
  import opened BackwardSearch

  // ---------- common notions ----------

  predicate AliasOf(pa: Aliases, f: Func, addr: Value, a: Value) {
    a == addr || (f in pa && addr in pa[f] && a in pa[f][addr])
  }

  predicate UsedIn(p: Program, scope: set<Block>, v: Value, u: Value) {
    p.Has(v) && p.Has(u) && u in p.users[v] && p.parent[u] in scope
  }

  /** The call was recorded as a check of its function. */
  predicate RecordedCall(p: Program, c: Context, f: Func, u: Value) {
    p.Has(u) && p.nodes[u].Call? && f in c.checkInsts && u in c.checkInsts[f]
  }

  // ---------- sources, checked later ----------

  /** Instruction u checks the source: a comparison of a checked key, a switch, a return, a recorded call. */
  predicate TestsSource(p: Program, c: Context, checked: set<Key>, q: Query, u: Value) {
    && p.Has(u)
    && (|| (p.nodes[u].Cmp? && q.key in checked)
        || p.nodes[u].Switch? || p.nodes[u].Return? || RecordedCall(p, c, q.f, u))
  }

  /** The result of instruction w is computed from v. */
  predicate ComputedFrom(p: Program, v: Value, w: Value) {
    && p.Has(w)
    && (|| p.nodes[w].Phi? || p.nodes[w].Load? || p.nodes[w].Alloca? || p.nodes[w].OtherUnary? || p.nodes[w].Binary?
        || (p.nodes[w].Gep? && p.nodes[w].ptr == v))
  }

  /** Instruction w loads where instruction s stores v. */
  predicate LoadsStored(p: Program, c: Context, f: Func, v: Value, s: Value, a: Value, w: Value) {
    && p.Has(s) && p.nodes[s].Store? && p.nodes[s].val == v && AliasOf(c.aliases, f, p.nodes[s].ptr, a)
    && p.Has(a) && w in p.users[a] && p.Has(w) && p.nodes[w].Load?
  }

  ghost predicate MovesOn(p: Program, c: Context, q: Query, v: Value, w: Value) {
    || (UsedIn(p, q.scope, v, w) && ComputedFrom(p, v, w))
    || exists s: Value, a: Value :: UsedIn(p, q.scope, v, s) && LoadsStored(p, c, q.f, v, s, a, w)
  }

  ghost function Moves(p: Program, c: Context, q: Query): Graph {
    (v: Value) => set w | w in UpTo(|p.nodes|) && MovesOn(p, c, q, v, w)
  }

  ghost predicate TestedHere(p: Program, c: Context, checked: set<Key>, q: Query, v: Value) {
    exists u: Value :: UsedIn(p, q.scope, v, u) && TestsSource(p, c, checked, q, u)
  }

  /** The source, or something computed from it, is tested in the scope. */
  ghost predicate SourceTested(p: Program, c: Context, checked: set<Key>, q: Query, v: Value) {
    exists x: Value :: Reaches(Moves(p, c, q), v, x) && TestedHere(p, c, checked, q, x)
  }

  lemma UseMeans(p: Program, c: Context, b: Book, q: Query, v: Value, u: Value)
    requires Balanced(b) && p.Has(v) && u in p.users[v]
    ensures UseOf(p, c, b.checks, q, v, u) == Checks <==> UsedIn(p, q.scope, v, u) && TestsSource(p, c, b.checked, q, u)
    ensures UseOf(p, c, b.checks, q, v, u) == Flows <==> UsedIn(p, q.scope, v, u) && ComputedFrom(p, v, u)
    ensures UseOf(p, c, b.checks, q, v, u).StoredAt? <==>
            UsedIn(p, q.scope, v, u) && p.nodes[u].Store? && p.nodes[u].val == v
    ensures UseOf(p, c, b.checks, q, v, u).StoredAt? ==> UseOf(p, c, b.checks, q, v, u).ptr == p.nodes[u].ptr
  {
    UsersExist(p, v, u);
    if p.nodes[u].Cmp? {
      ModeledIsChecked(p, b, u, q.key);
    }
  }

  lemma AliasLoadsMean(p: Program, pa: Aliases, f: Func, ptr: Value, w: Value)
    ensures w in AliasLoads(p, GetAliasPointers(pa, f, ptr)) <==>
            exists a: Value :: AliasOf(pa, f, ptr, a) && p.Has(a) && w in p.users[a] && p.Has(w) && p.nodes[w].Load?
  {
    if a: Value :| AliasOf(pa, f, ptr, a) && p.Has(a) && w in p.users[a] && p.Has(w) && p.nodes[w].Load? {
      assert a in GetAliasPointers(pa, f, ptr) && w in LoadsFrom(p, a);
    }
  }

  lemma NextMeans(p: Program, c: Context, b: Book, q: Query, v: Value, u: Value, w: Value)
    requires Balanced(b) && p.Has(v) && u in p.users[v] && p.Has(w)
    ensures w in UseNext(p, c, b.checks, q, v, u) <==>
            || (w == u && UsedIn(p, q.scope, v, u) && ComputedFrom(p, v, u))
            || exists a: Value :: UsedIn(p, q.scope, v, u) && LoadsStored(p, c, q.f, v, u, a, w)
  {
    UsersExist(p, v, u);
    UseMeans(p, c, b, q, v, u);
    if p.nodes[u].Store? && p.nodes[u].val == v && UsedIn(p, q.scope, v, u) {
      AliasLoadsMean(p, c.aliases, q.f, p.nodes[u].ptr, w);
      forall a: Value
        ensures LoadsStored(p, c, q.f, v, u, a, w) <==>
                AliasOf(c.aliases, q.f, p.nodes[u].ptr, a) && p.Has(a) && w in p.users[a] && p.Has(w)
                  && p.nodes[w].Load?
      {
      }
    }
  }

  lemma FlowMeans(p: Program, c: Context, b: Book, q: Query, v: Value)
    requires Balanced(b) && ValidAliases(p, c.aliases)
    ensures FlowForward(p, c, b.checks, q)(v) == Moves(p, c, q)(v)
  {
    if p.Has(v) {
      forall u, w: Value | u in p.users[v] && w in UseNext(p, c, b.checks, q, v, u) ensures p.Has(w) {
        UsersExist(p, v, u);
      }
      forall w: Value | p.Has(w) ensures w in FlowForward(p, c, b.checks, q)(v) <==> MovesOn(p, c, q, v, w) {
        FlowAt(p, c, b, q, v, w);
      }
    }
  }

  lemma FlowAt(p: Program, c: Context, b: Book, q: Query, v: Value, w: Value)
    requires Balanced(b) && p.Has(v) && p.Has(w)
    ensures w in FlowForward(p, c, b.checks, q)(v) <==> MovesOn(p, c, q, v, w)
  {
    forall u | u in p.users[v]
      ensures w in UseNext(p, c, b.checks, q, v, u) <==>
              || (w == u && UsedIn(p, q.scope, v, u) && ComputedFrom(p, v, u))
              || exists a: Value :: UsedIn(p, q.scope, v, u) && LoadsStored(p, c, q.f, v, u, a, w)
    {
      NextMeans(p, c, b, q, v, u, w);
    }
  }

  lemma HereMeans(p: Program, c: Context, b: Book, q: Query, v: Value)
    requires Balanced(b)
    ensures CheckedHere(p, c, b.checks, q)(v) <==> TestedHere(p, c, b.checked, q, v)
  {
    if p.Has(v) {
      forall u | u in p.users[v]
        ensures p.Has(u)
        ensures UseOf(p, c, b.checks, q, v, u) == Checks <==>
                UsedIn(p, q.scope, v, u) && TestsSource(p, c, b.checked, q, u)
      {
        UsersExist(p, v, u);
        UseMeans(p, c, b, q, v, u);
      }
    }
  }

  /** A source counts as checked exactly when it, or something computed from it, is tested. */
  lemma CheckedForwardMeans(p: Program, c: Context, b: Book, q: Query, v: Value)
    requires Balanced(b) && ValidAliases(p, c.aliases)
    ensures CheckedForward(p, c, b.checks, q, v) <==> SourceTested(p, c, b.checked, q, v)
  {
    var g, h := FlowForward(p, c, b.checks, q), Moves(p, c, q);
    forall x: Value ensures g(x) == h(x) {
      FlowMeans(p, c, b, q, x);
    }
    forall x: Value
      ensures Reaches(g, v, x) && CheckedHere(p, c, b.checks, q)(x) <==>
              Reaches(h, v, x) && TestedHere(p, c, b.checked, q, x)
    {
      SameReach(g, h, v, x);
      HereMeans(p, c, b, q, x);
    }
  }

  /** A comparison of the source itself, anywhere in the scope, counts once the key is checked; so does what follows. */
  lemma TestedSourceIsChecked(p: Program, c: Context, b: Book, q: Query, v: Value, u: Value)
    requires Balanced(b) && ValidAliases(p, c.aliases) && p.Has(v) && u in p.users[v] && p.parent[u] in q.scope
    requires p.Has(u) && ((p.nodes[u].Cmp? && q.key in b.checked) || p.nodes[u].Switch? || p.nodes[u].Return?)
    ensures CheckedForward(p, c, b.checks, q, v)
  {
    CheckedForwardMeans(p, c, b, q, v);
    ReachSelf(Moves(p, c, q), v);
    assert UsedIn(p, q.scope, v, u) && TestsSource(p, c, b.checked, q, u);
    assert TestedHere(p, c, b.checked, q, v);
  }

  /** The same for a source that is saved in a variable and loaded from an alias of it. */
  lemma SavedSourceIsChecked(p: Program, c: Context, b: Book, q: Query, v: Value, s: Value, a: Value, l: Value,
                             u: Value)
    requires Balanced(b) && ValidAliases(p, c.aliases) && p.Has(v) && s in p.users[v] && p.parent[s] in q.scope
    requires p.Has(s) && p.nodes[s].Store? && p.nodes[s].val == v && AliasOf(c.aliases, q.f, p.nodes[s].ptr, a)
    requires p.Has(a) && l in p.users[a] && p.Has(l) && p.nodes[l].Load?
    requires u in p.users[l] && p.parent[u] in q.scope
    requires p.Has(u) && ((p.nodes[u].Cmp? && q.key in b.checked) || p.nodes[u].Switch? || p.nodes[u].Return?)
    ensures CheckedForward(p, c, b.checks, q, v)
  {
    var g := Moves(p, c, q);
    assert UsedIn(p, q.scope, v, s) && LoadsStored(p, c, q.f, v, s, a, l);
    assert MovesOn(p, c, q, v, l) && l in UpTo(|p.nodes|);
    ReachSelf(g, v);
    ReachNext(g, v, v, l);
    CheckedForwardMeans(p, c, b, q, v);
    assert UsedIn(p, q.scope, l, u) && TestsSource(p, c, b.checked, q, u);
    assert TestedHere(p, c, b.checked, q, l);
  }

  // ---------- uses, checked earlier ----------

  /** Instruction u guards the use: a comparison if the key is checked anywhere, a switch, a recorded call. */
  predicate GuardsUse(p: Program, c: Context, checked: set<Key>, key: Key, f: Func, u: Value) {
    && p.Has(u)
    && ((p.nodes[u].Cmp? && key in checked) || p.nodes[u].Switch? || RecordedCall(p, c, f, u))
  }

  /** A value at a place is guarded; arguments are judged where they are passed, and no search goes too deep. */
  ghost predicate GuardedAt(p: Program, c: Context, checked: set<Key>, key: Key, a: Point) {
    && a.at.depth <= 5 && p.Has(a.v) && !p.nodes[a.v].Param?
    && exists u: Value :: UsedIn(p, a.at.scope, a.v, u) && GuardsUse(p, c, checked, key, a.at.f, u)
  }

  /** Something in the scope uses an alias of the address: what it loads or stores is w. */
  predicate FoundAt(p: Program, c: Context, at: Place, addr: Value, a: Value, u: Value, w: Value) {
    && AliasOf(c.aliases, at.f, addr, a) && UsedIn(p, at.scope, a, u)
    && ((p.nodes[u].Load? && w == u) || (p.nodes[u].Store? && w == p.nodes[u].val))
  }

  /** Inside its function v is computed from w. */
  ghost predicate StemsFrom(p: Program, c: Context, at: Place, w: Value, v: Value) {
    && p.Has(v)
    && (|| (p.nodes[v].Load? && exists a: Value, u: Value :: FoundAt(p, c, at, p.nodes[v].ptr, a, u, w))
        || (p.nodes[v].Phi? && exists b: Block :: Incoming(w, b) in p.nodes[v].incoming)
        || (p.nodes[v].Select? && (w == p.nodes[v].tval || w == p.nodes[v].fval))
        || (p.nodes[v].Gep? && w == p.nodes[v].ptr)
        || (p.nodes[v].Alloca? && w == p.nodes[v].size)
        || (p.nodes[v].OtherUnary? && w == p.nodes[v].operand)
        || (p.nodes[v].Binary? && (w == p.nodes[v].lhs || w == p.nodes[v].rhs)))
  }

  /** The slot of v in a list: its first position, or the last slot if it is not there. */
  predicate IsSlot(vs: seq<Value>, v: Value, k: int) {
    && 0 <= k < |vs|
    && ((vs[k] == v && v !in vs[..k]) || (v !in vs && k == |vs| - 1))
  }

  lemma {:induction false} ArgIndexIsSlot(vs: seq<Value>, v: Value)
    ensures vs == [] ==> ArgIndex(vs, v) == -1
    ensures vs != [] ==> IsSlot(vs, v, ArgIndex(vs, v))
    decreases |vs|
  {
    if vs != [] && vs[0] != v && |vs| > 1 {
      ArgIndexIsSlot(vs[1..], v);
      var k := ArgIndex(vs[1..], v);
      assert vs == [vs[0]] + vs[1..];
      assert vs[..k + 1] == [vs[0]] + vs[1..][..k];
    }
  }

  lemma SlotIsUnique(vs: seq<Value>, v: Value, j: int, k: int)
    requires IsSlot(vs, v, j) && IsSlot(vs, v, k)
    ensures j == k
  {
  }

  /** A parameter leads to the argument in its slot, at a call site, with everything before the call and one deeper. */
  ghost predicate PassedAt(p: Program, c: Context, a: Point, call: Value, k: int, z: Point) {
    && p.Has(a.v) && p.nodes[a.v].Param? && p.nodes[a.v].fn in c.callers && call in c.callers[p.nodes[a.v].fn]
    && p.Has(call) && p.nodes[call].Call? && a.at.f < |p.funcs|
    && IsSlot(p.funcs[a.at.f].params, a.v, k) && k < |p.nodes[call].args|
    && z.v == p.nodes[call].args[k] && z.at.f == p.blockFunc[p.parent[call]] && z.at.depth == a.at.depth + 1
    && forall b: Block :: b in z.at.scope <==> p.cfg.HasBlock(b) && Reaches(p.cfg.Forward(), b, p.parent[call])
  }

  ghost predicate MovesBack(p: Program, c: Context, a: Point, z: Point) {
    && a.at.depth <= 5
    && (|| (p.Has(a.v) && !p.nodes[a.v].Param? && z.at == a.at && StemsFrom(p, c, a.at, z.v, a.v))
        || exists call: Value, k: int :: PassedAt(p, c, a, call, k, z))
  }

  ghost function MovesBackOf(p: Program, c: Context): StepRel {
    (a: Point, z: Point) => MovesBack(p, c, a, z)
  }

  /** A chain of steps leads to a guarded value. */
  ghost predicate UseGuarded(p: Program, c: Context, checked: set<Key>, key: Key, a: Point) {
    exists z :: Leads(MovesBackOf(p, c), a, z) && GuardedAt(p, c, checked, key, z)
  }

  lemma HitMeans(p: Program, c: Context, b: Book, key: Key, a: Point)
    requires Balanced(b)
    ensures HitsOf(p, c, b.checks, key)(a) <==> GuardedAt(p, c, b.checked, key, a)
  {
    if p.Has(a.v) {
      forall u | u in p.users[a.v]
        ensures p.Has(u)
        ensures UserChecks(p, c, b.checks, key, a.at, u) <==>
                UsedIn(p, a.at.scope, a.v, u) && GuardsUse(p, c, b.checked, key, a.at.f, u)
      {
        UsersExist(p, a.v, u);
        if p.nodes[u].Cmp? {
          ModeledIsChecked(p, b, u, key);
        }
      }
    }
  }

  lemma BehindMeans(p: Program, c: Context, at: Place, addr: Value, w: Value)
    ensures w in BehindAliases(p, at.scope, GetAliasPointers(c.aliases, at.f, addr)) <==>
            exists a: Value, u: Value :: FoundAt(p, c, at, addr, a, u, w)
  {
    var ptrs := GetAliasPointers(c.aliases, at.f, addr);
    if w in BehindAliases(p, at.scope, ptrs) {
      var a: Value, u: Value :| a in ptrs && p.Has(a) && u in p.users[a] && BehindAlias(p, at.scope, u) == Some(w);
      assert FoundAt(p, c, at, addr, a, u, w);
    }
    if a: Value, u: Value :| FoundAt(p, c, at, addr, a, u, w) {
      assert a in ptrs && p.Has(a) && u in p.users[a] && BehindAlias(p, at.scope, u) == Some(w);
    }
  }

  lemma OriginMeans(p: Program, c: Context, at: Place, v: Value, w: Value)
    ensures w in LocalNext(p, c, at.f, at.scope, v) <==> StemsFrom(p, c, at, w, v)
  {
    if p.Has(v) && p.nodes[v].Load? {
      BehindMeans(p, c, at, p.nodes[v].ptr, w);
    }
    if p.Has(v) && p.nodes[v].Phi? {
      var inc := p.nodes[v].incoming;
      if i :| 0 <= i < |inc| && inc[i].value == w {
        assert Incoming(w, inc[i].block) == inc[i];
      }
    }
  }

  lemma StepAcross(p: Program, c: Context, a: Point, z: Point)
    requires ValidContext(p, c) && p.Has(a.v) && p.nodes[a.v].Param? && a.at.depth <= 5
    ensures StepsOf(p, c)(a, z) <==> exists call: Value, k: int :: PassedAt(p, c, a, call, k, z)
  {
    if a.at.f < |p.funcs| {
      ArgIndexIsSlot(p.funcs[a.at.f].params, a.v);
    }
    var k := if a.at.f < |p.funcs| then ArgIndex(p.funcs[a.at.f].params, a.v) else -1;
    if StepsOf(p, c)(a, z) {
      var call :| call in CallersOf(c, p.nodes[a.v].fn) && p.Has(call) && PassedArg(p, a.at.f, a.v, call).Some?
                  && z == AtCaller(p, call, a.at.depth, PassedArg(p, a.at.f, a.v, call).value);
      assert PassedAt(p, c, a, call, k, z);
    }
    if call: Value, j: int :| PassedAt(p, c, a, call, j, z) {
      SlotIsUnique(p.funcs[a.at.f].params, a.v, j, k);
      assert z.at.scope == BlocksBefore(p.cfg, p.parent[call]);
      assert PassedArg(p, a.at.f, a.v, call) == Some(z.v);
      assert call in CallersOf(c, p.nodes[a.v].fn);
    }
  }

  lemma StepMeans(p: Program, c: Context, a: Point, z: Point)
    requires ValidContext(p, c)
    ensures StepsOf(p, c)(a, z) <==> MovesBackOf(p, c)(a, z)
  {
    if p.Has(a.v) && a.at.depth <= 5 {
      if p.nodes[a.v].Param? {
        StepAcross(p, c, a, z);
      } else {
        OriginMeans(p, c, a.at, a.v, z.v);
        assert forall call: Value, k: int :: !PassedAt(p, c, a, call, k, z);
      }
    }
  }

  lemma {:induction false} SameLeadsIn(st: StepRel, tt: StepRel, a: Point, z: Point, n: nat)
    requires (forall x, y :: st(x, y) <==> tt(x, y)) && LeadsIn(st, a, z, n)
    ensures LeadsIn(tt, a, z, n)
    decreases n
  {
    if n > 0 {
      var y :| st(a, y) && LeadsIn(st, y, z, n - 1);
      SameLeadsIn(st, tt, y, z, n - 1);
    }
  }

  lemma SameLeads(st: StepRel, tt: StepRel, a: Point, z: Point)
    requires forall x, y :: st(x, y) <==> tt(x, y)
    ensures Leads(st, a, z) <==> Leads(tt, a, z)
  {
    if n: nat :| LeadsIn(st, a, z, n) {
      SameLeadsIn(st, tt, a, z, n);
    }
    if n: nat :| LeadsIn(tt, a, z, n) {
      SameLeadsIn(tt, st, a, z, n);
    }
  }

  /** A use has a witness exactly when its argument, or something it is computed from, is guarded. */
  lemma WitnessMeans(p: Program, c: Context, b: Book, key: Key, a: Point)
    requires Balanced(b) && ValidContext(p, c)
    ensures HasWitness(p, c, b.checks, key, a) <==> UseGuarded(p, c, b.checked, key, a)
  {
    var st, tt := StepsOf(p, c), MovesBackOf(p, c);
    forall x, y ensures st(x, y) <==> tt(x, y) {
      StepMeans(p, c, x, y);
    }
    forall z
      ensures Leads(st, a, z) && HitsOf(p, c, b.checks, key)(z) <==>
              Leads(tt, a, z) && GuardedAt(p, c, b.checked, key, z)
    {
      SameLeads(st, tt, a, z);
      HitMeans(p, c, b, key, z);
    }
  }

  lemma CoverStartsUnguarded(p: Program, c: Context, b: Book, key: Key, a: Point)
    requires Balanced(b) && HasCover(StepsOf(p, c), HitsOf(p, c, b.checks, key), a)
    ensures !GuardedAt(p, c, b.checked, key, a)
  {
    HitMeans(p, c, b, key, a);
  }

  /** The answer for a use whose argument is itself guarded is yes, whatever else the search meets. */
  lemma GuardedUseIsChecked(p: Program, c: Context, b: Book, key: Key, a: Point, u: Value, isChecked: bool)
    requires isChecked || HasCover(StepsOf(p, c), HitsOf(p, c, b.checks, key), a)
    requires Balanced(b) && a.at.depth <= 5 && p.Has(a.v) && !p.nodes[a.v].Param? && u in p.users[a.v] && p.Has(u)
    requires p.parent[u] in a.at.scope && ((p.nodes[u].Cmp? && key in b.checked) || p.nodes[u].Switch?)
    ensures isChecked
  {
    assert UsedIn(p, a.at.scope, a.v, u) && GuardsUse(p, c, b.checked, key, a.at.f, u);
    assert GuardedAt(p, c, b.checked, key, a);
    HitMeans(p, c, b, key, a);
  }

  /** A use of a variable to which a guarded value was stored is guarded inside the function. */
  lemma SavedUseIsChecked(p: Program, c: Context, b: Book, key: Key, a: Point, s: Value, ptr: Value, u: Value)
    requires Balanced(b) && ValidContext(p, c) && a.at.depth <= 5
    requires p.Has(a.v) && p.nodes[a.v].Load? && AliasOf(c.aliases, a.at.f, p.nodes[a.v].ptr, ptr)
    requires UsedIn(p, a.at.scope, ptr, s) && p.nodes[s].Store?
    requires p.Has(p.nodes[s].val) && !p.nodes[p.nodes[s].val].Param?
    requires UsedIn(p, a.at.scope, p.nodes[s].val, u)
    requires (p.nodes[u].Cmp? && key in b.checked) || p.nodes[u].Switch?
    ensures CheckedLocally(p, c, b.checks, key, a)
  {
    var w, g := p.nodes[s].val, LocalFlow(p, c, a.at.f, a.at.scope);
    assert FoundAt(p, c, a.at, p.nodes[a.v].ptr, ptr, s, w);
    OriginMeans(p, c, a.at, a.v, w);
    ReachSelf(g, a.v);
    ReachNext(g, a.v, a.v, w);
    assert GuardsUse(p, c, b.checked, key, a.at.f, u);
    assert GuardedAt(p, c, b.checked, key, Point(w, a.at));
    HitMeans(p, c, b, key, Point(w, a.at));
  }
}
