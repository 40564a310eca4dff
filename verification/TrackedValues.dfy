/** What a check is about, and what it protects. */
module TrackedValues {
  import opened Graphs
  import opened ControlFlow
  import opened Ir
  import opened Slicing
  import opened ForwardSearch
  import opened UseSearch
  import opened CheckedValues

  // ---------- the sources behind a value ----------

  /** Instruction u uses an alias of the address that v loads, in a block from which the load can be reached. */
  ghost predicate UsedEarlier(p: Program, pa: Aliases, v: Value, a: Value, u: Value) {
    && p.Has(v) && p.nodes[v].Load? && AliasOf(pa, p.blockFunc[p.parent[v]], p.nodes[v].ptr, a)
    && p.Has(a) && p.Has(u) && u in p.users[a] && Reaches(p.cfg.Forward(), p.parent[u], p.parent[v])
  }

  predicate IsSource(p: Program, v: Value) {
    p.Has(v) && (p.nodes[v].IsConstant() || p.nodes[v].Param? || p.nodes[v].Alloca? || p.nodes[v].Call?)
  }

  /** The slot of v in a call, or -1 without arguments. */
  predicate IsArgument(args: seq<Value>, v: Value, k: int) {
    if args == [] then k == -1 else IsSlot(args, v, k)
  }

  /** Tracking v finds the source s: v itself, or what an earlier call is given where it takes the address. */
  ghost predicate FindsSource(p: Program, pa: Aliases, v: Value, s: Value) {
    || (IsSource(p, v) && s == v)
    || exists a: Value, u: Value, k: int ::
         && UsedEarlier(p, pa, v, a, u) && p.nodes[u].Call?
         && IsSlot(p.nodes[u].args, a, k) && s == p.nodes[u].args[k]
  }

  /** Tracking v goes on with w. */
  ghost predicate TracksOn(p: Program, pa: Aliases, v: Value, w: Value) {
    && p.Has(v)
    && (|| (p.nodes[v].Load? && w == p.nodes[v].ptr)
        || (exists a: Value, u: Value :: UsedEarlier(p, pa, v, a, u) && p.nodes[u] == Store(w, a))
        || (p.nodes[v].Phi? && exists b: Block :: Incoming(w, b) in p.nodes[v].incoming)
        || (p.nodes[v].Select? && (w == p.nodes[v].tval || w == p.nodes[v].fval))
        || (p.nodes[v].Gep? && w == p.nodes[v].ptr)
        || (p.nodes[v].OtherUnary? && w == p.nodes[v].operand)
        || (p.nodes[v].Binary? && (w == p.nodes[v].lhs || w == p.nodes[v].rhs)))
  }

  ghost function Tracks(p: Program, pa: Aliases): Graph {
    (v: Value) => set w | w in UpTo(|p.nodes|) && TracksOn(p, pa, v, w)
  }

  /** Tracking back from one of the operands finds the target. */
  ghost predicate TrackedBack(p: Program, pa: Aliases, operands: set<Value>, target: Value) {
    exists o: Value, v: Value ::
      o in operands && Reaches(Tracks(p, pa), o, v) && FindsSource(p, pa, v, target)
  }

  lemma SlotMeans(args: seq<Value>, a: Value, s: Value)
    ensures ArgSlot(args, a) == Some(s) <==> exists k: int :: IsSlot(args, a, k) && s == args[k]
  {
    ArgIndexIsSlot(args, a);
    if args != [] {
      assert IsSlot(args, a, ArgIndex(args, a));
    }
  }

  lemma AliasNextMeans(p: Program, pa: Aliases, v: Value, a: Value, w: Value)
    requires p.Has(v) && p.nodes[v].Load? && AliasOf(pa, p.blockFunc[p.parent[v]], p.nodes[v].ptr, a)
    ensures w in AliasNext(p, a, BlocksBefore(p.cfg, p.parent[v])) <==>
            exists u: Value :: UsedEarlier(p, pa, v, a, u) && p.nodes[u] == Store(w, a)
  {
    var reach := BlocksBefore(p.cfg, p.parent[v]);
    if u: Value :| UsedEarlier(p, pa, v, a, u) && p.nodes[u] == Store(w, a) {
      assert u in p.users[a] && AliasUse(p, a, u, reach).0 == Some(w);
    }
    if w in AliasNext(p, a, reach) {
      var u: Value :| u in p.users[a] && AliasUse(p, a, u, reach).0 == Some(w);
      assert UsedEarlier(p, pa, v, a, u) && p.nodes[u] == Store(w, a);
    }
  }

  lemma AliasSourcesMean(p: Program, pa: Aliases, v: Value, a: Value, s: Value)
    requires p.Has(v) && p.nodes[v].Load? && AliasOf(pa, p.blockFunc[p.parent[v]], p.nodes[v].ptr, a)
    ensures s in AliasSources(p, a, BlocksBefore(p.cfg, p.parent[v])) <==>
            exists u: Value, k: int ::
              UsedEarlier(p, pa, v, a, u) && p.nodes[u].Call? && IsSlot(p.nodes[u].args, a, k)
                && s == p.nodes[u].args[k]
  {
    var reach := BlocksBefore(p.cfg, p.parent[v]);
    if u: Value, k: int :| UsedEarlier(p, pa, v, a, u) && p.nodes[u].Call? && IsSlot(p.nodes[u].args, a, k)
                           && s == p.nodes[u].args[k] {
      SlotMeans(p.nodes[u].args, a, s);
      assert u in p.users[a] && AliasUse(p, a, u, reach).1 == Some(s);
    }
    if s in AliasSources(p, a, reach) {
      var u: Value :| u in p.users[a] && AliasUse(p, a, u, reach).1 == Some(s);
      SlotMeans(p.nodes[u].args, a, s);
      assert UsedEarlier(p, pa, v, a, u);
    }
  }

  lemma SourcesMean(p: Program, pa: Aliases, v: Value, s: Value)
    ensures s in SourcesOf(p, pa, v) <==> FindsSource(p, pa, v, s)
  {
    if p.Has(v) && p.nodes[v].Load? {
      var ptrs := LoadAliases(p, pa, v);
      forall a: Value
        ensures a in ptrs <==> AliasOf(pa, p.blockFunc[p.parent[v]], p.nodes[v].ptr, a)
        ensures a in ptrs ==> (s in AliasSources(p, a, BlocksBefore(p.cfg, p.parent[v])) <==>
                  exists u: Value, k: int ::
                    UsedEarlier(p, pa, v, a, u) && p.nodes[u].Call? && IsSlot(p.nodes[u].args, a, k)
                    && s == p.nodes[u].args[k])
      {
        if AliasOf(pa, p.blockFunc[p.parent[v]], p.nodes[v].ptr, a) {
          AliasSourcesMean(p, pa, v, a, s);
        }
      }
    }
  }

  lemma NextMeansTracked(p: Program, pa: Aliases, v: Value, w: Value)
    ensures w in SliceNext(p, pa, v) <==> TracksOn(p, pa, v, w)
  {
    if p.Has(v) && p.nodes[v].Load? {
      var ptrs := LoadAliases(p, pa, v);
      forall a: Value
        ensures a in ptrs <==> AliasOf(pa, p.blockFunc[p.parent[v]], p.nodes[v].ptr, a)
        ensures a in ptrs ==> (w in AliasNext(p, a, BlocksBefore(p.cfg, p.parent[v])) <==>
                  exists u: Value :: UsedEarlier(p, pa, v, a, u) && p.nodes[u] == Store(w, a))
      {
        if AliasOf(pa, p.blockFunc[p.parent[v]], p.nodes[v].ptr, a) {
          AliasNextMeans(p, pa, v, a, w);
        }
      }
    }
    if p.Has(v) && p.nodes[v].Phi? {
      var inc := p.nodes[v].incoming;
      if i :| 0 <= i < |inc| && inc[i].value == w {
        assert Incoming(w, inc[i].block) == inc[i];
      }
    }
  }

  /** The targets of operands are exactly the sources that tracking back from them finds. */
  lemma TargetsMean(p: Program, pa: Aliases, operands: set<Value>, t: Value)
    requires operands <= UpTo(|p.nodes|)
    ensures t in TargetsOf(p, pa, operands) <==> TrackedBack(p, pa, operands, t)
  {
    var g, h := Slice(p, pa), Tracks(p, pa);
    forall x: Value ensures g(x) == h(x) {
      forall w: Value ensures w in g(x) <==> w in h(x) {
        NextMeansTracked(p, pa, x, w);
      }
    }
    forall o: Value, v: Value
      ensures Reaches(g, o, v) && t in SourcesOf(p, pa, v) <==> Reaches(h, o, v) && FindsSource(p, pa, v, t)
    {
      SameReach(g, h, o, v);
      SourcesMean(p, pa, v, t);
    }
    if o: Value, v: Value :| o in operands && Reaches(h, o, v) && FindsSource(p, pa, v, t) {
      assert v in Region(g, UpTo(|p.nodes|), operands);
    }
  }

  // ---------- the uses of a target ----------

  /** Instruction u uses v and is not the check itself. */
  predicate OtherUser(p: Program, d: Border, v: Value, u: Value) {
    p.Has(v) && p.Has(u) && u in p.users[v] && u != d.check && p.nodes[u].IsInstruction()
  }

  /** A use of v after the check: addressing, accessing memory, comparing, or passing it to a call in some slot. */
  predicate IsUse(p: Program, d: Border, v: Value, s: UseSite) {
    && OtherUser(p, d, v, s.inst) && p.parent[s.inst] in d.after
    && (|| (s.argNo == -1 && (|| p.nodes[s.inst].Gep? || p.nodes[s.inst].Cmp?
                              || (p.nodes[s.inst].Load? && p.nodes[s.inst].ptr == v)
                              || (p.nodes[s.inst].Store? && p.nodes[s.inst].ptr == v)))
        || (p.nodes[s.inst].Call? && IsArgument(p.nodes[s.inst].args, v, s.argNo)))
  }

  predicate NotConstant(p: Program, o: Value) {
    !(p.Has(o) && p.nodes[o].IsConstant())
  }

  /** The result of w stands for v as well. */
  predicate StandsFor(p: Program, d: Border, v: Value, w: Value) {
    && OtherUser(p, d, v, w)
    && (|| (p.nodes[w].Gep? && p.parent[w] in d.after && p.nodes[w].ptr == w)
        || (p.nodes[w].Load? && p.nodes[w].ptr != v)
        || (p.nodes[w].Binary? && NotConstant(p, p.nodes[w].lhs) && NotConstant(p, p.nodes[w].rhs))
        || p.nodes[w].Alloca? || (p.nodes[w].OtherUnary? && !p.nodes[w].extract))
  }

  /** Instruction w loads, after the check, where s stores v. */
  predicate LoadedAfter(p: Program, c: Context, d: Border, v: Value, s: Value, a: Value, w: Value) {
    && OtherUser(p, d, v, s) && p.nodes[s].Store? && p.nodes[s].ptr != v
    && AliasOf(c.aliases, p.blockFunc[p.parent[s]], p.nodes[s].ptr, a) && UsedIn(p, d.after, a, w) && p.nodes[w].Load?
  }

  ghost predicate CarriesOn(p: Program, c: Context, d: Border, v: Value, w: Value) {
    StandsFor(p, d, v, w) || exists s: Value, a: Value :: LoadedAfter(p, c, d, v, s, a, w)
  }

  ghost function Carries(p: Program, c: Context, d: Border): Graph {
    (v: Value) => set w | w in UpTo(|p.nodes|) && CarriesOn(p, c, d, v, w)
  }

  lemma UseAtMeans(p: Program, d: Border, v: Value, s: UseSite)
    ensures s in UsesAt(p, d, v) <==> IsUse(p, d, v, s)
  {
    if p.Has(v) && p.Has(s.inst) && p.nodes[s.inst].Call? {
      var args := p.nodes[s.inst].args;
      ArgIndexIsSlot(args, v);
      if args != [] && IsSlot(args, v, s.argNo) {
        SlotIsUnique(args, v, s.argNo, ArgIndex(args, v));
      }
    }
    if IsUse(p, d, v, s) {
      assert UseAt(p, d, v, s.inst) == Some(s);
    }
  }

  lemma WithinMeans(p: Program, scope: set<Block>, pa: Aliases, f: Func, ptr: Value, w: Value)
    ensures w in LoadsWithin(p, scope, GetAliasPointers(pa, f, ptr)) <==>
            exists a: Value :: AliasOf(pa, f, ptr, a) && UsedIn(p, scope, a, w) && p.nodes[w].Load?
  {
    AliasLoadsMean(p, pa, f, ptr, w);
    if a: Value :| AliasOf(pa, f, ptr, a) && UsedIn(p, scope, a, w) && p.nodes[w].Load? {
      assert AliasOf(pa, f, ptr, a) && p.Has(a) && w in p.users[a];
    }
    if w in LoadsWithin(p, scope, GetAliasPointers(pa, f, ptr)) {
      var a: Value :| AliasOf(pa, f, ptr, a) && p.Has(a) && w in p.users[a] && p.Has(w) && p.nodes[w].Load?;
      assert UsedIn(p, scope, a, w);
    }
  }

  lemma UserNextMeans(p: Program, c: Context, d: Border, v: Value, u: Value, w: Value)
    requires p.Has(v) && p.Has(u) && u in p.users[v]
    ensures w in UserNext(p, c, d, v, u) <==>
            (w == u && StandsFor(p, d, v, u)) || exists a: Value :: LoadedAfter(p, c, d, v, u, a, w)
  {
    if SavesIn(p, d, v, u) {
      WithinMeans(p, d.after, c.aliases, FuncOf(p, u), p.nodes[u].ptr, w);
      forall a: Value
        ensures LoadedAfter(p, c, d, v, u, a, w) <==>
                AliasOf(c.aliases, FuncOf(p, u), p.nodes[u].ptr, a) && UsedIn(p, d.after, a, w) && p.nodes[w].Load?
      {
      }
    }
  }

  lemma UseFlowMeans(p: Program, c: Context, d: Border, v: Value)
    ensures UseFlow(p, c, d)(v) == Carries(p, c, d)(v)
  {
    if p.Has(v) {
      forall w: Value ensures w in UseFlow(p, c, d)(v) <==> w in Carries(p, c, d)(v) {
        UseFlowAt(p, c, d, v, w);
      }
    }
  }

  lemma UseFlowAt(p: Program, c: Context, d: Border, v: Value, w: Value)
    requires p.Has(v)
    ensures w in UseFlow(p, c, d)(v) <==> w in Carries(p, c, d)(v)
  {
    forall u | u in p.users[v]
      ensures p.Has(u)
      ensures w in UserNext(p, c, d, v, u) <==>
              (w == u && StandsFor(p, d, v, u)) || exists a: Value :: LoadedAfter(p, c, d, v, u, a, w)
    {
      UsersExist(p, v, u);
      UserNextMeans(p, c, d, v, u, w);
    }
    if w in UseFlow(p, c, d)(v) {
      var u: Value :| u in p.users[v] && w in UserNext(p, c, d, v, u);
      if !StandsFor(p, d, v, w) {
        var a: Value :| LoadedAfter(p, c, d, v, u, a, w);
      }
    }
    if CarriesOn(p, c, d, v, w) {
      if StandsFor(p, d, v, w) {
        assert w in UserNext(p, c, d, v, w);
      } else {
        var s: Value, a: Value :| LoadedAfter(p, c, d, v, s, a, w);
        assert w in UserNext(p, c, d, v, s);
      }
    }
  }

  /** The uses of a target are exactly the uses, after the check, of what stands for it. */
  lemma UsesMean(p: Program, c: Context, d: Border, target: Value, s: UseSite)
    requires p.Has(target)
    ensures s in UsesOfTarget(p, c, d, target) <==>
            exists v: Value :: Reaches(Carries(p, c, d), target, v) && IsUse(p, d, v, s)
  {
    var g, h := UseFlow(p, c, d), Carries(p, c, d);
    forall x: Value ensures g(x) == h(x) {
      UseFlowMeans(p, c, d, x);
    }
    forall v: Value
      ensures Reaches(g, target, v) && s in UsesAt(p, d, v) <==> Reaches(h, target, v) && IsUse(p, d, v, s)
    {
      SameReach(g, h, target, v);
      UseAtMeans(p, d, v, s);
    }
    if v: Value :| Reaches(h, target, v) && IsUse(p, d, v, s) {
      assert v in Region(g, UpTo(|p.nodes|), {target});
    }
  }
}
