/** The keys of both stages. */
module CheckedKeys {
  import opened Graphs
  import opened ControlFlow
  import opened Ir
  import opened ErrorFlow
  import opened Slicing
  import opened Ledger
  import opened ForwardSearch
  import opened PointSearch
  import opened BackwardSearch
  import opened UseSearch
  import opened CheckStage
  import opened UncheckStage
  import opened MissingChecks
  import opened CheckedValues
  import opened TrackedValues

  // ---------- the keys of stage 1 ----------

  /** A direct call of g: the first callee that was found, or else the called function. */
  predicate CallsFunction(p: Program, c: Context, call: Value, g: Func) {
    && p.Has(call) && p.nodes[call].Call? && p.nodes[call].direct.Some?
    && if call in c.callees && c.callees[call] != [] then c.callees[call][0] == g else p.nodes[call].direct == Some(g)
  }

  /** A check is about t: tracking back from what an integer comparison compares finds t, and t is no constant. */
  ghost predicate IsTarget(p: Program, c: Context, cmp: Value, t: Value) {
    && p.Has(cmp) && p.nodes[cmp].Cmp? && p.nodes[cmp].pred != FloatPredicate
    && p.Has(t) && !p.nodes[t].IsConstant()
    && TrackedBack(p, c.aliases, {p.nodes[cmp].lhs, p.nodes[cmp].rhs}, t)
  }

  /** The result of a direct call: the called function, position -1. */
  ghost predicate ResultStandsFor(p: Program, c: Context, t: Value, k: Key) {
    exists g: Func :: CallsFunction(p, c, t, g) && k == Key(OfFunc(g), -1)
  }

  /** A parameter: every indirect call of the function whose address is taken, at the slot of the parameter. */
  ghost predicate ParameterStandsFor(p: Program, c: Context, f: Func, t: Value, k: Key) {
    && p.Has(t) && p.nodes[t].Param? && f < |p.funcs| && p.funcs[f].addressTaken && f in c.callers
    && exists call: Value, j: int ::
         && call in c.callers[f] && p.Has(call) && p.nodes[call].Call? && p.nodes[call].direct.None?
         && IsArgument(p.funcs[f].params, t, j) && k == Key(OfCall(call), j)
  }

  /** Any other target: every earlier direct call it is passed to, at the slot of the argument. */
  ghost predicate OutputStandsFor(p: Program, c: Context, cmp: Value, t: Value, k: Key) {
    && p.Has(t) && !p.nodes[t].Param? && !p.nodes[t].Call? && p.Has(cmp)
    && exists u: Value, g: Func, j: int ::
         && CallsFunction(p, c, u, g) && u in p.users[t] && IsSlot(p.nodes[u].args, t, j)
         && Reaches(p.cfg.Forward(), p.parent[u], p.parent[cmp]) && k == Key(OfFunc(g), j)
  }

  ghost predicate StandsForSource(p: Program, c: Context, f: Func, cmp: Value, t: Value, k: Key) {
    || ResultStandsFor(p, c, t, k) || ParameterStandsFor(p, c, f, t, k) || OutputStandsFor(p, c, cmp, t, k)
  }

  /** The check checks a source with this key. */
  ghost predicate ChecksSource(p: Program, c: Context, f: Func, cmp: Value, k: Key) {
    exists t: Value :: IsTarget(p, c, cmp, t) && StandsForSource(p, c, f, cmp, t, k)
  }

  /** The check protects a use with this key: a target, or what stands for it, is passed to a direct call later. */
  ghost predicate ProtectsUse(p: Program, c: Context, cmp: Value, k: Key) {
    exists t: Value, v: Value, s: UseSite, g: Func ::
      && IsTarget(p, c, cmp, t)
      && Reaches(Carries(p, c, Border(cmp, BlocksAfter(p.cfg, p.parent[cmp]))), t, v)
      && IsUse(p, Border(cmp, BlocksAfter(p.cfg, p.parent[cmp])), v, s)
      && CallsFunction(p, c, s.inst, g) && k == Key(OfFunc(g), s.argNo)
  }

  lemma ResolvedMeans(p: Program, c: Context, call: Value, g: Func)
    requires p.Has(call) && p.nodes[call].Call?
    ensures Resolved(p, c, call) == Some(g) <==> CallsFunction(p, c, call, g)
  {
  }

  lemma TargetMeans(p: Program, c: Context, cmp: Value, t: Value)
    requires p.Has(cmp) && p.nodes[cmp].Cmp?
    ensures t in CheckedTargets(p, c, cmp) <==> IsTarget(p, c, cmp, t)
  {
    var os := Items(CheckedOperands(p.nodes[cmp]));
    CheckedOperandsExist(p, cmp);
    TargetsMean(p, c.aliases, os, t);
    if p.nodes[cmp].pred != FloatPredicate {
      assert os == {p.nodes[cmp].lhs, p.nodes[cmp].rhs};
    }
  }

  lemma CallKeys(p: Program, c: Context, t: Value, k: Key)
    requires p.Has(t) && p.nodes[t].Call?
    ensures ResultKey(p, c, t) == Some(k) <==> ResultStandsFor(p, c, t, k)
  {
    if g: Func :| CallsFunction(p, c, t, g) && k == Key(OfFunc(g), -1) {
      ResolvedMeans(p, c, t, g);
    }
    if ResultKey(p, c, t) == Some(k) {
      ResolvedMeans(p, c, t, Resolved(p, c, t).value);
    }
  }

  lemma ParameterKeys(p: Program, c: Context, f: Func, cmp: Value, t: Value, k: Key)
    requires p.Has(t) && p.nodes[t].Param? && f < |p.funcs|
    ensures HasKey(ArgumentSites(p, c, f, cmp, t), k) <==> ParameterStandsFor(p, c, f, t, k)
  {
    var ps := p.funcs[f].params;
    ArgIndexIsSlot(ps, t);
    assert IsArgument(ps, t, ArgIndex(ps, t));
    if s :| s in ArgumentSites(p, c, f, cmp, t) && s.key == k {
      assert s.at >= 0;
      var call: Value := s.at;
      assert call in c.callers[f] && CallerKey(p, f, t, call) == Some(k);
    }
    if ParameterStandsFor(p, c, f, t, k) {
      var call: Value, j: int :| call in c.callers[f] && p.Has(call) && p.nodes[call].Call?
        && p.nodes[call].direct.None?
                                 && IsArgument(ps, t, j) && k == Key(OfCall(call), j);
      if ps != [] {
        SlotIsUnique(ps, t, j, ArgIndex(ps, t));
      }
      assert Site(cmp, t, call, k) in ArgumentSites(p, c, f, cmp, t);
    }
  }

  lemma OutputKeys(p: Program, c: Context, cmp: Value, t: Value, k: Key)
    requires p.Has(t) && p.Has(cmp) && !p.nodes[t].Param? && !p.nodes[t].Call?
    ensures var ss := OutputSites(p, c, BlocksBefore(p.cfg, p.parent[cmp]), cmp, t, p.users[t]);
            HasKey(ss, k) <==> OutputStandsFor(p, c, cmp, t, k)
  {
    var reach, us := BlocksBefore(p.cfg, p.parent[cmp]), p.users[t];
    var ss := OutputSites(p, c, reach, cmp, t, us);
    if s :| s in ss && s.key == k {
      var u := us[s.at];
      ArgIndexIsSlot(p.nodes[u].args, t);
      ResolvedMeans(p, c, u, Resolved(p, c, u).value);
      assert CallsFunction(p, c, u, Resolved(p, c, u).value) && u in us;
    }
    if OutputStandsFor(p, c, cmp, t, k) {
      var u: Value, g: Func, j: int :|
        CallsFunction(p, c, u, g) && u in us && IsSlot(p.nodes[u].args, t, j)
        && Reaches(p.cfg.Forward(), p.parent[u], p.parent[cmp]) && k == Key(OfFunc(g), j);
      OutputKeyIs(p, c, reach, t, u, g, j);
      var i :| 0 <= i < |us| && us[i] == u;
      assert Site(cmp, t, i, k) in ss;
    }
  }

  lemma OutputKeyIs(p: Program, c: Context, reach: set<Block>, t: Value, u: Value, g: Func, j: int)
    requires CallsFunction(p, c, u, g) && IsSlot(p.nodes[u].args, t, j) && p.parent[u] in reach
    ensures OutputKey(p, c, reach, t, u) == Some(Key(OfFunc(g), j))
  {
    ArgIndexIsSlot(p.nodes[u].args, t);
    SlotIsUnique(p.nodes[u].args, t, j, ArgIndex(p.nodes[u].args, t));
    ResolvedMeans(p, c, u, g);
  }

  lemma TargetKeys(p: Program, c: Context, f: Func, cmp: Value, t: Value, k: Key)
    requires p.Has(t) && p.Has(cmp) && f < |p.funcs|
    ensures HasKey(TargetSites(p, c, f, BlocksBefore(p.cfg, p.parent[cmp]), cmp, t), k) <==>
            StandsForSource(p, c, f, cmp, t, k)
  {
    match p.nodes[t] {
      case Param(_, _) =>
        ParameterKeys(p, c, f, cmp, t, k);
      case Call(_, _, _, _, _, _) =>
        CallKeys(p, c, t, k);
        if ResultKey(p, c, t) == Some(k) {
          assert Site(cmp, t, 0, k) in SiteSet(cmp, t, 0, ResultKey(p, c, t));
        }
      case _ =>
        OutputKeys(p, c, cmp, t, k);
    }
  }

  /** The keys that one check is recorded for as a source are exactly those its targets stand for. */
  lemma SourceKeysMean(p: Program, c: Context, f: Func, cmp: Value, k: Key)
    requires p.Has(cmp) && p.nodes[cmp].Cmp? && f < |p.funcs|
    ensures HasKey(SrcSites(p, c, f, cmp), k) <==> ChecksSource(p, c, f, cmp, k)
  {
    var g := Sources(p, c, f, BlocksBefore(p.cfg, p.parent[cmp]), cmp);
    forall t: Value
      ensures t in CheckedTargets(p, c, cmp) && HasKey(g(t), k) <==>
              IsTarget(p, c, cmp, t) && StandsForSource(p, c, f, cmp, t, k)
    {
      TargetMeans(p, c, cmp, t);
      if p.Has(t) {
        TargetKeys(p, c, f, cmp, t, k);
      }
    }
    KeysOver(CheckedTargets(p, c, cmp), g, k);
  }

  /** Some site has the key. */
  ghost predicate HasKey(ss: set<Site>, k: Key) {
    exists s :: s in ss && s.key == k
  }

  lemma KeysOver(ts: set<Value>, sitesOf: Value -> set<Site>, k: Key)
    ensures HasKey(SitesOver(ts, sitesOf), k) <==>
            exists t: Value :: t in ts && HasKey(sitesOf(t), k)
  {
    if t: Value :| t in ts && HasKey(sitesOf(t), k) {
      var s :| s in sitesOf(t) && s.key == k;
      assert s in SitesOver(ts, sitesOf);
    }
  }

  lemma UseSiteKeys(p: Program, c: Context, cmp: Value, t: Value, ss: set<UseSite>, k: Key)
    ensures HasKey(SitesOfUses(p, c, cmp, t, ss), k) <==>
            exists s: UseSite, g: Func :: s in ss && CallsFunction(p, c, s.inst, g) && k == Key(OfFunc(g), s.argNo)
  {
    if s: UseSite, g: Func :| s in ss && CallsFunction(p, c, s.inst, g) && k == Key(OfFunc(g), s.argNo) {
      ResolvedMeans(p, c, s.inst, g);
      assert Site(cmp, t, s.inst, k) in SitesOfUses(p, c, cmp, t, ss);
    }
    if x :| x in SitesOfUses(p, c, cmp, t, ss) && x.key == k {
      var s :| s in ss && UseKey(p, c, s) == Some(k);
      ResolvedMeans(p, c, s.inst, Resolved(p, c, s.inst).value);
    }
  }

  lemma ProtectedKeys(p: Program, c: Context, cmp: Value, t: Value, k: Key)
    requires p.Has(cmp) && p.Has(t)
    ensures HasKey(ProtectedSites(p, c, cmp, t), k) <==>
            exists v: Value, s: UseSite, g: Func ::
              && Reaches(Carries(p, c, Border(cmp, BlocksAfter(p.cfg, p.parent[cmp]))), t, v)
              && IsUse(p, Border(cmp, BlocksAfter(p.cfg, p.parent[cmp])), v, s)
              && CallsFunction(p, c, s.inst, g) && k == Key(OfFunc(g), s.argNo)
  {
    var d := Border(cmp, BlocksAfter(p.cfg, p.parent[cmp]));
    var ss := UsesOfTarget(p, c, d, t);
    UseSiteKeys(p, c, cmp, t, ss, k);
    forall s ensures s in ss <==> exists v: Value :: Reaches(Carries(p, c, d), t, v) && IsUse(p, d, v, s) {
      UsesMean(p, c, d, t, s);
    }
  }

  /** The keys that one check is recorded for as protecting a use are exactly those of later calls. */
  lemma UseKeysMean(p: Program, c: Context, cmp: Value, k: Key)
    requires p.Has(cmp) && p.nodes[cmp].Cmp?
    ensures HasKey(UseSites(p, c, cmp), k) <==> ProtectsUse(p, c, cmp, k)
  {
    forall t: Value
      ensures t in CheckedTargets(p, c, cmp) <==> IsTarget(p, c, cmp, t)
      ensures p.Has(t) ==> (HasKey(ProtectedSites(p, c, cmp, t), k) <==>
                exists v: Value, s: UseSite, g: Func ::
                  && Reaches(Carries(p, c, Border(cmp, BlocksAfter(p.cfg, p.parent[cmp]))), t, v)
                  && IsUse(p, Border(cmp, BlocksAfter(p.cfg, p.parent[cmp])), v, s)
                  && CallsFunction(p, c, s.inst, g) && k == Key(OfFunc(g), s.argNo))
    {
      TargetMeans(p, c, cmp, t);
      if p.Has(t) {
        ProtectedKeys(p, c, cmp, t, k);
      }
    }
    KeysOver(CheckedTargets(p, c, cmp), Protected(p, c, cmp), k);
  }

  // ---------- the keys of a whole run ----------

  /** The function stands for its hash and has at least one block and at most 500. */
  predicate TakesPart(p: Program, c: Context, f: Func) {
    f < |p.funcs| && f in c.unified && 1 <= |p.funcs[f].blocks| <= 500
  }

  /** A check of such a function that is a comparison. */
  predicate ComparedIn(p: Program, c: Context, f: Func, cmp: Value) {
    TakesPart(p, c, f) && f in c.checkInsts && cmp in c.checkInsts[f] && p.Has(cmp) && p.nodes[cmp].Cmp?
  }

  /** An instruction of such a function. */
  predicate AnalysedIn(p: Program, c: Context, f: Func, i: Value) {
    TakesPart(p, c, f) && exists b | b in p.funcs[f].blocks && b < |p.body| :: i in p.body[b]
  }

  lemma CodeIs(p: Program, c: Context, f: Func, i: Value)
    ensures AnalysedIn(p, c, f, i) <==> Analysed(p, c, f) && i in CodeOf(p, f)
  {
    if f < |p.funcs| {
      InstructionsOfBlocks(p, p.funcs[f].blocks, i);
    }
  }

  lemma ComparedAre(p: Program, c: Context, f: Func)
    ensures forall cmp: Value :: ComparedIn(p, c, f, cmp) <==> Analysed(p, c, f) && cmp in ChecksOf(p, c, f)
  {
  }

  /** An analysed function has such a check. */
  ghost predicate SourceCheckedIn(p: Program, c: Context, fs: seq<Func>, k: Key) {
    exists f: Func, cmp: Value :: f in fs && ComparedIn(p, c, f, cmp) && ChecksSource(p, c, f, cmp, k)
  }

  ghost predicate UseCheckedIn(p: Program, c: Context, fs: seq<Func>, k: Key) {
    exists f: Func, cmp: Value :: f in fs && ComparedIn(p, c, f, cmp) && ProtectsUse(p, c, cmp, k)
  }

  lemma FuncSourceKeys(p: Program, c: Context, f: Func, k: Key)
    ensures HasKey(FuncSrcSites(p, c, f), k) <==> SourceCheckedIn(p, c, [f], k)
  {
    ComparedAre(p, c, f);
    if Analysed(p, c, f) {
      KeysOver(ChecksOf(p, c, f), SrcSitesOf(p, c, f), k);
      forall cmp | cmp in ChecksOf(p, c, f)
        ensures HasKey(SrcSitesOf(p, c, f)(cmp), k) <==> ChecksSource(p, c, f, cmp, k)
      {
        SourceKeysMean(p, c, f, cmp, k);
      }
    }
  }

  lemma FuncUseKeys(p: Program, c: Context, f: Func, k: Key)
    ensures HasKey(FuncUseSites(p, c, f), k) <==> UseCheckedIn(p, c, [f], k)
  {
    ComparedAre(p, c, f);
    if Analysed(p, c, f) {
      KeysOver(ChecksOf(p, c, f), UseSitesOf(p, c), k);
      forall cmp | cmp in ChecksOf(p, c, f)
        ensures HasKey(UseSitesOf(p, c)(cmp), k) <==> ProtectsUse(p, c, cmp, k)
      {
        UseKeysMean(p, c, cmp, k);
      }
    }
  }

  lemma CheckedInOneMore(p: Program, c: Context, fs: seq<Func>, f: Func, k: Key)
    ensures SourceCheckedIn(p, c, fs + [f], k) <==> SourceCheckedIn(p, c, fs, k) || SourceCheckedIn(p, c, [f], k)
    ensures UseCheckedIn(p, c, fs + [f], k) <==> UseCheckedIn(p, c, fs, k) || UseCheckedIn(p, c, [f], k)
  {
    assert forall g :: g in fs + [f] <==> g in fs || g in [f];
  }

  lemma KeysJoin(a: multiset<Site>, b: set<Site>, k: Key)
    ensures k in KeysIn(a + multiset(b)) <==> k in KeysIn(a) || HasKey(b, k)
  {
    assert forall s :: s in a + multiset(b) <==> s in a || s in b;
  }

  /** The keys of a stage over functions are exactly those that some analysed function checks or protects. */
  lemma {:induction false} ModuleKeysMean(p: Program, c: Context, fs: seq<Func>, k: Key)
    ensures k in KeysIn(ModuleSrcSites(p, c, fs)) <==> SourceCheckedIn(p, c, fs, k)
    ensures k in KeysIn(ModuleUseSites(p, c, fs)) <==> UseCheckedIn(p, c, fs, k)
    decreases |fs|
  {
    if fs != [] {
      var rest, f := fs[..|fs| - 1], fs[|fs| - 1];
      assert fs == rest + [f];
      ModuleKeysMean(p, c, rest, k);
      FuncSourceKeys(p, c, f, k);
      FuncUseKeys(p, c, f, k);
      CheckedInOneMore(p, c, rest, f, k);
      KeysJoin(ModuleSrcSites(p, c, rest), FuncSrcSites(p, c, f), k);
      KeysJoin(ModuleUseSites(p, c, rest), FuncUseSites(p, c, f), k);
    }
  }

  /** Some analysed function has a check that is about the result of a call of g. */
  ghost predicate ResultTested(p: Program, c: Context, fs: seq<Func>, g: Func) {
    exists f: Func, cmp: Value, t: Value ::
      f in fs && ComparedIn(p, c, f, cmp) && IsTarget(p, c, cmp, t) && CallsFunction(p, c, t, g)
  }

  /** The result of g counts as checked exactly when some analysed function checks the result of a call of g. */
  lemma ResultKeyMeans(p: Program, c: Context, fs: seq<Func>, g: Func)
    ensures SourceCheckedIn(p, c, fs, Key(OfFunc(g), -1)) <==> ResultTested(p, c, fs, g)
  {
    var k := Key(OfFunc(g), -1);
    forall f: Func, cmp: Value, t: Value
      ensures StandsForSource(p, c, f, cmp, t, k) <==> CallsFunction(p, c, t, g)
    {
      if CallsFunction(p, c, t, g) {
        assert ResultStandsFor(p, c, t, k);
      }
    }
    if f: Func, cmp: Value, t: Value :|
      f in fs && ComparedIn(p, c, f, cmp) && IsTarget(p, c, cmp, t) && CallsFunction(p, c, t, g)
    {
      assert ChecksSource(p, c, f, cmp, k);
    }
  }

  /** A comparison of the result of a direct call is about that call. */
  lemma ComparedCallIsTarget(p: Program, c: Context, cmp: Value, t: Value)
    requires p.Has(cmp) && p.nodes[cmp].Cmp? && p.nodes[cmp].pred != FloatPredicate
    requires p.Has(t) && p.nodes[t].Call? && (t == p.nodes[cmp].lhs || t == p.nodes[cmp].rhs)
    ensures IsTarget(p, c, cmp, t)
  {
    ReachSelf(Tracks(p, c.aliases), t);
    assert FindsSource(p, c.aliases, t, t);
  }

  // ---------- the keys of stage 2 ----------

  /** A direct call that stage 2 looks at, with its first callee. */
  predicate Searches(p: Program, c: Context, call: Value, g: Func) {
    && p.Has(call) && p.nodes[call].Call? && !p.nodes[call].indirect && call !in c.intrinsics
    && (p.users[call] != [] || p.nodes[call].args != [])
    && call in c.callees && c.callees[call] != [] && c.callees[call][0] == g
    && (g < |p.funcs| ==> p.funcs[g].name != "outb" && p.funcs[g].name != "__const_udelay" &&
                          p.funcs[g].name != "__udelay" && p.funcs[g].name != "scnprintf" &&
                          p.funcs[g].name != "__fswab16" && p.funcs[g].name != "__fswab32")
  }

  ghost predicate AfterBlock(p: Program, scope: set<Block>, b: Block) {
    forall x: Block :: x in scope <==> p.cfg.HasBlock(x) && Reaches(p.cfg.Forward(), b, x)
  }

  /** Exactly the loads in the scope of aliases of the pointer. */
  ghost predicate LoadedFrom(p: Program, c: Context, f: Func, scope: set<Block>, ptr: Value, vs: set<Value>) {
    forall l: Value :: l in vs <==>
      exists a: Value :: AliasOf(c.aliases, f, ptr, a) && UsedIn(p, scope, a, l) && p.nodes[l].Load?
  }

  /** The result of a call, searched from the call on. */
  ghost predicate IsResultProbe(p: Program, c: Context, f: Func, call: Value, pr: Probe) {
    exists g: Func ::
      && Searches(p, c, call, g) && p.users[call] != []
      && pr.key == Key(OfFunc(g), -1) && pr.v == call && pr.roots == {call}
      && pr.q.f == f && pr.q.key == pr.key && AfterBlock(p, pr.q.scope, p.parent[call])
  }

  /** What a call may leave behind a pointer argument that it has a parameter for, searched from the call on. */
  ghost predicate IsOutputProbe(p: Program, c: Context, f: Func, call: Value, pr: Probe) {
    exists g: Func, j: int ::
      && Searches(p, c, call, g) && g < |p.funcs| && 0 <= j < |p.funcs[g].params| && j < |p.nodes[call].args|
      && p.nodes[call].args[j] in c.pointers
      && pr.key == Key(OfFunc(g), j) && pr.v == call && pr.q.f == f && pr.q.key == pr.key
      && AfterBlock(p, pr.q.scope, p.parent[call])
      && LoadedFrom(p, c, f, pr.q.scope, p.nodes[call].args[j], pr.roots)
  }

  /** A parameter of a callee of an indirect call, searched from the entry of the callee. */
  ghost predicate IsParameterProbe(p: Program, c: Context, f: Func, call: Value, pr: Probe) {
    exists g: Func, j: int ::
      && p.Has(call) && p.nodes[call].Call? && p.nodes[call].indirect && call in c.callees && g in c.callees[call]
      && g < |p.funcs| && 0 <= j < |p.funcs[g].params| && j < |p.nodes[call].args| && p.funcs[g].blocks != []
      && ParameterAt(p, c, f, call, g, j, pr)
  }

  ghost predicate ParameterAt(p: Program, c: Context, f: Func, call: Value, g: Func, j: int, pr: Probe)
    requires g < |p.funcs| && 0 <= j < |p.funcs[g].params| && p.funcs[g].blocks != []
  {
    var param := p.funcs[g].params[j];
    && pr.key == Key(OfCall(call), j) && pr.v == param && pr.q.f == f && pr.q.key == pr.key
    && AfterBlock(p, pr.q.scope, p.funcs[g].blocks[0])
    && param in pr.roots
    && (if param in c.pointers
        then exists vs :: LoadedFrom(p, c, g, pr.q.scope, param, vs) && pr.roots == {param} + vs
        else pr.roots == {param})
  }

  lemma SearchedMeans(p: Program, c: Context, call: Value, g: Func)
    requires p.Has(call) && p.nodes[call].Call? && !p.nodes[call].indirect
    ensures SearchedCallee(p, c, call) == Some(g) <==> Searches(p, c, call, g)
  {
  }

  lemma {:induction false} PositionsMean(p: Program, c: Context, f: Func, call: Value, cf: Func, argNo: int, pr: Probe)
    requires p.Has(call) && p.nodes[call].Call? && -1 <= argNo <= |p.nodes[call].args|
    ensures pr in DirectProbes(p, c, f, call, cf, argNo) <==>
            exists k: int :: -1 <= k < argNo && pr in PositionProbes(p, c, f, call, cf, k)
    decreases argNo + 1
  {
    if argNo > -1 {
      PositionsMean(p, c, f, call, cf, argNo - 1, pr);
    }
  }

  lemma AfterIs(p: Program, b: Block, scope: set<Block>)
    ensures AfterBlock(p, scope, b) <==> scope == BlocksAfter(p.cfg, b)
  {
  }

  lemma LoadsAre(p: Program, c: Context, f: Func, scope: set<Block>, ptr: Value, vs: set<Value>)
    ensures LoadedFrom(p, c, f, scope, ptr, vs) <==> vs == LoadsWithin(p, scope, GetAliasPointers(c.aliases, f, ptr))
  {
    var ls := LoadsWithin(p, scope, GetAliasPointers(c.aliases, f, ptr));
    forall l: Value
      ensures l in ls <==> exists a: Value ::
                AliasOf(c.aliases, f, ptr, a) && UsedIn(p, scope, a, l) && p.nodes[l].Load?
    {
      WithinMeans(p, scope, c.aliases, f, ptr, l);
    }
  }

  lemma PositionMeans(p: Program, c: Context, f: Func, call: Value, g: Func, k: int, pr: Probe)
    requires p.Has(call) && p.nodes[call].Call? && -1 <= k < |p.nodes[call].args|
    ensures pr in PositionProbes(p, c, f, call, g, k) <==>
            && pr.key == Key(OfFunc(g), k) && pr.v == call && pr.q.f == f && pr.q.key == pr.key
            && AfterBlock(p, pr.q.scope, p.parent[call])
            && if k == -1 then p.users[call] != [] && pr.roots == {call}
               else
                 var ptr := p.nodes[call].args[k];
                 ptr in c.pointers && LoadedFrom(p, c, f, pr.q.scope, ptr, pr.roots)
  {
    AfterIs(p, p.parent[call], pr.q.scope);
    if k >= 0 {
      LoadsAre(p, c, f, BlocksAfter(p.cfg, p.parent[call]), p.nodes[call].args[k], pr.roots);
    }
    if pr.q.scope == BlocksAfter(p.cfg, p.parent[call]) && pr.q.f == f && pr.q.key == pr.key {
      assert pr.q == Query(f, pr.key, BlocksAfter(p.cfg, p.parent[call]));
      assert pr == Probe(pr.key, pr.v, pr.roots, pr.q);
    }
  }

  lemma DirectMeans(p: Program, c: Context, f: Func, call: Value, g: Func, pr: Probe)
    requires p.Has(call) && p.nodes[call].Call? && ValidContext(p, c) && Searches(p, c, call, g)
    ensures pr in CallProbes(p, c, f, call) <==> IsResultProbe(p, c, f, call, pr) || IsOutputProbe(p, c, f, call, pr)
  {
    SearchedMeans(p, c, call, g);
    var params := if g < |p.funcs| then |p.funcs[g].params| else 0;
    var n := Smaller(params, |p.nodes[call].args|);
    PositionsMean(p, c, f, call, g, n, pr);
    forall k: int | -1 <= k < n
      ensures pr in PositionProbes(p, c, f, call, g, k) <==>
              && pr.key == Key(OfFunc(g), k) && pr.v == call && pr.q.f == f && pr.q.key == pr.key
              && AfterBlock(p, pr.q.scope, p.parent[call])
              && if k == -1 then p.users[call] != [] && pr.roots == {call}
                 else
                   var ptr := p.nodes[call].args[k];
                   ptr in c.pointers && LoadedFrom(p, c, f, pr.q.scope, ptr, pr.roots)
    {
      PositionMeans(p, c, f, call, g, k, pr);
    }
    assert forall h: Func | Searches(p, c, call, h) :: h == g;
  }

  lemma {:induction false} CalleesMean(p: Program, c: Context, f: Func, call: Value, j: nat, gs: seq<Func>, pr: Probe)
    requires forall g | g in gs :: g < |p.funcs|
    ensures pr in ArgumentProbes(p, c, f, call, j, gs) <==>
            exists g: Func :: g in gs && pr in CalleeProbes(p, c, f, call, j, g)
    decreases |gs|
  {
    if gs != [] {
      var rest, last := gs[..|gs| - 1], gs[|gs| - 1];
      assert gs == rest + [last];
      assert forall g | g in rest :: g in gs;
      CalleesMean(p, c, f, call, j, rest, pr);
    }
  }

  ghost predicate ProbedFor(p: Program, c: Context, f: Func, call: Value, j: nat, pr: Probe)
    requires ValidContext(p, c)
  {
    pr in ArgumentProbes(p, c, f, call, j, CalleesOf(c, call))
  }

  /** One of the first n arguments is probed with pr. */
  ghost predicate ProbedBelow(p: Program, c: Context, f: Func, call: Value, n: nat, pr: Probe)
    requires ValidContext(p, c)
  {
    exists j: nat :: j < n && ProbedFor(p, c, f, call, j, pr)
  }

  lemma ArgumentsOneMore(p: Program, c: Context, f: Func, call: Value, n: nat, pr: Probe)
    requires ValidContext(p, c) && n > 0
    ensures pr in IndirectProbes(p, c, f, call, n) <==>
            pr in IndirectProbes(p, c, f, call, n - 1) || ProbedFor(p, c, f, call, n - 1, pr)
    ensures ProbedBelow(p, c, f, call, n, pr) <==>
            ProbedBelow(p, c, f, call, n - 1, pr) || ProbedFor(p, c, f, call, n - 1, pr)
  {
  }

  lemma {:induction false} ArgumentsMean(p: Program, c: Context, f: Func, call: Value, n: nat, pr: Probe)
    requires ValidContext(p, c)
    ensures pr in IndirectProbes(p, c, f, call, n) <==> ProbedBelow(p, c, f, call, n, pr)
    decreases n
  {
    if n > 0 {
      ArgumentsMean(p, c, f, call, n - 1, pr);
      ArgumentsOneMore(p, c, f, call, n, pr);
    }
  }

  lemma CalleeMeans(p: Program, c: Context, f: Func, call: Value, g: Func, j: nat, pr: Probe)
    requires g < |p.funcs|
    ensures pr in CalleeProbes(p, c, f, call, j, g) <==>
            j < |p.funcs[g].params| && p.funcs[g].blocks != [] && ParameterAt(p, c, f, call, g, j, pr)
  {
    if j < |p.funcs[g].params| && p.funcs[g].blocks != [] {
      var param, entry := p.funcs[g].params[j], p.funcs[g].blocks[0];
      AfterIs(p, entry, pr.q.scope);
      var ls := LoadsWithin(p, BlocksAfter(p.cfg, entry), GetAliasPointers(c.aliases, g, param));
      forall vs ensures LoadedFrom(p, c, g, BlocksAfter(p.cfg, entry), param, vs) <==> vs == ls {
        LoadsAre(p, c, g, BlocksAfter(p.cfg, entry), param, vs);
      }
      if ParameterAt(p, c, f, call, g, j, pr) {
        assert pr.q == Query(f, pr.key, BlocksAfter(p.cfg, entry));
        assert pr == Probe(pr.key, pr.v, pr.roots, pr.q);
      }
      assert {param} + {} == {param};
    }
  }

  lemma IndirectMeans(p: Program, c: Context, f: Func, call: Value, pr: Probe)
    requires p.Has(call) && p.nodes[call].Call? && p.nodes[call].indirect && ValidContext(p, c)
    ensures pr in CallProbes(p, c, f, call) <==> IsParameterProbe(p, c, f, call, pr)
  {
    var n := |p.nodes[call].args|;
    ArgumentsMean(p, c, f, call, n, pr);
    forall j: nat
      ensures ProbedFor(p, c, f, call, j, pr) <==>
              exists g: Func :: g in CalleesOf(c, call) && pr in CalleeProbes(p, c, f, call, j, g)
    {
      CalleesMean(p, c, f, call, j, CalleesOf(c, call), pr);
    }
    forall j: nat, g: Func | g in CalleesOf(c, call)
      ensures pr in CalleeProbes(p, c, f, call, j, g) <==>
              j < |p.funcs[g].params| && p.funcs[g].blocks != [] && ParameterAt(p, c, f, call, g, j, pr)
    {
      CalleeMeans(p, c, f, call, g, j, pr);
    }
    if IsParameterProbe(p, c, f, call, pr) {
      var g: Func, k: int :|
        && call in c.callees && g in c.callees[call] && g < |p.funcs| && 0 <= k < |p.funcs[g].params| && k < n
        && p.funcs[g].blocks != [] && ParameterAt(p, c, f, call, g, k, pr);
      var j: nat := k;
      assert pr in CalleeProbes(p, c, f, call, j, g);
      assert ProbedFor(p, c, f, call, j, pr);
    }
    if pr in IndirectProbes(p, c, f, call, n) {
      var j: nat :| j < n && ProbedFor(p, c, f, call, j, pr);
      var g: Func :| g in CalleesOf(c, call) && pr in CalleeProbes(p, c, f, call, j, g);
      assert ParameterAt(p, c, f, call, g, j, pr);
    }
  }

  ghost predicate IsProbe(p: Program, c: Context, f: Func, call: Value, pr: Probe) {
    IsResultProbe(p, c, f, call, pr) || IsOutputProbe(p, c, f, call, pr) || IsParameterProbe(p, c, f, call, pr)
  }

  /** What stage 2 searches for at one instruction. */
  lemma ProbesMean(p: Program, c: Context, f: Func, call: Value, pr: Probe)
    requires p.Has(call) && ValidContext(p, c)
    ensures pr in CallProbes(p, c, f, call) <==> IsProbe(p, c, f, call, pr)
  {
    if p.nodes[call].Call? {
      if p.nodes[call].indirect {
        IndirectMeans(p, c, f, call, pr);
      } else if SearchedCallee(p, c, call).Some? {
        SearchedMeans(p, c, call, SearchedCallee(p, c, call).value);
        DirectMeans(p, c, f, call, SearchedCallee(p, c, call).value, pr);
      } else {
        forall g: Func ensures !Searches(p, c, call, g) {
          SearchedMeans(p, c, call, g);
        }
      }
    }
  }

  lemma {:induction false} CodeProbesMean(p: Program, c: Context, f: Func, code: seq<Value>, pr: Probe)
    requires ValidContext(p, c) && forall i | i in code :: p.Has(i)
    ensures pr in CodeProbes(p, c, f, code) <==> exists i: Value :: i in code && IsProbe(p, c, f, i, pr)
    decreases |code|
  {
    if code != [] {
      var rest, last := code[..|code| - 1], code[|code| - 1];
      assert code == rest + [last];
      CodeProbesMean(p, c, f, rest, pr);
      ProbesMean(p, c, f, last, pr);
    }
  }

  lemma {:induction false} InConcat<T>(xss: seq<seq<T>>, x: T)
    ensures x in Concat(xss) <==> exists i :: 0 <= i < |xss| && x in xss[i]
    decreases |xss|
  {
    if xss != [] {
      InConcat(xss[1..], x);
      if i :| 0 <= i < |xss| && x in xss[i] {
        assert i > 0 ==> xss[1..][i - 1] == xss[i];
      }
    }
  }

  /** What stage 2 searches for in a list of functions. */
  lemma ModuleProbesMean(p: Program, c: Context, fs: seq<Func>, pr: Probe)
    requires ValidContext(p, c)
    ensures pr in ModuleProbes(p, c, fs) <==>
            exists f: Func, i: Value :: f in fs && AnalysedIn(p, c, f, i) && IsProbe(p, c, f, i, pr)
  {
    InConcat(ProbeLists(p, c, fs), pr);
    forall f | f in fs
      ensures pr in FuncProbes(p, c, f) <==>
              exists i: Value :: AnalysedIn(p, c, f, i) && IsProbe(p, c, f, i, pr)
    {
      CodeHas(p, f);
      forall i: Value ensures AnalysedIn(p, c, f, i) <==> Analysed(p, c, f) && i in CodeOf(p, f) {
        CodeIs(p, c, f, i);
      }
      if Analysed(p, c, f) {
        CodeProbesMean(p, c, f, CodeOf(p, f), pr);
      }
    }
  }

  // ---------- the uses of stage 2 ----------

  /** An argument of a direct call, judged before the call, but not in its own block. */
  ghost predicate IsUseProbe(p: Program, c: Context, f: Func, call: Value, pr: UseProbe) {
    exists g: Func, k: int ::
      && Searches(p, c, call, g) && 0 <= k < |p.nodes[call].args|
      && pr.key == Key(OfFunc(g), k) && pr.arg == p.nodes[call].args[k] && pr.at.f == f && pr.at.depth == 1
      && forall b: Block :: b in pr.at.scope <==>
           b != p.parent[call] && p.cfg.HasBlock(b) && Reaches(p.cfg.Forward(), b, p.parent[call])
  }

  lemma UsePlaceIs(p: Program, f: Func, call: Value, at: Place)
    requires p.Has(call)
    ensures at == UsePlace(p, f, call) <==>
            && at.f == f && at.depth == 1
            && forall b: Block :: b in at.scope <==>
                 b != p.parent[call] && p.cfg.HasBlock(b) && Reaches(p.cfg.Forward(), b, p.parent[call])
  {
    var q := UsePlace(p, f, call);
    forall b: Block
      ensures b in q.scope <==> b != p.parent[call] && p.cfg.HasBlock(b) && Reaches(p.cfg.Forward(), b, p.parent[call])
    {
    }
    if at.f == f && at.depth == 1 && at.scope == q.scope {
      assert at == Place(f, q.scope, 1);
    }
  }

  /** The uses that stage 2 visits at one instruction. */
  lemma UseProbesMean(p: Program, c: Context, f: Func, call: Value, pr: UseProbe)
    requires p.Has(call)
    ensures pr in CallUseProbes(p, c, f, call) <==> IsUseProbe(p, c, f, call, pr)
  {
    if p.nodes[call].Call? && !p.nodes[call].indirect {
      forall g: Func ensures SearchedCallee(p, c, call) == Some(g) <==> Searches(p, c, call, g) {
        SearchedMeans(p, c, call, g);
      }
      UsePlaceIs(p, f, call, pr.at);
      if g: Func, k: int :| Searches(p, c, call, g) && 0 <= k < |p.nodes[call].args| && pr.key == Key(OfFunc(g), k)
                            && pr.arg == p.nodes[call].args[k] && pr.at == UsePlace(p, f, call) {
        assert UseProbes(p, f, call, g, |p.nodes[call].args|)[k] == pr;
      }
      if pr in CallUseProbes(p, c, f, call) {
        var g := SearchedCallee(p, c, call).value;
        var k :| 0 <= k < |p.nodes[call].args| && UseProbes(p, f, call, g, |p.nodes[call].args|)[k] == pr;
      }
    }
  }

  lemma {:induction false} CodeUseProbesMean(p: Program, c: Context, f: Func, code: seq<Value>, pr: UseProbe)
    requires forall i | i in code :: p.Has(i)
    ensures pr in CodeUseProbes(p, c, f, code) <==> exists i: Value :: i in code && IsUseProbe(p, c, f, i, pr)
    decreases |code|
  {
    if code != [] {
      var rest, last := code[..|code| - 1], code[|code| - 1];
      assert code == rest + [last];
      CodeUseProbesMean(p, c, f, rest, pr);
      UseProbesMean(p, c, f, last, pr);
    }
  }

  /** The uses that stage 2 visits in a list of functions. */
  lemma ModuleUseProbesMean(p: Program, c: Context, fs: seq<Func>, pr: UseProbe)
    ensures pr in ModuleUseProbes(p, c, fs) <==>
            exists f: Func, i: Value :: f in fs && AnalysedIn(p, c, f, i) && IsUseProbe(p, c, f, i, pr)
  {
    InConcat(UseProbeLists(p, c, fs), pr);
    forall f | f in fs
      ensures pr in FuncUseProbes(p, c, f) <==>
              exists i: Value :: AnalysedIn(p, c, f, i) && IsUseProbe(p, c, f, i, pr)
    {
      CodeHas(p, f);
      forall i: Value ensures AnalysedIn(p, c, f, i) <==> Analysed(p, c, f) && i in CodeOf(p, f) {
        CodeIs(p, c, f, i);
      }
      if Analysed(p, c, f) {
        CodeUseProbesMean(p, c, f, CodeOf(p, f), pr);
      }
    }
  }
}
