/** The two-stage cross-check and its driver. */
module MissingChecks {
  import opened Graphs
  import opened Ir
  import opened ErrorFlow
  import opened Ledger
  import opened ForwardSearch
  import opened BackwardSearch
  import opened CheckStage
  import opened UncheckStage

  const MAX_STAGE := 2
  const MAX_BLOCKS_SUPPORT := 500

  /** A module lists its functions. */
  type Module = seq<Func>

  predicate Analysed(p: Program, c: Context, f: Func) {
    f < |p.funcs| && p.funcs[f].blocks != [] && |p.funcs[f].blocks| <= MAX_BLOCKS_SUPPORT && f in c.unified
  }

  // ---------- stage 1 ----------

  function ChecksOf(p: Program, c: Context, f: Func): (r: set<Value>)
    ensures forall i | i in r :: p.Has(i) && p.nodes[i].Cmp?
  {
    if f in c.checkInsts then set i | i in c.checkInsts[f] && p.Has(i) && p.nodes[i].Cmp? else {}
  }

  ghost function SrcSitesOf(p: Program, c: Context, f: Func): (r: Value -> set<Site>)
    requires f < |p.funcs|
    ensures ByCheck(r)
  {
    (i: Value) => if p.Has(i) then SrcSites(p, c, f, i) else {}
  }

  ghost function UseSitesOf(p: Program, c: Context): (r: Value -> set<Site>)
    ensures ByCheck(r)
  {
    (i: Value) => if p.Has(i) then UseSites(p, c, i) else {}
  }

  ghost predicate ByCheck(sitesOf: Value -> set<Site>) {
    forall i: Value, s | s in sitesOf(i) :: s.cmp == i
  }

  lemma ChecksApart(sitesOf: Value -> set<Site>, checks: set<Value>, i: Value)
    requires i !in checks && ByCheck(sitesOf)
    ensures SitesOver(checks, sitesOf) !! sitesOf(i)
  {
    forall s | s in SitesOver(checks, sitesOf) ensures s.cmp in checks {
      var x :| x in checks && s in sitesOf(x);
    }
  }

  /** Where the checks of a function check a source. */
  ghost function FuncSrcSites(p: Program, c: Context, f: Func): set<Site> {
    if Analysed(p, c, f) then SitesOver(ChecksOf(p, c, f), SrcSitesOf(p, c, f)) else {}
  }

  /** Where the checks of a function protect a use. */
  ghost function FuncUseSites(p: Program, c: Context, f: Func): set<Site> {
    if Analysed(p, c, f) then SitesOver(ChecksOf(p, c, f), UseSitesOf(p, c)) else {}
  }

  ghost function ModuleSrcSites(p: Program, c: Context, fs: seq<Func>): multiset<Site> {
    if fs == [] then multiset{}
    else ModuleSrcSites(p, c, fs[..|fs| - 1]) + multiset(FuncSrcSites(p, c, fs[|fs| - 1]))
  }

  ghost function ModuleUseSites(p: Program, c: Context, fs: seq<Func>): multiset<Site> {
    if fs == [] then multiset{}
    else ModuleUseSites(p, c, fs[..|fs| - 1]) + multiset(FuncUseSites(p, c, fs[|fs| - 1]))
  }

  /** Stage 1 on one function: collect what its checks check, checks in any order. */
  method CountChecks(p: Program, c: Context, f: Func, src: Book, use: Book) returns (src': Book, use': Book)
    requires ValidContext(p, c) && f < |p.funcs|
    ensures RecordedSet(p, SitesOver(ChecksOf(p, c, f), SrcSitesOf(p, c, f)), src, src')
    ensures RecordedSet(p, SitesOver(ChecksOf(p, c, f), UseSitesOf(p, c)), use, use')
  {
    src', use' := src, use;
    var checks := ChecksOf(p, c, f);
    var rest := checks;
    ghost var srcOf, useOf := SrcSitesOf(p, c, f), UseSitesOf(p, c);
    RecordedNothing(p, src);
    RecordedNothing(p, use);
    assert SitesOver({}, srcOf) == {} && SitesOver({}, useOf) == {};
    TakeNone(checks);
    while rest != {}
      invariant rest <= checks
      invariant RecordedSet(p, SitesOver(checks - rest, srcOf), src, src')
      invariant RecordedSet(p, SitesOver(checks - rest, useOf), use, use')
    {
      var i :| i in rest;
      ghost var s1, u1, done := src', use', checks - rest;
      src', use' := CountSrcUseChecks(p, c, f, i, src', use');
      ChecksApart(srcOf, done, i);
      OneMore(p, srcOf, done, i, src, s1, src');
      ChecksApart(useOf, done, i);
      OneMore(p, useOf, done, i, use, u1, use');
      TakeOne(checks, rest, i);
      rest := rest - {i};
    }
  }

  // ---------- stage 2 ----------

  ghost function FuncProbes(p: Program, c: Context, f: Func): seq<Probe>
    requires ValidContext(p, c)
  {
    if Analysed(p, c, f) then
      assert forall i | i in CodeOf(p, f) :: p.Has(i) by { CodeHas(p, f); }
      CodeProbes(p, c, f, CodeOf(p, f))
    else []
  }

  ghost function FuncUseProbes(p: Program, c: Context, f: Func): seq<UseProbe> {
    if Analysed(p, c, f) then
      assert forall i | i in CodeOf(p, f) :: p.Has(i) by { CodeHas(p, f); }
      CodeUseProbes(p, c, f, CodeOf(p, f))
    else []
  }

  lemma CodeHas(p: Program, f: Func)
    ensures forall i | i in CodeOf(p, f) :: p.Has(i)
  {
    forall i | i in CodeOf(p, f) ensures p.Has(i) {
      CodeExists(p, f, i);
    }
  }

  /** The probes of each function, in order. */
  ghost function ProbeLists(p: Program, c: Context, fs: seq<Func>): (r: seq<seq<Probe>>)
    requires ValidContext(p, c)
    ensures |r| == |fs| && forall i | 0 <= i < |fs| :: r[i] == FuncProbes(p, c, fs[i])
  {
    seq(|fs|, i requires 0 <= i < |fs| => FuncProbes(p, c, fs[i]))
  }

  ghost function UseProbeLists(p: Program, c: Context, fs: seq<Func>): (r: seq<seq<UseProbe>>)
    ensures |r| == |fs| && forall i | 0 <= i < |fs| :: r[i] == FuncUseProbes(p, c, fs[i])
  {
    seq(|fs|, i requires 0 <= i < |fs| => FuncUseProbes(p, c, fs[i]))
  }

  ghost function ModuleProbes(p: Program, c: Context, fs: seq<Func>): seq<Probe>
    requires ValidContext(p, c)
  {
    Concat(ProbeLists(p, c, fs))
  }

  ghost function ModuleUseProbes(p: Program, c: Context, fs: seq<Func>): seq<UseProbe> {
    Concat(UseProbeLists(p, c, fs))
  }

  // ---------- both stages ----------

  /** What the books may have become after the functions fs in a stage. */
  ghost predicate StageDone(p: Program, c: Context, stage: nat, fs: seq<Func>, s0: Book, u0: Book, s1: Book, u1: Book)
    requires ValidContext(p, c)
  {
    if stage == 1 then
      Recorded(p, ModuleSrcSites(p, c, fs), s0, s1) && Recorded(p, ModuleUseSites(p, c, fs), u0, u1)
    else if stage == 2 then
      s1 == VisitAll(p, c, s0, ModuleProbes(p, c, fs)) && UsesVisited(p, c, ModuleUseProbes(p, c, fs), u0, u1)
    else s1 == s0 && u1 == u0
  }

  lemma StageNothing(p: Program, c: Context, stage: nat, s: Book, u: Book)
    requires ValidContext(p, c)
    ensures StageDone(p, c, stage, [], s, u, s, u)
  {
    RecordedNothing(p, s);
    RecordedNothing(p, u);
    VisitNone(p, c, s);
    UsesVisitedNone(p, c, u);
  }

  /** Lists that hold the image of each element of a list. */
  ghost predicate ListsOf<S(!new), T(!new)>(fs: seq<S>, list: S -> seq<T>, r: seq<seq<T>>) {
    |r| == |fs| && forall i | 0 <= i < |fs| :: r[i] == list(fs[i])
  }

  lemma ListsJoin<S(!new), T(!new)>(xs: seq<S>, ys: seq<S>, list: S -> seq<T>, a: seq<seq<T>>, b: seq<seq<T>>,
                                    r: seq<seq<T>>)
    requires ListsOf(xs, list, a) && ListsOf(ys, list, b) && ListsOf(xs + ys, list, r)
    ensures Concat(r) == Concat(a) + Concat(b)
  {
    forall i | 0 <= i < |r| ensures r[i] == (a + b)[i] {
    }
    assert r == a + b;
    ConcatJoin(a, b);
  }

  lemma ModuleProbesJoin(p: Program, c: Context, xs: seq<Func>, ys: seq<Func>)
    requires ValidContext(p, c)
    ensures ModuleProbes(p, c, xs + ys) == ModuleProbes(p, c, xs) + ModuleProbes(p, c, ys)
  {
    ListsJoin(xs, ys, f => FuncProbes(p, c, f), ProbeLists(p, c, xs), ProbeLists(p, c, ys), ProbeLists(p, c, xs + ys));
  }

  lemma ModuleUseProbesJoin(p: Program, c: Context, xs: seq<Func>, ys: seq<Func>)
    ensures ModuleUseProbes(p, c, xs + ys) == ModuleUseProbes(p, c, xs) + ModuleUseProbes(p, c, ys)
  {
    ListsJoin(xs, ys, f => FuncUseProbes(p, c, f), UseProbeLists(p, c, xs), UseProbeLists(p, c, ys),
              UseProbeLists(p, c, xs + ys));
  }

  lemma {:induction false} SrcSitesJoin(p: Program, c: Context, xs: seq<Func>, ys: seq<Func>)
    ensures ModuleSrcSites(p, c, xs + ys) == ModuleSrcSites(p, c, xs) + ModuleSrcSites(p, c, ys)
    decreases |ys|
  {
    if ys == [] {
      assert xs + ys == xs;
    } else {
      SplitLast(xs, ys);
      SrcSitesJoin(p, c, xs, ys[..|ys| - 1]);
    }
  }

  lemma {:induction false} UseSitesJoin(p: Program, c: Context, xs: seq<Func>, ys: seq<Func>)
    ensures ModuleUseSites(p, c, xs + ys) == ModuleUseSites(p, c, xs) + ModuleUseSites(p, c, ys)
    decreases |ys|
  {
    if ys == [] {
      assert xs + ys == xs;
    } else {
      SplitLast(xs, ys);
      UseSitesJoin(p, c, xs, ys[..|ys| - 1]);
    }
  }

  lemma SplitLast<T>(xs: seq<T>, ys: seq<T>)
    requires ys != []
    ensures (xs + ys)[..|xs + ys| - 1] == xs + ys[..|ys| - 1]
    ensures (xs + ys)[|xs + ys| - 1] == ys[|ys| - 1]
  {
  }

  /** A stage over some functions and then over others is the stage over all of them. */
  lemma {:induction false} StageTwice(p: Program, c: Context, stage: nat, xs: seq<Func>, ys: seq<Func>,
                   s0: Book, u0: Book, s1: Book, u1: Book, s2: Book, u2: Book)
    requires ValidContext(p, c)
    requires StageDone(p, c, stage, xs, s0, u0, s1, u1) && StageDone(p, c, stage, ys, s1, u1, s2, u2)
    ensures StageDone(p, c, stage, xs + ys, s0, u0, s2, u2)
  {
    if stage == 1 {
      SrcSitesJoin(p, c, xs, ys);
      UseSitesJoin(p, c, xs, ys);
      RecordedTwice(p, ModuleSrcSites(p, c, xs), ModuleSrcSites(p, c, ys), s0, s1, s2);
      RecordedTwice(p, ModuleUseSites(p, c, xs), ModuleUseSites(p, c, ys), u0, u1, u2);
    } else if stage == 2 {
      ModuleProbesJoin(p, c, xs, ys);
      ModuleUseProbesJoin(p, c, xs, ys);
      VisitTwice(p, c, s0, ModuleProbes(p, c, xs), ModuleProbes(p, c, ys));
      UsesVisitedTwice(p, c, ModuleUseProbes(p, c, xs), ModuleUseProbes(p, c, ys), u0, u1, u2);
    }
  }

  lemma OneFunction(p: Program, c: Context, f: Func)
    requires ValidContext(p, c)
    ensures ModuleSrcSites(p, c, [f]) == multiset(FuncSrcSites(p, c, f))
    ensures ModuleUseSites(p, c, [f]) == multiset(FuncUseSites(p, c, f))
    ensures ModuleProbes(p, c, [f]) == FuncProbes(p, c, f)
    ensures ModuleUseProbes(p, c, [f]) == FuncUseProbes(p, c, f)
  {
    assert [f][..0] == [];
    assert ProbeLists(p, c, [f]) == [FuncProbes(p, c, f)];
    assert UseProbeLists(p, c, [f]) == [FuncUseProbes(p, c, f)];
    ConcatOne(FuncProbes(p, c, f));
    ConcatOne(FuncUseProbes(p, c, f));
  }

  /** All functions of a list of modules, in order. */
  function Functions(ms: seq<Module>): seq<Func> {
    if ms == [] then [] else Functions(ms[..|ms| - 1]) + ms[|ms| - 1]
  }

  /** The pass with its static counters: one book for sources, one for uses. */
  class MissingChecksPass {
    const p: Program
    const c: Context
    const modules: seq<Module>
    var analysisStage: nat
    var mIdx: nat
    var src: Book
    var use: Book

    constructor (p: Program, c: Context, modules: seq<Module>)
      ensures this.p == p && this.c == c && this.modules == modules
      ensures analysisStage == 1 && mIdx == 0 && src == EmptyBook && use == EmptyBook
    {
      this.p, this.c, this.modules := p, c, modules;
      analysisStage, mIdx, src, use := 1, 0, EmptyBook, EmptyBook;
    }

    /** One function in the current stage. */
    method DoFunction(f: Func)
      requires ValidContext(p, c)
      modifies this`src, this`use
      ensures StageDone(p, c, analysisStage, [f], old(src), old(use), src, use)
    {
      OneFunction(p, c, f);
      if !Analysed(p, c, f) {
        RecordedNothing(p, src);
        RecordedNothing(p, use);
        VisitNone(p, c, src);
        UsesVisitedNone(p, c, use);
        return;
      }
      // The first sweep fills the books with what is checked somewhere
      if analysisStage == 1 {
        src, use := CountChecks(p, c, f, src, use);
      }
      // The second sweep looks up the same keys everywhere else
      else if analysisStage == 2 {
        CodeHas(p, f);
        src, use := CountSrcUseUnchecks(p, c, f, CodeOf(p, f), src, use);
      }
    }

    /** One module; the last module of a sweep moves on to the next stage. */
    method DoModulePass(fs: Module) returns (again: bool)
      requires ValidContext(p, c)
      modifies this
      ensures StageDone(p, c, old(analysisStage), fs, old(src), old(use), src, use)
      ensures if |modules| == old(mIdx) + 1 then
                mIdx == 0 && analysisStage == old(analysisStage) + 1 && again == (analysisStage <= MAX_STAGE)
              else
                mIdx == old(mIdx) + 1 && analysisStage == old(analysisStage) && !again
    {
      mIdx := mIdx + 1;
      StageNothing(p, c, analysisStage, src, use);
      for k := 0 to |fs|
        invariant mIdx == old(mIdx) + 1 && analysisStage == old(analysisStage)
        invariant StageDone(p, c, analysisStage, fs[..k], old(src), old(use), src, use)
      {
        ghost var s1, u1 := src, use;
        DoFunction(fs[k]);
        StageTwice(p, c, analysisStage, fs[..k], [fs[k]], old(src), old(use), s1, u1, src, use);
        assert fs[..k + 1] == fs[..k] + [fs[k]];
      }
      PrefixIsAll(fs);
      again := false;
      if |modules| == mIdx {
        analysisStage := analysisStage + 1;
        mIdx := 0;
        if analysisStage <= MAX_STAGE {
          again := true;
        }
      }
    }

    /** The books after the first n modules of a stage. */
    ghost predicate Progress(stage: nat, n: nat, s0: Book, u0: Book)
      requires ValidContext(p, c) && n <= |modules|
      reads this
    {
      StageDone(p, c, stage, Functions(modules[..n]), s0, u0, src, use)
    }

    method NextModule(i: nat, ghost s0: Book, ghost u0: Book) returns (again: bool)
      requires ValidContext(p, c) && i < |modules| && mIdx == i && Progress(analysisStage, i, s0, u0)
      modifies this
      ensures Progress(old(analysisStage), i + 1, s0, u0)
      ensures if i + 1 == |modules| then
                mIdx == 0 && analysisStage == old(analysisStage) + 1 && again == (analysisStage <= MAX_STAGE)
              else
                mIdx == i + 1 && analysisStage == old(analysisStage) && !again
    {
      ghost var s1, u1 := src, use;
      again := DoModulePass(modules[i]);
      StageTwice(p, c, old(analysisStage), Functions(modules[..i]), modules[i], s0, u0, s1, u1, src, use);
      assert modules[..i + 1][..i] == modules[..i];
    }

    /** One sweep over all modules. */
    method Sweep() returns (changed: nat)
      requires ValidContext(p, c) && mIdx == 0
      modifies this
      ensures mIdx == 0
      ensures Progress(old(analysisStage), |modules|, old(src), old(use))
      ensures modules == [] ==>
                analysisStage == old(analysisStage) && changed == 0 && src == old(src) && use == old(use)
      ensures modules != [] ==>
                analysisStage == old(analysisStage) + 1 && changed == if analysisStage <= MAX_STAGE then 1 else 0
    {
      changed := 0;
      StageNothing(p, c, analysisStage, src, use);
      for i := 0 to |modules|
        invariant Progress(old(analysisStage), i, old(src), old(use))
        invariant i == 0 ==> src == old(src) && use == old(use)
        invariant i < |modules| || modules == [] ==> mIdx == i && analysisStage == old(analysisStage) && changed == 0
        invariant i == |modules| && modules != [] ==>
                    mIdx == 0 && analysisStage == old(analysisStage) + 1
                    && changed == if analysisStage <= MAX_STAGE then 1 else 0
      {
        var ret := NextModule(i, old(src), old(use));
        if ret {
          changed := changed + 1;
        }
      }
    }

    /**
      The driver sweeps until no module reports a change: with at least one module exactly twice,
      and the second sweep starts from the complete books of the first.
     */
    method Run() returns (iter: nat)
      requires ValidContext(p, c) && analysisStage == 1 && mIdx == 0
      modifies this
      ensures mIdx == 0
      ensures modules == [] ==> iter == 1 && analysisStage == 1 && src == old(src) && use == old(use)
      ensures modules != [] ==> iter == 2 && analysisStage == MAX_STAGE + 1
      ensures modules != [] ==>
                exists s1: Book, u1: Book ::
                  && StageDone(p, c, 1, Functions(modules), old(src), old(use), s1, u1)
                  && StageDone(p, c, 2, Functions(modules), s1, u1, src, use)
      ensures modules != [] && old(src) == EmptyBook && old(use) == EmptyBook ==>
                && Balanced(src) && src.checked == KeysIn(ModuleSrcSites(p, c, Functions(modules)))
                && Balanced(use) && use.checked == KeysIn(ModuleUseSites(p, c, Functions(modules)))
    {
      ghost var s1, u1 := src, use;
      iter := 0;
      var changed := 1;
      while changed != 0
        invariant mIdx == 0
        invariant iter == 0 ==> changed == 1 && analysisStage == 1 && src == old(src) && use == old(use)
        invariant iter == 1 && modules == [] ==>
                    changed == 0 && analysisStage == 1 && src == old(src) && use == old(use)
        invariant iter == 1 && modules != [] ==>
                    changed == 1 && analysisStage == 2 && s1 == src && u1 == use
                    && StageDone(p, c, 1, Functions(modules), old(src), old(use), s1, u1)
        invariant iter == 2 ==>
                    changed == 0 && analysisStage == 3 && modules != []
                    && StageDone(p, c, 1, Functions(modules), old(src), old(use), s1, u1)
                    && StageDone(p, c, 2, Functions(modules), s1, u1, src, use)
        invariant iter <= 2
        decreases 2 - iter
      {
        iter := iter + 1;
        changed := Sweep();
        PrefixIsAll(modules);
        if iter == 1 {
          s1, u1 := src, use;
        }
      }
      if modules != [] && old(src) == EmptyBook && old(use) == EmptyBook {
        ghost var fs := Functions(modules);
        CrossCheckIsBalanced(p, c, ModuleSrcSites(p, c, fs), ModuleUseSites(p, c, fs), ModuleProbes(p, c, fs),
                             ModuleUseProbes(p, c, fs), s1, u1, src, use);
      }
    }
  }

  // ---------- what the final counters say ----------

  /**
    After both stages the source counters of a key mean what they say: one check for each site that
    stage 1 recorded, and for a checked key exactly the probed places of stage 2 and the misses
    among them.
  */
  lemma SourceCountsMean(p: Program, c: Context, sites: seq<Site>, prs: seq<Probe>, s1: Book, src: Book, k: Key)
    requires Recorded(p, multiset(sites), EmptyBook, s1) && src == VisitAll(p, c, s1, prs)
    ensures Count(src.checkCount, k) == Times(sites, k)
    ensures k in src.checked <==> Times(sites, k) > 0
    ensures var es := ProbeEvents(p, c, s1.checks, prs);
            && CountedAs(EmptyBook.(checked := s1.checked), src, k,
                         Visits(es, k), MissedVisits(es, k), MissedValues(es, k))
            && RatingOf(src, k) == ExpectedRating(Times(sites, k), MissedVisits(es, k), Visits(es, k))
  {
    CountersMean(p, sites, s1, ProbeEvents(p, c, s1.checks, prs), k);
  }

  function UseVisits(prs: seq<UseProbe>, k: Key): nat {
    if prs == [] then 0 else (if prs[0].key == k then 1 else 0) + UseVisits(prs[1..], k)
  }

  lemma {:induction false} UseEventsVisit(p: Program, c: Context, b: Book, prs: seq<UseProbe>, es: seq<Event>, k: Key)
    requires UseEvents(p, c, b, prs, es)
    ensures Visits(es, k) == UseVisits(prs, k)
  {
    if prs != [] {
      assert UseEvent(p, c, b, prs[0], es[0]);
      forall i | 0 <= i < |prs[1..]| ensures UseEvent(p, c, b, prs[1..][i], es[1..][i]) {
        assert UseEvent(p, c, b, prs[i + 1], es[i + 1]);
      }
      UseEventsVisit(p, c, b, prs[1..], es[1..], k);
    }
  }

  /**
    The same for uses: one check for each recorded site, one visit for each probed argument of a
    checked key, and the misses of some justified answers to the visits.
  */
  lemma UseCountsMean(p: Program, c: Context, sites: seq<Site>, prs: seq<UseProbe>, u1: Book, use: Book, k: Key)
    requires Recorded(p, multiset(sites), EmptyBook, u1) && UsesVisited(p, c, prs, u1, use)
    ensures Count(use.checkCount, k) == Times(sites, k)
    ensures k in use.checked <==> Times(sites, k) > 0
    ensures Count(use.totalCount, k) == if k in use.checked then UseVisits(prs, k) else 0
    ensures exists es: seq<Event> ::
              && UseEvents(p, c, u1, prs, es)
              && CountedAs(EmptyBook.(checked := u1.checked), use, k,
                           UseVisits(prs, k), MissedVisits(es, k), MissedValues(es, k))
              && RatingOf(use, k) == ExpectedRating(Times(sites, k), MissedVisits(es, k), UseVisits(prs, k))
  {
    var es: seq<Event> :| UseEvents(p, c, u1, prs, es) && use == ApplyAll(p, u1, es);
    UseEventsAreVisits(p, c, u1, prs, es);
    UseEventsVisit(p, c, u1, prs, es, k);
    CountersMean(p, sites, u1, es, k);
  }

  /** After both stages the books are balanced and stage 2 has kept the keys of stage 1. */
  lemma CrossCheckIsBalanced(p: Program, c: Context, srcSites: multiset<Site>, useSites: multiset<Site>,
                             prs: seq<Probe>, uprs: seq<UseProbe>, s1: Book, u1: Book, src: Book, use: Book)
    requires Recorded(p, srcSites, EmptyBook, s1) && src == VisitAll(p, c, s1, prs)
    requires Recorded(p, useSites, EmptyBook, u1) && UsesVisited(p, c, uprs, u1, use)
    ensures Balanced(src) && src.checked == KeysIn(srcSites) && src.checks == s1.checks
    ensures Balanced(use) && use.checked == KeysIn(useSites) && use.checks == u1.checks
  {
    EmptyIsBalanced();
    RecordedKeys(p, srcSites, EmptyBook, s1);
    RecordedKeys(p, useSites, EmptyBook, u1);
    UsesVisitedKeepChecks(p, c, uprs, u1, use);
    var es := ProbeEvents(p, c, s1.checks, prs);
    VisitsKeepChecks(p, s1, es);
    EveryRunIsBalanced(p, s1, es);
  }

  datatype Report = Report(rating: Rating, share: real)

  /** Rates every checked key, in any order; only keys with a missing check are reported. */
  method ProcessResults(book: Book) returns (reports: map<Key, Report>)
    requires Balanced(book)
    ensures forall k :: k in reports <==> k in book.checked && Count(book.uncheckCount, k) > 0
    ensures forall k | k in reports ::
              && RatingOf(book, k) == Some(reports[k].rating) && reports[k].rating.total != 0
              && reports[k].share == reports[k].rating.unchecks as real / reports[k].rating.total as real
              && 0.0 < reports[k].share <= 1.0
  {
    reports := map[];
    var rest := book.checked;
    while rest != {}
      invariant rest <= book.checked
      invariant forall k :: k in reports <==> k in book.checked && k !in rest && Count(book.uncheckCount, k) > 0
      invariant forall k | k in reports ::
                  && RatingOf(book, k) == Some(reports[k].rating) && reports[k].rating.total != 0
                  && reports[k].share == reports[k].rating.unchecks as real / reports[k].rating.total as real
                  && 0.0 < reports[k].share <= 1.0
    {
      var k :| k in rest;
      rest := rest - {k};
      RatingIsFraction(book, k);
      var rating := RatingOf(book, k);
      if rating.Some? {
        reports := reports[k := Report(rating.value, rating.value.unchecks as real / rating.value.total as real)];
      }
    }
  }
}
