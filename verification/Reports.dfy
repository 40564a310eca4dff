/** What a report says. */
module Reports {
  import opened Ir
  import opened Slicing
  import opened Ledger
  import opened ForwardSearch
  import opened PointSearch
  import opened BackwardSearch
  import opened UncheckStage
  import opened MissingChecks
  import opened CheckedValues
  import opened CheckedKeys

  /** The books after both stages over the functions, started from empty books. */
  ghost predicate RunEnds(p: Program, c: Context, fs: seq<Func>, src: Book, use: Book)
    requires ValidContext(p, c)
  {
    exists s1: Book, u1: Book ::
      StageDone(p, c, 1, fs, EmptyBook, EmptyBook, s1, u1) && StageDone(p, c, 2, fs, s1, u1, src, use)
  }

  /** The source book after both stages: the checks recorded first, then every probe visited. */
  ghost predicate SourcesRun(p: Program, c: Context, fs: seq<Func>, s1: Book, src: Book)
    requires ValidContext(p, c)
  {
    Recorded(p, ModuleSrcSites(p, c, fs), EmptyBook, s1) && src == VisitAll(p, c, s1, ModuleProbes(p, c, fs))
  }

  ghost predicate UsesRun(p: Program, c: Context, fs: seq<Func>, u1: Book, use: Book) {
    Recorded(p, ModuleUseSites(p, c, fs), EmptyBook, u1) && UsesVisited(p, c, ModuleUseProbes(p, c, fs), u1, use)
  }

  lemma RunSplits(p: Program, c: Context, fs: seq<Func>, src: Book, use: Book) returns (s1: Book, u1: Book)
    requires ValidContext(p, c) && RunEnds(p, c, fs, src, use)
    ensures SourcesRun(p, c, fs, s1, src) && UsesRun(p, c, fs, u1, use)
  {
    s1, u1 :| StageDone(p, c, 1, fs, EmptyBook, EmptyBook, s1, u1) && StageDone(p, c, 2, fs, s1, u1, src, use);
  }

  // ---------- missed sources ----------

  /** Nothing that the probe tracks is tested. */
  ghost predicate Untested(p: Program, c: Context, checked: set<Key>, pr: Probe) {
    forall r | r in pr.roots :: !SourceTested(p, c, checked, pr.q, r)
  }

  ghost predicate MissedAt(p: Program, c: Context, fs: seq<Func>, checked: set<Key>, k: Key, v: Value) {
    exists f: Func, i: Value, pr: Probe ::
      && f in fs && AnalysedIn(p, c, f, i) && IsProbe(p, c, f, i, pr)
      && pr.key == k && pr.v == v && Untested(p, c, checked, pr)
  }

  lemma ProbeTested(p: Program, c: Context, b: Book, pr: Probe)
    requires Balanced(b) && ValidAliases(p, c.aliases)
    ensures ProbeChecked(p, c, b.checks, pr) <==> !Untested(p, c, b.checked, pr)
  {
    forall r | r in pr.roots
      ensures CheckedForward(p, c, b.checks, pr.q, r) <==> SourceTested(p, c, b.checked, pr.q, r)
    {
      CheckedForwardMeans(p, c, b, pr.q, r);
    }
  }

  lemma EventMisses(p: Program, c: Context, b: Book, prs: seq<Probe>, k: Key, v: Value)
    requires Balanced(b) && ValidAliases(p, c.aliases)
    ensures v in MissedValues(ProbeEvents(p, c, b.checks, prs), k) <==>
            exists pr :: pr in prs && pr.key == k && pr.v == v && Untested(p, c, b.checked, pr)
  {
    var es := ProbeEvents(p, c, b.checks, prs);
    forall i | 0 <= i < |prs|
      ensures es[i] == Visited(prs[i].key, prs[i].v, ProbeChecked(p, c, b.checks, prs[i]))
      ensures ProbeChecked(p, c, b.checks, prs[i]) <==> !Untested(p, c, b.checked, prs[i])
    {
      ProbeTested(p, c, b, prs[i]);
    }
    if pr :| pr in prs && pr.key == k && pr.v == v && Untested(p, c, b.checked, pr) {
      var i :| 0 <= i < |prs| && prs[i] == pr;
      assert es[i] in es;
    }
    if v in MissedValues(es, k) {
      var e :| e in es && e.Visited? && e.key == k && !e.isChecked && e.v == v;
      var i :| 0 <= i < |es| && es[i] == e;
      assert prs[i] in prs;
    }
  }

  lemma {:induction false} SomeMissed(es: seq<Event>, k: Key)
    ensures MissedVisits(es, k) > 0 <==> MissedValues(es, k) != {}
    decreases |es|
  {
    if es != [] {
      SomeMissed(es[1..], k);
      assert es == [es[0]] + es[1..];
      if es[0].Visited? && es[0].key == k && !es[0].isChecked {
        assert es[0].v in MissedValues(es, k);
      } else {
        assert MissedValues(es, k) == MissedValues(es[1..], k);
      }
    }
  }

  lemma MissedValueMeans(p: Program, c: Context, fs: seq<Func>, s1: Book, k: Key, v: Value)
    requires ValidContext(p, c) && Balanced(s1)
    ensures v in MissedValues(ProbeEvents(p, c, s1.checks, ModuleProbes(p, c, fs)), k) <==>
            MissedAt(p, c, fs, s1.checked, k, v)
  {
    EventMisses(p, c, s1, ModuleProbes(p, c, fs), k, v);
    forall pr
      ensures pr in ModuleProbes(p, c, fs) <==>
              exists f: Func, i: Value :: f in fs && AnalysedIn(p, c, f, i) && IsProbe(p, c, f, i, pr)
    {
      ModuleProbesMean(p, c, fs, pr);
    }
  }

  lemma FirstStage(p: Program, c: Context, fs: seq<Func>, s1: Book, src: Book, k: Key)
    requires ValidContext(p, c) && SourcesRun(p, c, fs, s1, src)
    ensures Balanced(s1) && src.checked == s1.checked && (k in src.checked <==> SourceCheckedIn(p, c, fs, k))
  {
    EmptyIsBalanced();
    RecordedKeys(p, ModuleSrcSites(p, c, fs), EmptyBook, s1);
    VisitsKeepChecks(p, s1, ProbeEvents(p, c, s1.checks, ModuleProbes(p, c, fs)));
    ModuleKeysMean(p, c, fs, k);
  }

  lemma FinalCounts(p: Program, c: Context, s1: Book, src: Book, sites: multiset<Site>, prs: seq<Probe>, k: Key)
    requires Recorded(p, sites, EmptyBook, s1) && src == VisitAll(p, c, s1, prs)
    ensures var missed := MissedValues(ProbeEvents(p, c, s1.checks, prs), k);
            && Entries(src.unchecks, k) == (if k in src.checked then missed else {})
            && (RatingOf(src, k).Some? <==> k in src.checked && missed != {})
  {
    var ss: seq<Site> :| RecordedAs(p, ss, sites, EmptyBook, s1);
    SourceCountsMean(p, c, ss, prs, s1, src, k);
    SomeMissed(ProbeEvents(p, c, s1.checks, prs), k);
    assert Entries(EmptyBook.unchecks, k) == {};
  }

  /** The missed values of a source are exactly those of untested probes with its key, once the key was checked. */
  lemma MissesMean(p: Program, c: Context, fs: seq<Func>, s1: Book, src: Book, k: Key, v: Value)
    requires ValidContext(p, c) && SourcesRun(p, c, fs, s1, src)
    ensures v in Entries(src.unchecks, k) <==>
            SourceCheckedIn(p, c, fs, k) && MissedAt(p, c, fs, src.checked, k, v)
  {
    FirstStage(p, c, fs, s1, src, k);
    MissedValueMeans(p, c, fs, s1, k, v);
    FinalCounts(p, c, s1, src, ModuleSrcSites(p, c, fs), ModuleProbes(p, c, fs), k);
  }

  /** A source is reported exactly when it is checked somewhere and some untested probe has its key. */
  lemma SourceReportMeans(p: Program, c: Context, fs: seq<Func>, s1: Book, src: Book, k: Key)
    requires ValidContext(p, c) && SourcesRun(p, c, fs, s1, src)
    ensures RatingOf(src, k).Some? <==>
            SourceCheckedIn(p, c, fs, k) && exists v: Value :: MissedAt(p, c, fs, src.checked, k, v)
  {
    FirstStage(p, c, fs, s1, src, k);
    var missed := MissedValues(ProbeEvents(p, c, s1.checks, ModuleProbes(p, c, fs)), k);
    FinalCounts(p, c, s1, src, ModuleSrcSites(p, c, fs), ModuleProbes(p, c, fs), k);
    if v: Value :| v in missed {
      MissedValueMeans(p, c, fs, s1, k, v);
    }
    if v: Value :| MissedAt(p, c, fs, src.checked, k, v) {
      MissedValueMeans(p, c, fs, s1, k, v);
    }
  }

  /**
    After a run the result of g is reported exactly when some analysed function checks the result of a
    call of g, and some analysed function has a call of g whose result is used but not tested afterwards.
  */
  lemma ResultReportMeans(p: Program, c: Context, fs: seq<Func>, src: Book, use: Book, g: Func)
    requires ValidContext(p, c) && RunEnds(p, c, fs, src, use)
    ensures RatingOf(src, Key(OfFunc(g), -1)).Some? <==>
            ResultTested(p, c, fs, g) && exists v: Value :: ForgottenIn(p, c, fs, src.checked, v, g)
  {
    var k := Key(OfFunc(g), -1);
    var s1, _ := RunSplits(p, c, fs, src, use);
    SourceReportMeans(p, c, fs, s1, src, k);
    ResultKeyMeans(p, c, fs, g);
    SomeForgotten(p, c, fs, src.checked, g);
  }

  lemma SomeForgotten(p: Program, c: Context, fs: seq<Func>, checked: set<Key>, g: Func)
    ensures (exists v: Value :: MissedAt(p, c, fs, checked, Key(OfFunc(g), -1), v)) <==>
            exists v: Value :: ForgottenIn(p, c, fs, checked, v, g)
  {
    forall v: Value
      ensures MissedAt(p, c, fs, checked, Key(OfFunc(g), -1), v) <==> ForgottenIn(p, c, fs, checked, v, g)
    {
      ForgottenMeans(p, c, fs, checked, g, v);
    }
  }

  /** A call of g in the function uses its result, but nothing after the call tests it. */
  ghost predicate ResultForgotten(p: Program, c: Context, checked: set<Key>, f: Func, call: Value, g: Func) {
    && AnalysedIn(p, c, f, call) && Searches(p, c, call, g) && p.users[call] != []
    && !SourceTested(p, c, checked, Query(f, Key(OfFunc(g), -1), BlocksAfter(p.cfg, p.parent[call])), call)
  }

  ghost predicate ForgottenIn(p: Program, c: Context, fs: seq<Func>, checked: set<Key>, call: Value, g: Func) {
    exists f: Func :: f in fs && ResultForgotten(p, c, checked, f, call, g)
  }

  ghost function ResultProbe(p: Program, f: Func, call: Value, g: Func): Probe
    requires p.Has(call)
  {
    var k := Key(OfFunc(g), -1);
    Probe(k, call, {call}, Query(f, k, BlocksAfter(p.cfg, p.parent[call])))
  }

  lemma ResultProbeIs(p: Program, c: Context, f: Func, i: Value, pr: Probe, g: Func)
    requires p.Has(i)
    ensures IsProbe(p, c, f, i, pr) && pr.key == Key(OfFunc(g), -1) <==>
            pr == ResultProbe(p, f, i, g) && Searches(p, c, i, g) && p.users[i] != []
  {
    AfterIs(p, p.parent[i], pr.q.scope);
    assert IsProbe(p, c, f, i, pr) && pr.key == Key(OfFunc(g), -1) ==> IsResultProbe(p, c, f, i, pr);
    if pr == ResultProbe(p, f, i, g) && Searches(p, c, i, g) && p.users[i] != [] {
      assert IsResultProbe(p, c, f, i, pr);
    }
  }

  lemma ForgottenMeans(p: Program, c: Context, fs: seq<Func>, checked: set<Key>, g: Func, v: Value)
    ensures MissedAt(p, c, fs, checked, Key(OfFunc(g), -1), v) <==> ForgottenIn(p, c, fs, checked, v, g)
  {
    var k := Key(OfFunc(g), -1);
    if f: Func :| f in fs && ResultForgotten(p, c, checked, f, v, g) {
      ResultProbeIs(p, c, f, v, ResultProbe(p, f, v, g), g);
      assert Untested(p, c, checked, ResultProbe(p, f, v, g));
    }
    if MissedAt(p, c, fs, checked, k, v) {
      var f: Func, i: Value, pr: Probe :|
        && f in fs && AnalysedIn(p, c, f, i) && IsProbe(p, c, f, i, pr)
        && pr.key == k && pr.v == v && Untested(p, c, checked, pr);
      CodeIs(p, c, f, i);
      CodeHas(p, f);
      ResultProbeIs(p, c, f, i, pr, g);
      assert v in pr.roots;
    }
  }

  // ---------- missed uses ----------

  ghost predicate VisitedUse(p: Program, c: Context, fs: seq<Func>, pr: UseProbe) {
    exists f: Func, i: Value :: f in fs && AnalysedIn(p, c, f, i) && IsUseProbe(p, c, f, i, pr)
  }

  lemma FirstUseStage(p: Program, c: Context, fs: seq<Func>, u1: Book, use: Book, k: Key)
    requires UsesRun(p, c, fs, u1, use)
    ensures Balanced(u1) && use.checked == u1.checked && (k in use.checked <==> UseCheckedIn(p, c, fs, k))
  {
    EmptyIsBalanced();
    RecordedKeys(p, ModuleUseSites(p, c, fs), EmptyBook, u1);
    UsesVisitedKeepChecks(p, c, ModuleUseProbes(p, c, fs), u1, use);
    ModuleKeysMean(p, c, fs, k);
  }

  /** The answers to the visits of uses, as far as a rating depends on them. */
  lemma UseAnswers(p: Program, c: Context, sites: multiset<Site>, prs: seq<UseProbe>, u1: Book, use: Book, k: Key)
    returns (es: seq<Event>)
    requires Recorded(p, sites, EmptyBook, u1) && UsesVisited(p, c, prs, u1, use)
    ensures UseEvents(p, c, u1, prs, es)
    ensures RatingOf(use, k).Some? <==> k in use.checked && MissedValues(es, k) != {}
  {
    var ss: seq<Site> :| RecordedAs(p, ss, sites, EmptyBook, u1);
    es :| UseEvents(p, c, u1, prs, es) && use == ApplyAll(p, u1, es);
    UseEventsAreVisits(p, c, u1, prs, es);
    CountersMean(p, ss, u1, es, k);
    SomeMissed(es, k);
  }

  /** A reported use is protected somewhere, and some argument of such a use is not itself guarded before its call. */
  lemma ReportedUse(p: Program, c: Context, fs: seq<Func>, u1: Book, use: Book, k: Key) returns (pr: UseProbe)
    requires UsesRun(p, c, fs, u1, use) && RatingOf(use, k).Some?
    ensures UseCheckedIn(p, c, fs, k) && VisitedUse(p, c, fs, pr) && pr.key == k
    ensures !GuardedAt(p, c, use.checked, k, Point(pr.arg, pr.at))
  {
    FirstUseStage(p, c, fs, u1, use, k);
    var prs := ModuleUseProbes(p, c, fs);
    var es := UseAnswers(p, c, ModuleUseSites(p, c, fs), prs, u1, use, k);
    var e :| e in es && e.Visited? && e.key == k && !e.isChecked;
    var i :| 0 <= i < |es| && es[i] == e;
    pr := prs[i];
    assert UseEvent(p, c, u1, pr, e) && pr in prs;
    ModuleUseProbesMean(p, c, fs, pr);
    CoverStartsUnguarded(p, c, u1, k, Point(pr.arg, pr.at));
  }

  /** A use that is protected somewhere is reported as soon as nothing before some such use guards its argument. */
  lemma UnguardedUseIsReported(p: Program, c: Context, fs: seq<Func>, u1: Book, use: Book, pr: UseProbe)
    requires ValidContext(p, c) && UsesRun(p, c, fs, u1, use)
    requires UseCheckedIn(p, c, fs, pr.key) && VisitedUse(p, c, fs, pr)
    requires !UseGuarded(p, c, use.checked, pr.key, Point(pr.arg, pr.at))
    ensures RatingOf(use, pr.key).Some?
  {
    FirstUseStage(p, c, fs, u1, use, pr.key);
    var prs := ModuleUseProbes(p, c, fs);
    var es := UseAnswers(p, c, ModuleUseSites(p, c, fs), prs, u1, use, pr.key);
    ModuleUseProbesMean(p, c, fs, pr);
    var i :| 0 <= i < |prs| && prs[i] == pr;
    assert UseEvent(p, c, u1, pr, es[i]) && es[i] in es;
    WitnessMeans(p, c, u1, pr.key, Point(pr.arg, pr.at));
    assert pr.arg in MissedValues(es, pr.key);
  }
}
