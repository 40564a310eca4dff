/** Stage 1: counting the checks of sources and uses. */
module CheckStage {
  import opened Graphs
  import opened ControlFlow
  import opened Ir
  import opened Slicing
  import opened Ledger
  import opened ForwardSearch
  import opened BackwardSearch
  import opened UseSearch

  /** The function a direct call really calls. */
  function Resolved(p: Program, c: Context, call: Value): Option<Func>
    requires p.Has(call) && p.nodes[call].Call?
  {
    if p.nodes[call].direct.None? then None
    else if call in c.callees && c.callees[call] != [] then Some(c.callees[call][0])
    else p.nodes[call].direct
  }

  /** The interesting targets of a check: neither constants nor globals. */
  ghost function CheckedTargets(p: Program, c: Context, cmp: Value): set<Value>
    requires p.Has(cmp)
  {
    set t | t in TargetsOf(p, c.aliases, Items(CheckedOperands(p.nodes[cmp]))) && p.Has(t) && !p.nodes[t].IsConstant()
  }

  function SiteSet(cmp: Value, t: Value, at: int, key: Option<Key>): set<Site> {
    match key case None => {} case Some(k) => {Site(cmp, t, at, k)}
  }

  /** The sites of several targets, given those of each. */
  ghost function SitesOver(ts: set<Value>, sitesOf: Value -> set<Site>): set<Site> {
    set t, s | t in ts && s in sitesOf(t) :: s
  }

  ghost predicate ByTarget(sitesOf: Value -> set<Site>) {
    forall t: Value, s | s in sitesOf(t) :: s.target == t
  }

  lemma TargetsApart(sitesOf: Value -> set<Site>, ts: set<Value>, t: Value)
    requires t !in ts && ByTarget(sitesOf)
    ensures SitesOver(ts, sitesOf) !! sitesOf(t)
  {
    forall s | s in SitesOver(ts, sitesOf) ensures s.target in ts {
      var x :| x in ts && s in sitesOf(x);
    }
  }

  lemma OneMore(p: Program, sitesOf: Value -> set<Site>, ts: set<Value>, t: Value, b0: Book, b1: Book, b2: Book)
    requires SitesOver(ts, sitesOf) !! sitesOf(t)
    requires RecordedSet(p, SitesOver(ts, sitesOf), b0, b1) && RecordedSet(p, sitesOf(t), b1, b2)
    ensures RecordedSet(p, SitesOver(ts + {t}, sitesOf), b0, b2)
  {
    assert SitesOver(ts + {t}, sitesOf) == SitesOver(ts, sitesOf) + sitesOf(t);
    RecordedJoin(p, SitesOver(ts, sitesOf), sitesOf(t), b0, b1, b2);
  }

  // ---------- sites of sources ----------

  /** The key of an argument at one caller, if that is an indirect call. */
  function CallerKey(p: Program, f: Func, t: Value, call: Value): Option<Key>
    requires f < |p.funcs|
  {
    if p.Has(call) && p.nodes[call].Call? && p.nodes[call].direct.None?
    then Some(Key(OfCall(call), ArgIndex(p.funcs[f].params, t))) else None
  }

  ghost function CallerSites(p: Program, f: Func, cmp: Value, t: Value, calls: set<Value>): set<Site>
    requires f < |p.funcs|
  {
    set i | i in calls && CallerKey(p, f, t, i).Some? :: Site(cmp, t, i, CallerKey(p, f, t, i).value)
  }

  /** An argument stands for the indirect calls of its function. */
  ghost function ArgumentSites(p: Program, c: Context, f: Func, cmp: Value, t: Value): set<Site>
    requires f < |p.funcs|
  {
    if p.funcs[f].addressTaken then CallerSites(p, f, cmp, t, CallersOf(c, f)) else {}
  }

  /** The key under which a target is passed out of a call. */
  function OutputKey(p: Program, c: Context, reach: set<Block>, t: Value, u: Value): Option<Key> {
    if !p.Has(u) || !p.nodes[u].Call? || p.parent[u] !in reach || ArgIndex(p.nodes[u].args, t) == -1 then None
    else
      match Resolved(p, c, u)
      case None => None
      case Some(cf) => Some(Key(OfFunc(cf), ArgIndex(p.nodes[u].args, t)))
  }

  /** One site for each listed user that passes the target out. */
  ghost function OutputSites(p: Program, c: Context, reach: set<Block>, cmp: Value, t: Value,
                             us: seq<Value>): set<Site> {
    set k | 0 <= k < |us| && OutputKey(p, c, reach, t, us[k]).Some? ::
      Site(cmp, t, k, OutputKey(p, c, reach, t, us[k]).value)
  }

  /** A returned value stands for the function that returns it. */
  function ResultKey(p: Program, c: Context, call: Value): Option<Key>
    requires p.Has(call) && p.nodes[call].Call?
  {
    match Resolved(p, c, call)
    case None => None
    case Some(cf) => Some(Key(OfFunc(cf), -1))
  }

  ghost function TargetSites(p: Program, c: Context, f: Func, reach: set<Block>, cmp: Value, t: Value): (r: set<Site>)
    requires p.Has(t) && f < |p.funcs|
    ensures forall s | s in r :: s.cmp == cmp && s.target == t
  {
    match p.nodes[t]
    case Param(_, _) => ArgumentSites(p, c, f, cmp, t)
    case Call(_, _, _, _, _, _) => SiteSet(cmp, t, 0, ResultKey(p, c, t))
    case _ => OutputSites(p, c, reach, cmp, t, p.users[t])
  }

  ghost function Sources(p: Program, c: Context, f: Func, reach: set<Block>, cmp: Value): (r: Value -> set<Site>)
    requires f < |p.funcs|
    ensures ByTarget(r) && forall t: Value, s | s in r(t) :: s.cmp == cmp
  {
    (t: Value) => if p.Has(t) then TargetSites(p, c, f, reach, cmp, t) else {}
  }

  /** The places where one check checks a source. */
  ghost function SrcSites(p: Program, c: Context, f: Func, cmp: Value): (r: set<Site>)
    requires p.Has(cmp) && f < |p.funcs|
    ensures forall s | s in r :: s.cmp == cmp
  {
    SitesOver(CheckedTargets(p, c, cmp), Sources(p, c, f, BlocksBefore(p.cfg, p.parent[cmp]), cmp))
  }

  // ---------- sites of uses ----------

  function UseKey(p: Program, c: Context, s: UseSite): Option<Key> {
    if !p.Has(s.inst) || !p.nodes[s.inst].Call? then None
    else
      match Resolved(p, c, s.inst)
      case None => None
      case Some(cf) => Some(Key(OfFunc(cf), s.argNo))
  }

  ghost function SitesOfUses(p: Program, c: Context, cmp: Value, t: Value, ss: set<UseSite>): set<Site> {
    set s | s in ss && UseKey(p, c, s).Some? :: Site(cmp, t, s.inst, UseKey(p, c, s).value)
  }

  /** The places where one check protects a use of one of its targets. */
  ghost function ProtectedSites(p: Program, c: Context, cmp: Value, t: Value): (r: set<Site>)
    requires p.Has(cmp)
    ensures forall s | s in r :: s.cmp == cmp && s.target == t
  {
    SitesOfUses(p, c, cmp, t, UsesOfTarget(p, c, Border(cmp, BlocksAfter(p.cfg, p.parent[cmp])), t))
  }

  ghost function Protected(p: Program, c: Context, cmp: Value): (r: Value -> set<Site>)
    requires p.Has(cmp)
    ensures ByTarget(r) && forall t: Value, s | s in r(t) :: s.cmp == cmp
  {
    (t: Value) => ProtectedSites(p, c, cmp, t)
  }

  ghost function UseSites(p: Program, c: Context, cmp: Value): (r: set<Site>)
    requires p.Has(cmp)
    ensures forall s | s in r :: s.cmp == cmp
  {
    SitesOver(CheckedTargets(p, c, cmp), Protected(p, c, cmp))
  }

  // ---------- counting ----------

  /** Counts the check for a key, if there is one. */
  method CountKey(p: Program, cmp: Value, ghost t: Value, ghost at: int, key: Option<Key>, before: Book)
    returns (book: Book)
    requires p.Has(cmp) && p.nodes[cmp].Cmp?
    ensures RecordedSet(p, SiteSet(cmp, t, at, key), before, book)
  {
    match key {
      case None =>
        RecordedNothing(p, before);
        book := before;
      case Some(k) =>
        RecordedOne(p, Site(cmp, t, at, k), before);
        book := AddCheck(before, k, ModelCheck(p, cmp, k));
    }
  }

  method CountArgument(p: Program, c: Context, f: Func, cmp: Value, t: Value, before: Book) returns (book: Book)
    requires f < |p.funcs| && p.Has(cmp) && p.nodes[cmp].Cmp? && ValidContext(p, c)
    ensures RecordedSet(p, ArgumentSites(p, c, f, cmp, t), before, book)
  {
    book := before;
    RecordedNothing(p, before);
    if !p.funcs[f].addressTaken {
      return;
    }
    var calls := CallersOf(c, f);
    var rest := calls;
    assert CallerSites(p, f, cmp, t, {}) == {};
    TakeNone(calls);
    while rest != {}
      invariant rest <= calls && RecordedSet(p, CallerSites(p, f, cmp, t, calls - rest), before, book)
    {
      var i :| i in rest;
      ghost var done, b1 := calls - rest, book;
      book := CountKey(p, cmp, t, i, CallerKey(p, f, t, i), book);
      OneMoreCaller(p, f, cmp, t, done, i);
      RecordedJoin(p, CallerSites(p, f, cmp, t, done), SiteSet(cmp, t, i, CallerKey(p, f, t, i)), before, b1, book);
      TakeOne(calls, rest, i);
      rest := rest - {i};
    }
  }

  lemma OneMoreCaller(p: Program, f: Func, cmp: Value, t: Value, calls: set<Value>, i: Value)
    requires f < |p.funcs| && i !in calls
    ensures var more := SiteSet(cmp, t, i, CallerKey(p, f, t, i));
            && CallerSites(p, f, cmp, t, calls + {i}) == CallerSites(p, f, cmp, t, calls) + more
            && CallerSites(p, f, cmp, t, calls) !! more
  {
  }

  method CountOutputs(p: Program, c: Context, reach: set<Block>, cmp: Value, t: Value, before: Book)
    returns (book: Book)
    requires p.Has(cmp) && p.nodes[cmp].Cmp? && p.Has(t)
    ensures RecordedSet(p, OutputSites(p, c, reach, cmp, t, p.users[t]), before, book)
  {
    book := before;
    RecordedNothing(p, before);
    var us := p.users[t];
    assert OutputSites(p, c, reach, cmp, t, us[..0]) == {};
    for i := 0 to |us|
      invariant RecordedSet(p, OutputSites(p, c, reach, cmp, t, us[..i]), before, book)
    {
      ghost var b1 := book;
      var key := OutputKey(p, c, reach, t, us[i]);
      book := CountKey(p, cmp, t, i, key, book);
      OneMoreOutput(p, c, reach, cmp, t, us, i);
      RecordedJoin(p, OutputSites(p, c, reach, cmp, t, us[..i]), SiteSet(cmp, t, i, key), before, b1, book);
    }
    PrefixIsAll(us);
  }

  lemma OneMoreOutput(p: Program, c: Context, reach: set<Block>, cmp: Value, t: Value, us: seq<Value>, i: nat)
    requires i < |us|
    ensures var done := OutputSites(p, c, reach, cmp, t, us[..i]);
            var more := SiteSet(cmp, t, i, OutputKey(p, c, reach, t, us[i]));
            OutputSites(p, c, reach, cmp, t, us[..i + 1]) == done + more && done !! more
  {
    var all := OutputSites(p, c, reach, cmp, t, us[..i + 1]);
    var done, more := OutputSites(p, c, reach, cmp, t, us[..i]), SiteSet(cmp, t, i, OutputKey(p, c, reach, t, us[i]));
    forall s ensures s in all <==> s in done + more {
      if s in done {
        assert us[..i][s.at] == us[..i + 1][s.at];
      }
      if s in all && s.at != i {
        assert us[..i][s.at] == us[..i + 1][s.at];
      }
      if s in more {
        assert us[..i + 1][i] == us[i];
      }
    }
  }

  /** Records one check at every source site of a target. */
  method CountTarget(p: Program, c: Context, f: Func, reach: set<Block>, cmp: Value, t: Value, before: Book)
    returns (book: Book)
    requires f < |p.funcs| && p.Has(cmp) && p.nodes[cmp].Cmp? && p.Has(t) && ValidContext(p, c)
    ensures RecordedSet(p, TargetSites(p, c, f, reach, cmp, t), before, book)
  {
    book := before;
    match p.nodes[t] {
      case Param(_, _) =>
        book := CountArgument(p, c, f, cmp, t, book);
      case Call(_, _, _, _, _, _) =>
        book := CountKey(p, cmp, t, 0, ResultKey(p, c, t), book);
      case _ =>
        book := CountOutputs(p, c, reach, cmp, t, book);
    }
  }

  method CountSources(p: Program, c: Context, f: Func, cmp: Value, targets: set<Value>, before: Book)
    returns (book: Book)
    requires f < |p.funcs| && p.Has(cmp) && p.nodes[cmp].Cmp? && ValidContext(p, c)
    requires forall t | t in targets :: p.Has(t)
    ensures RecordedSet(p, SitesOver(targets, Sources(p, c, f, BlocksBefore(p.cfg, p.parent[cmp]), cmp)), before, book)
  {
    var reach := CollectPredReachBlocks(p.cfg, p.parent[cmp], {});
    CollectedBackward(p.cfg, p.parent[cmp], reach);
    ghost var g := Sources(p, c, f, reach, cmp);
    book := before;
    RecordedNothing(p, before);
    var rest := targets;
    assert SitesOver({}, g) == {};
    TakeNone(targets);
    while rest != {}
      invariant rest <= targets
      invariant RecordedSet(p, SitesOver(targets - rest, g), before, book)
    {
      var t :| t in rest;
      ghost var b1 := book;
      book := CountTarget(p, c, f, reach, cmp, t, book);
      TargetsApart(g, targets - rest, t);
      OneMore(p, g, targets - rest, t, before, b1, book);
      TakeOne(targets, rest, t);
      rest := rest - {t};
    }
  }

  /** Records one check at every protected use of a target. */
  method CountUsesOf(p: Program, c: Context, cmp: Value, t: Value, uses: set<UseSite>, before: Book)
    returns (book: Book)
    requires p.Has(cmp) && p.nodes[cmp].Cmp?
    ensures RecordedSet(p, SitesOfUses(p, c, cmp, t, uses), before, book)
  {
    book := before;
    RecordedNothing(p, before);
    var rest := uses;
    assert SitesOfUses(p, c, cmp, t, {}) == {};
    TakeNone(uses);
    while rest != {}
      invariant rest <= uses && RecordedSet(p, SitesOfUses(p, c, cmp, t, uses - rest), before, book)
    {
      var s :| s in rest;
      ghost var done, b1 := uses - rest, book;
      book := CountKey(p, cmp, t, s.inst, UseKey(p, c, s), book);
      OneMoreUse(p, c, cmp, t, done, s);
      RecordedJoin(p, SitesOfUses(p, c, cmp, t, done), SiteSet(cmp, t, s.inst, UseKey(p, c, s)), before, b1, book);
      TakeOne(uses, rest, s);
      rest := rest - {s};
    }
  }

  lemma OneMoreUse(p: Program, c: Context, cmp: Value, t: Value, ss: set<UseSite>, s: UseSite)
    requires s !in ss
    ensures var done, more := SitesOfUses(p, c, cmp, t, ss), SiteSet(cmp, t, s.inst, UseKey(p, c, s));
            SitesOfUses(p, c, cmp, t, ss + {s}) == done + more && done !! more
  {
  }

  method CountUses(p: Program, c: Context, cmp: Value, targets: set<Value>, before: Book) returns (book: Book)
    requires p.Has(cmp) && p.nodes[cmp].Cmp? && ValidContext(p, c) && forall t | t in targets :: p.Has(t)
    ensures RecordedSet(p, SitesOver(targets, Protected(p, c, cmp)), before, book)
  {
    book := before;
    RecordedNothing(p, before);
    ghost var g := Protected(p, c, cmp);
    var rest := targets;
    assert SitesOver({}, g) == {};
    TakeNone(targets);
    while rest != {}
      invariant rest <= targets
      invariant RecordedSet(p, SitesOver(targets - rest, g), before, book)
    {
      var t :| t in rest;
      ghost var b1 := book;
      var uses := CollectUses(p, c, cmp, t);
      book := CountUsesOf(p, c, cmp, t, uses, book);
      TargetsApart(g, targets - rest, t);
      OneMore(p, g, targets - rest, t, before, b1, book);
      TakeOne(targets, rest, t);
      rest := rest - {t};
    }
  }

  /** Count one security check for its sources and for the uses it protects: once at every site. */
  method CountSrcUseChecks(p: Program, c: Context, f: Func, cmp: Value, src: Book, use: Book)
    returns (src': Book, use': Book)
    requires f < |p.funcs| && p.Has(cmp) && p.nodes[cmp].Cmp? && ValidContext(p, c)
    ensures RecordedSet(p, SrcSites(p, c, f, cmp), src, src')
    ensures RecordedSet(p, UseSites(p, c, cmp), use, use')
  {
    var found, _ := IdentifyCheckedTargets(p, c.aliases, cmp);
    // Constants say nothing about a source
    var targets := set t | t in found && p.Has(t) && !p.nodes[t].IsConstant();
    assert targets == CheckedTargets(p, c, cmp);
    src' := CountSources(p, c, f, cmp, targets, src);
    use' := CountUses(p, c, cmp, targets, use);
  }
}
