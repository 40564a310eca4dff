/** Counting checks and misses. */
module Ledger {
  import opened Ir

  /** A source or a use: a called function or an indirect call, with an argument number. */
  datatype Subject = OfFunc(f: Func) | OfCall(v: Value)
  datatype Key = Key(subject: Subject, argNo: int)

  datatype SCOperator = ICMP_OTHER | ICMP_EQ | ICMP_NE | ICMP_GT | ICMP_LT
  datatype SCCondition = SCC_OTHER | SCC_CONST

  /** How a comparison tests its subject: an operator, and constant or not. */
  datatype ModelSC = ModelSC(op: SCOperator, cond: SCCondition, subject: Subject, argNo: int)

  function OperatorOf(pred: Predicate): SCOperator {
    match pred
    case EQ => ICMP_EQ
    case NE => ICMP_NE
    case SGT => ICMP_GT
    case SGE => ICMP_GT
    case SLT => ICMP_LT
    case SLE => ICMP_LT
    case UGT => ICMP_GT
    case UGE => ICMP_GT
    case ULT => ICMP_LT
    case ULE => ICMP_LT
    case FloatPredicate => ICMP_OTHER
  }

  function ModelCheck(p: Program, cmp: Value, key: Key): ModelSC
    requires p.Has(cmp) && p.nodes[cmp].Cmp?
  {
    var rhs := p.nodes[cmp].rhs;
    ModelSC(OperatorOf(p.nodes[cmp].pred),
            if p.Has(rhs) && p.nodes[rhs].IsConstant() then SCC_CONST else SCC_OTHER,
            key.subject, key.argNo)
  }

  /** Models compare by their subject only, so a set never holds two of one subject. */
  predicate HoldsModel(models: set<ModelSC>, m: ModelSC) {
    exists x | x in models :: x.subject == m.subject
  }

  function InsertModel(models: set<ModelSC>, m: ModelSC): set<ModelSC> {
    if HoldsModel(models, m) then models else models + {m}
  }

  /** The models of the checks of each key. */
  type Models = map<Key, set<ModelSC>>

  datatype Book = Book(
    checkCount: map<Key, nat>,
    checked: set<Key>,
    checks: Models,
    uncheckCount: map<Key, nat>,
    unchecks: map<Key, set<Value>>,
    totalCount: map<Key, nat>)

  const EmptyBook := Book(map[], {}, map[], map[], map[], map[])

  function Count(m: map<Key, nat>, k: Key): nat {
    if k in m then m[k] else 0
  }

  function Entries<T>(m: map<Key, set<T>>, k: Key): set<T> {
    if k in m then m[k] else {}
  }

  function AddCheck(b: Book, k: Key, m: ModelSC): Book {
    b.(checkCount := b.checkCount[k := Count(b.checkCount, k) + 1],
       checked := b.checked + {k},
       checks := b.checks[k := InsertModel(Entries(b.checks, k), m)])
  }

  function AddUncheck(b: Book, k: Key, v: Value): Book {
    b.(uncheckCount := b.uncheckCount[k := Count(b.uncheckCount, k) + 1],
       unchecks := b.unchecks[k := Entries(b.unchecks, k) + {v}])
  }

  function AddTotal(b: Book, k: Key): Book {
    b.(totalCount := b.totalCount[k := Count(b.totalCount, k) + 1])
  }

  /** Whether a comparison counts as a check of the key. */
  function InModeledCheckSet(p: Program, models: Models, cmp: Value, key: Key): bool
    requires p.Has(cmp) && p.nodes[cmp].Cmp?
  {
    HoldsModel(Entries(models, key), ModelCheck(p, cmp, key))
  }

  // ---------- what every run keeps ----------

  /** The three records of a check agree, and there is at most one model. */
  ghost predicate ChecksAgree(b: Book, k: Key) {
    && (k in b.checked <==> Count(b.checkCount, k) > 0)
    && (k in b.checked <==> Entries(b.checks, k) != {})
    && |Entries(b.checks, k)| <= 1
    && (forall m | m in Entries(b.checks, k) :: m.subject == k.subject)
  }

  /** Missing checks are counted only for checked keys and never exceed the total. */
  ghost predicate UnchecksBounded(b: Book, k: Key) {
    && |Entries(b.unchecks, k)| <= Count(b.uncheckCount, k) <= Count(b.totalCount, k)
    && (Count(b.totalCount, k) > 0 ==> k in b.checked)
  }

  ghost predicate Balanced(b: Book) {
    forall k :: ChecksAgree(b, k) && UnchecksBounded(b, k)
  }

  /** One place where a comparison checks a key: at a caller, a user or a use of one of its targets. */
  datatype Site = Site(cmp: Value, target: Value, at: int, key: Key)

  /** One entry of a run: a modelled check of stage 1, or a call site visited in stage 2. */
  datatype Event =
    | Checked(site: Site)
    | Visited(key: Key, v: Value, isChecked: bool)

  predicate ValidSite(p: Program, s: Site) {
    p.Has(s.cmp) && p.nodes[s.cmp].Cmp?
  }

  predicate ValidEvent(p: Program, e: Event) {
    e.Checked? ==> ValidSite(p, e.site)
  }

  /** A visit counts only when its key was checked in stage 1. */
  function Apply(p: Program, b: Book, e: Event): Book
    requires ValidEvent(p, e)
  {
    match e
    case Checked(site) => AddCheck(b, site.key, ModelCheck(p, site.cmp, site.key))
    case Visited(key, v, isChecked) =>
      if key !in b.checked then b
      else AddTotal(if isChecked then b else AddUncheck(b, key, v), key)
  }

  function ApplyAll(p: Program, b: Book, es: seq<Event>): Book
    requires forall e | e in es :: ValidEvent(p, e)
    decreases |es|
  {
    if es == [] then b
    else
      assert es[0] in es && forall e | e in es[1..] :: e in es;
      ApplyAll(p, Apply(p, b, es[0]), es[1..])
  }

  lemma {:induction false} ApplyAppend(p: Program, b: Book, xs: seq<Event>, ys: seq<Event>)
    requires forall e | e in xs || e in ys :: ValidEvent(p, e)
    ensures forall e | e in xs + ys :: ValidEvent(p, e)
    ensures ApplyAll(p, b, xs + ys) == ApplyAll(p, ApplyAll(p, b, xs), ys)
    decreases |xs|
  {
    if xs == [] {
      assert xs + ys == ys;
    } else {
      assert (xs + ys)[1..] == xs[1..] + ys;
      assert xs[0] in xs && forall e | e in xs[1..] :: e in xs;
      ApplyAppend(p, Apply(p, b, xs[0]), xs[1..], ys);
    }
  }

  // ---------- recorded checks ----------

  /** The sites are recorded one after the other. */
  function RecordAll(p: Program, b: Book, ss: seq<Site>): Book
    requires forall s | s in ss :: ValidSite(p, s)
    decreases |ss|
  {
    if ss == [] then b
    else
      assert ss[0] in ss && forall s | s in ss[1..] :: s in ss;
      RecordAll(p, Apply(p, b, Checked(ss[0])), ss[1..])
  }

  lemma {:induction false} RecordAppend(p: Program, b: Book, xs: seq<Site>, ys: seq<Site>)
    requires forall s | s in xs || s in ys :: ValidSite(p, s)
    ensures RecordAll(p, b, xs + ys) == RecordAll(p, RecordAll(p, b, xs), ys)
    decreases |xs|
  {
    if xs == [] {
      assert xs + ys == ys;
    } else {
      assert (xs + ys)[1..] == xs[1..] + ys;
      assert xs[0] in xs && forall s | s in xs[1..] :: s in xs;
      RecordAppend(p, Apply(p, b, Checked(xs[0])), xs[1..], ys);
    }
  }

  /** The second book is the first after recording exactly the given sites, in some order. */
  ghost predicate Recorded(p: Program, sites: multiset<Site>, b0: Book, b1: Book) {
    exists ss: seq<Site> :: RecordedAs(p, ss, sites, b0, b1)
  }

  ghost predicate RecordedAs(p: Program, ss: seq<Site>, sites: multiset<Site>, b0: Book, b1: Book) {
    && (forall s | s in ss :: ValidSite(p, s))
    && multiset(ss) == sites
    && b1 == RecordAll(p, b0, ss)
  }

  /** Each of the given sites is recorded once. */
  ghost predicate RecordedSet(p: Program, sites: set<Site>, b0: Book, b1: Book) {
    Recorded(p, multiset(sites), b0, b1)
  }

  lemma RecordedNothing(p: Program, b: Book)
    ensures Recorded(p, multiset{}, b, b)
    ensures RecordedSet(p, {}, b, b)
  {
    assert RecordedAs(p, [], multiset{}, b, b);
    assert multiset(var none: set<Site> := {}; none) == multiset{};
  }

  lemma RecordedTwice(p: Program, m1: multiset<Site>, m2: multiset<Site>, b0: Book, b1: Book, b2: Book)
    requires Recorded(p, m1, b0, b1) && Recorded(p, m2, b1, b2)
    ensures Recorded(p, m1 + m2, b0, b2)
  {
    var xs: seq<Site> :| RecordedAs(p, xs, m1, b0, b1);
    var ys: seq<Site> :| RecordedAs(p, ys, m2, b1, b2);
    RecordAppend(p, b0, xs, ys);
    assert RecordedAs(p, xs + ys, m1 + m2, b0, b2);
  }

  lemma RecordedJoin(p: Program, s1: set<Site>, s2: set<Site>, b0: Book, b1: Book, b2: Book)
    requires s1 !! s2 && RecordedSet(p, s1, b0, b1) && RecordedSet(p, s2, b1, b2)
    ensures RecordedSet(p, s1 + s2, b0, b2)
  {
    RecordedTwice(p, multiset(s1), multiset(s2), b0, b1, b2);
    BagsJoin(s1, s2);
  }

  lemma BagsJoin(s1: set<Site>, s2: set<Site>)
    requires s1 !! s2
    ensures multiset(s1 + s2) == multiset(s1) + multiset(s2)
  {
  }

  lemma RecordedOne(p: Program, s: Site, b: Book)
    requires ValidSite(p, s)
    ensures RecordedSet(p, {s}, b, AddCheck(b, s.key, ModelCheck(p, s.cmp, s.key)))
  {
    assert [s][1..] == [];
    assert RecordAll(p, b, [s]) == RecordAll(p, Apply(p, b, Checked(s)), []);
    assert multiset([s]) == multiset({s});
    assert RecordedAs(p, [s], multiset({s}), b, AddCheck(b, s.key, ModelCheck(p, s.cmp, s.key)));
  }

  /** How many of the sites check a key. */
  function Times(ss: seq<Site>, k: Key): nat {
    if ss == [] then 0 else (if ss[0].key == k then 1 else 0) + Times(ss[1..], k)
  }

  lemma {:induction false} TimesAppend(xs: seq<Site>, ys: seq<Site>, k: Key)
    ensures Times(xs + ys, k) == Times(xs, k) + Times(ys, k)
    decreases |xs|
  {
    if xs == [] {
      assert xs + ys == ys;
    } else {
      assert (xs + ys)[1..] == xs[1..] + ys;
      TimesAppend(xs[1..], ys, k);
    }
  }

  /** Taking out one occurrence of a site. */
  lemma {:induction false} TakeSite(ys: seq<Site>, s: Site, k: Key) returns (rest: seq<Site>)
    requires s in multiset(ys)
    ensures multiset(rest) == multiset(ys) - multiset{s}
    ensures Times(ys, k) == (if s.key == k then 1 else 0) + Times(rest, k)
  {
    var i :| 0 <= i < |ys| && ys[i] == s;
    rest := ys[..i] + ys[i + 1..];
    assert ys == ys[..i] + ([s] + ys[i + 1..]);
    TimesAppend(ys[..i], [s] + ys[i + 1..], k);
    TimesAppend(ys[..i], ys[i + 1..], k);
    assert ([s] + ys[i + 1..])[1..] == ys[i + 1..];
  }

  /** The number of checks of a key does not depend on the order of the sites. */
  lemma {:induction false} TimesIgnoresOrder(xs: seq<Site>, ys: seq<Site>, k: Key)
    requires multiset(xs) == multiset(ys)
    ensures Times(xs, k) == Times(ys, k)
    decreases |xs|
  {
    if xs == [] {
      assert |multiset(ys)| == 0;
    } else {
      assert xs == [xs[0]] + xs[1..];
      assert multiset(xs[1..]) == multiset(xs) - multiset{xs[0]};
      var rest := TakeSite(ys, xs[0], k);
      TimesIgnoresOrder(xs[1..], rest, k);
    }
  }

  lemma {:induction false} SitesAreCounted(p: Program, b: Book, ss: seq<Site>, k: Key)
    requires forall s | s in ss :: ValidSite(p, s)
    ensures Count(RecordAll(p, b, ss).checkCount, k) == Count(b.checkCount, k) + Times(ss, k)
    decreases |ss|
  {
    if ss != [] {
      assert ss[0] in ss && forall s | s in ss[1..] :: s in ss;
      SitesAreCounted(p, Apply(p, b, Checked(ss[0])), ss[1..], k);
    }
  }

  ghost function KeysOf(ss: seq<Site>): set<Key> {
    set s | s in ss :: s.key
  }

  ghost function KeysIn(sites: multiset<Site>): set<Key> {
    set s | s in sites :: s.key
  }

  /** The second book has checks for more keys and the same missing checks. */
  ghost predicate KeysAdded(b: Book, r: Book, keys: set<Key>) {
    && r.checked == b.checked + keys
    && r.uncheckCount == b.uncheckCount && r.unchecks == b.unchecks && r.totalCount == b.totalCount
  }

  lemma KeysAddedTwice(b0: Book, b1: Book, b2: Book, k1: set<Key>, k2: set<Key>)
    requires KeysAdded(b0, b1, k1) && KeysAdded(b1, b2, k2)
    ensures KeysAdded(b0, b2, k1 + k2)
  {
  }

  lemma {:induction false} SitesRecordKeys(p: Program, b: Book, ss: seq<Site>)
    requires forall s | s in ss :: ValidSite(p, s)
    ensures KeysAdded(b, RecordAll(p, b, ss), KeysOf(ss))
    decreases |ss|
  {
    if ss != [] {
      assert ss[0] in ss && forall s | s in ss[1..] :: s in ss;
      var b1 := Apply(p, b, Checked(ss[0]));
      SitesRecordKeys(p, b1, ss[1..]);
      assert ss == [ss[0]] + ss[1..];
      KeysAddedTwice(b, b1, RecordAll(p, b, ss), {ss[0].key}, KeysOf(ss[1..]));
    }
  }

  lemma {:induction false} RecordingKeepsBalance(p: Program, b: Book, ss: seq<Site>)
    requires Balanced(b) && forall s | s in ss :: ValidSite(p, s)
    ensures Balanced(RecordAll(p, b, ss))
    decreases |ss|
  {
    if ss != [] {
      assert ss[0] in ss && forall s | s in ss[1..] :: s in ss;
      CheckKeepsBalance(b, ss[0].key, ModelCheck(p, ss[0].cmp, ss[0].key));
      RecordingKeepsBalance(p, Apply(p, b, Checked(ss[0])), ss[1..]);
    }
  }

  /** Recording sites adds exactly their keys, keeps the balance and touches no missing check. */
  lemma RecordedKeys(p: Program, sites: multiset<Site>, b0: Book, b1: Book)
    requires Recorded(p, sites, b0, b1)
    ensures KeysAdded(b0, b1, KeysIn(sites))
    ensures Balanced(b0) ==> Balanced(b1)
  {
    var ss: seq<Site> :| RecordedAs(p, ss, sites, b0, b1);
    SitesRecordKeys(p, b0, ss);
    assert forall s :: s in ss <==> s in sites;
    if Balanced(b0) {
      RecordingKeepsBalance(p, b0, ss);
    }
  }

  /** Whatever the order of recording, a key is counted once for each of its sites. */
  lemma RecordedTimes(p: Program, sites: multiset<Site>, b0: Book, b1: Book, ss: seq<Site>, k: Key)
    requires Recorded(p, sites, b0, b1) && multiset(ss) == sites
    ensures Count(b1.checkCount, k) == Count(b0.checkCount, k) + Times(ss, k)
  {
    var rs: seq<Site> :| RecordedAs(p, rs, sites, b0, b1);
    SitesAreCounted(p, b0, rs, k);
    TimesIgnoresOrder(rs, ss, k);
  }

  // ---------- what the counters count ----------

  function Visits(es: seq<Event>, k: Key): nat {
    if es == [] then 0 else (if es[0].Visited? && es[0].key == k then 1 else 0) + Visits(es[1..], k)
  }

  function MissedVisits(es: seq<Event>, k: Key): nat {
    if es == [] then 0
    else (if es[0].Visited? && es[0].key == k && !es[0].isChecked then 1 else 0) + MissedVisits(es[1..], k)
  }

  ghost function MissedValues(es: seq<Event>, k: Key): set<Value> {
    set e | e in es && e.Visited? && e.key == k && !e.isChecked :: e.v
  }

  /** The counters of a key after some visits: grown by its visits and misses if it was checked. */
  ghost predicate CountedAs(b: Book, r: Book, k: Key, visits: nat, misses: nat, missed: set<Value>) {
    && Count(r.totalCount, k) == Count(b.totalCount, k) + (if k in b.checked then visits else 0)
    && Count(r.uncheckCount, k) == Count(b.uncheckCount, k) + (if k in b.checked then misses else 0)
    && Entries(r.unchecks, k) == Entries(b.unchecks, k) + (if k in b.checked then missed else {})
    && (k in r.checked <==> k in b.checked)
  }

  lemma OneVisitCounts(p: Program, b: Book, e: Event, k: Key)
    requires e.Visited?
    ensures CountedAs(b, Apply(p, b, e), k, if e.key == k then 1 else 0,
                      if e.key == k && !e.isChecked then 1 else 0, if e.key == k && !e.isChecked then {e.v} else {})
  {
  }

  lemma CountedTwice(b0: Book, b1: Book, b2: Book, k: Key, v1: nat, m1: nat, s1: set<Value>,
                     v2: nat, m2: nat, s2: set<Value>)
    requires CountedAs(b0, b1, k, v1, m1, s1) && CountedAs(b1, b2, k, v2, m2, s2)
    ensures CountedAs(b0, b2, k, v1 + v2, m1 + m2, s1 + s2)
  {
  }

  /** After a stage of visits the counters of a checked key have grown by exactly its visits and misses. */
  lemma {:induction false} VisitsAreCounted(p: Program, b: Book, es: seq<Event>, k: Key)
    requires forall e | e in es :: e.Visited?
    ensures CountedAs(b, ApplyAll(p, b, es), k, Visits(es, k), MissedVisits(es, k), MissedValues(es, k))
    decreases |es|
  {
    if es == [] {
      assert MissedValues(es, k) == {};
    } else {
      var e, rest := es[0], es[1..];
      assert e in es && forall x | x in rest :: x in es;
      var b1 := Apply(p, b, e);
      OneVisitCounts(p, b, e, k);
      VisitsAreCounted(p, b1, rest, k);
      OneMoreMiss(e, rest, k);
      assert es == [e] + rest;
      var hit := e.key == k;
      var miss := hit && !e.isChecked;
      CountedTwice(b, b1, ApplyAll(p, b, es), k,
                   if hit then 1 else 0, if miss then 1 else 0, if miss then {e.v} else {},
                   Visits(rest, k), MissedVisits(rest, k), MissedValues(rest, k));
    }
  }

  lemma OneMoreMiss(e: Event, rest: seq<Event>, k: Key)
    requires e.Visited?
    ensures MissedValues([e] + rest, k) ==
            (if e.key == k && !e.isChecked then {e.v} else {}) + MissedValues(rest, k)
  {
    assert forall x :: x in [e] + rest <==> x == e || x in rest;
  }

  lemma EmptyIsBalanced()
    ensures Balanced(EmptyBook)
  {
  }

  lemma CheckKeepsBalance(b: Book, key: Key, m: ModelSC)
    requires Balanced(b) && m.subject == key.subject
    ensures Balanced(AddCheck(b, key, m))
  {
    var b' := AddCheck(b, key, m);
    forall k ensures ChecksAgree(b', k) && UnchecksBounded(b', k) {
      assert ChecksAgree(b, k) && UnchecksBounded(b, k);
      if k == key {
      }
    }
  }

  lemma VisitKeepsBalance(p: Program, b: Book, key: Key, v: Value, isChecked: bool)
    requires Balanced(b)
    ensures Balanced(Apply(p, b, Visited(key, v, isChecked)))
  {
    var b' := Apply(p, b, Visited(key, v, isChecked));
    forall k ensures ChecksAgree(b', k) && UnchecksBounded(b', k) {
      assert ChecksAgree(b, k) && UnchecksBounded(b, k);
    }
  }

  /** Every run from the empty book keeps the balance, whatever is checked or visited and in what order. */
  lemma {:induction false} EveryRunIsBalanced(p: Program, b: Book, es: seq<Event>)
    requires Balanced(b) && forall e | e in es :: ValidEvent(p, e)
    ensures Balanced(ApplyAll(p, b, es))
    decreases |es|
  {
    if es != [] {
      assert es[0] in es && forall e | e in es[1..] :: e in es;
      match es[0] {
        case Checked(site) => CheckKeepsBalance(b, site.key, ModelCheck(p, site.cmp, site.key));
        case Visited(key, v, isChecked) => VisitKeepsBalance(p, b, key, v, isChecked);
      }
      EveryRunIsBalanced(p, Apply(p, b, es[0]), es[1..]);
    }
  }

  /** In a balanced book a comparison is modelled exactly when its key was checked, whatever it compares. */
  lemma ModeledIsChecked(p: Program, b: Book, cmp: Value, key: Key)
    requires Balanced(b) && p.Has(cmp) && p.nodes[cmp].Cmp?
    ensures InModeledCheckSet(p, b.checks, cmp, key) <==> key in b.checked
  {
    assert ChecksAgree(b, key);
    if key in b.checked {
      var x :| x in Entries(b.checks, key);
      assert x.subject == ModelCheck(p, cmp, key).subject;
    }
  }

  /** Visits change neither the set of checked keys nor their models and counts. */
  lemma {:induction false} VisitsKeepChecks(p: Program, b: Book, es: seq<Event>)
    requires forall e | e in es :: e.Visited?
    ensures var r := ApplyAll(p, b, es);
            r.checked == b.checked && r.checks == b.checks && r.checkCount == b.checkCount
    decreases |es|
  {
    if es != [] {
      assert es[0] in es && forall e | e in es[1..] :: e in es;
      VisitsKeepChecks(p, Apply(p, b, es[0]), es[1..]);
    }
  }

  // ---------- ratings ----------

  datatype Rating = Rating(checks: nat, unchecks: nat, total: nat)

  /** The share of missing checks. */
  function RatingOf(b: Book, k: Key): Option<Rating> {
    var checks := Count(b.checkCount, k);
    var total := if k in b.checkCount then Count(b.totalCount, k) else 0;
    var unchecks := Count(b.uncheckCount, k);
    if checks != 0 && unchecks != 0
    then Some(Rating(checks, unchecks, if checks + unchecks < total then checks + unchecks else total))
    else None
  }

  function Smaller(a: nat, b: nat): nat {
    if a < b then a else b
  }

  function ExpectedRating(checks: nat, misses: nat, visits: nat): Option<Rating> {
    if checks == 0 || misses == 0 then None else Some(Rating(checks, misses, Smaller(checks + misses, visits)))
  }

  /** A rating from what the counters of a key are known to be. */
  lemma RatingFrom(b: Book, k: Key, checks: nat, misses: nat, visits: nat)
    requires Count(b.checkCount, k) == checks
    requires checks > 0 ==> Count(b.uncheckCount, k) == misses && Count(b.totalCount, k) == visits
    ensures RatingOf(b, k) == ExpectedRating(checks, misses, visits)
  {
  }

  /** The counters and the rating of a key after recorded checks and then visits. */
  lemma CountersMean(p: Program, ss: seq<Site>, s1: Book, es: seq<Event>, k: Key)
    requires Recorded(p, multiset(ss), EmptyBook, s1) && forall e | e in es :: e.Visited?
    ensures var b := ApplyAll(p, s1, es);
            && Count(b.checkCount, k) == Times(ss, k)
            && (k in b.checked <==> Times(ss, k) > 0)
            && CountedAs(EmptyBook.(checked := s1.checked), b, k,
                         Visits(es, k), MissedVisits(es, k), MissedValues(es, k))
            && RatingOf(b, k) == ExpectedRating(Times(ss, k), MissedVisits(es, k), Visits(es, k))
  {
    EmptyIsBalanced();
    RecordedKeys(p, multiset(ss), EmptyBook, s1);
    RecordedTimes(p, multiset(ss), EmptyBook, s1, ss, k);
    assert ChecksAgree(s1, k);
    VisitsKeepChecks(p, s1, es);
    VisitsAreCounted(p, s1, es, k);
    RatingFrom(ApplyAll(p, s1, es), k, Times(ss, k), MissedVisits(es, k), Visits(es, k));
  }

  /** A rating exists exactly for checked keys with a missing check; it is a fraction in (0, 1]. */
  lemma RatingIsFraction(b: Book, k: Key)
    requires Balanced(b)
    ensures RatingOf(b, k).Some? <==> k in b.checked && Count(b.uncheckCount, k) > 0
    ensures RatingOf(b, k).Some? ==>
              var r := RatingOf(b, k).value;
              0 < r.unchecks <= r.total && 0.0 < r.unchecks as real / r.total as real <= 1.0
  {
    assert ChecksAgree(b, k) && UnchecksBounded(b, k);
    if RatingOf(b, k).Some? {
      var r := RatingOf(b, k).value;
      ProperFraction(r.unchecks, r.total);
    }
  }

  lemma ProperFraction(n: nat, d: nat)
    requires 0 < n <= d
    ensures 0.0 < n as real / d as real <= 1.0
  {
  }
}
