/** Searching points with one visited set of values. */
module PointSearch {
  import opened ControlFlow
  import opened Ir
  import opened ForwardSearch

  /** Where a search stands: a function, the blocks that count, and how many calls were crossed. */
  datatype Place = Place(f: Func, scope: set<Block>, depth: nat)

  datatype Point = Point(v: Value, at: Place)

  type StepRel = (Point, Point) -> bool

  // ---------- chains of points ----------

  ghost predicate LeadsIn(st: StepRel, a: Point, z: Point, n: nat)
    decreases n
  {
    if n == 0 then a == z else exists y :: st(a, y) && LeadsIn(st, y, z, n - 1)
  }

  ghost predicate Leads(st: StepRel, a: Point, z: Point) {
    exists n: nat :: LeadsIn(st, a, z, n)
  }

  lemma {:induction false} LeadsInOn(st: StepRel, o: Point, a: Point, z: Point, n: nat)
    requires LeadsIn(st, o, a, n) && st(a, z)
    ensures LeadsIn(st, o, z, n + 1)
    decreases n
  {
    if n == 0 {
      assert LeadsIn(st, z, z, 0);
    } else {
      var y :| st(o, y) && LeadsIn(st, y, a, n - 1);
      LeadsInOn(st, y, a, z, n - 1);
    }
  }

  lemma LeadsOn(st: StepRel, o: Point, a: Point, z: Point)
    requires Leads(st, o, a) && st(a, z)
    ensures Leads(st, o, z)
  {
    var n: nat :| LeadsIn(st, o, a, n);
    LeadsInOn(st, o, a, z, n);
  }

  lemma LeadsSelf(st: StepRel, a: Point)
    ensures Leads(st, a, a)
  {
    assert LeadsIn(st, a, a, 0);
  }

  /** A chain of points leads to a hit. */
  ghost predicate LeadsToPoint(st: StepRel, hit: Point -> bool, a: Point) {
    exists z :: Leads(st, a, z) && hit(z)
  }

  /** Such a chain whose values are all different, and not seen before. */
  ghost predicate FreshIn(st: StepRel, hit: Point -> bool, a: Point, seen: set<Value>, n: nat)
    decreases n
  {
    a.v !in seen && if n == 0 then hit(a) else exists z :: st(a, z) && FreshIn(st, hit, z, seen + {a.v}, n - 1)
  }

  ghost predicate FreshChain(st: StepRel, hit: Point -> bool, a: Point, seen: set<Value>) {
    exists n: nat :: FreshIn(st, hit, a, seen, n)
  }

  lemma {:induction false} FreshForFewer(st: StepRel, hit: Point -> bool, a: Point, more: set<Value>,
                                         less: set<Value>, n: nat)
    requires FreshIn(st, hit, a, more, n) && less <= more
    ensures FreshIn(st, hit, a, less, n)
    decreases n
  {
    if n > 0 {
      var z :| st(a, z) && FreshIn(st, hit, z, more + {a.v}, n - 1);
      FreshForFewer(st, hit, z, more + {a.v}, less + {a.v}, n - 1);
    }
  }

  lemma FreshThrough(st: StepRel, hit: Point -> bool, a: Point, z: Point, seen: set<Value>, more: set<Value>)
    requires st(a, z) && a.v !in seen && seen + {a.v} <= more && FreshChain(st, hit, z, more)
    ensures FreshChain(st, hit, a, seen)
  {
    var n: nat :| FreshIn(st, hit, z, more, n);
    FreshForFewer(st, hit, z, more, seen + {a.v}, n);
    assert FreshIn(st, hit, a, seen, n + 1);
  }

  lemma {:induction false} FreshLeads(st: StepRel, hit: Point -> bool, o: Point, a: Point, seen: set<Value>, n: nat)
    requires FreshIn(st, hit, a, seen, n) && Leads(st, o, a)
    ensures LeadsToPoint(st, hit, o)
    decreases n
  {
    if n > 0 {
      var z :| st(a, z) && FreshIn(st, hit, z, seen + {a.v}, n - 1);
      LeadsOn(st, o, a, z);
      FreshLeads(st, hit, o, z, seen + {a.v}, n - 1);
    }
  }

  lemma FreshChainLeads(st: StepRel, hit: Point -> bool, a: Point, seen: set<Value>)
    requires FreshChain(st, hit, a, seen)
    ensures LeadsToPoint(st, hit, a)
  {
    var n: nat :| FreshIn(st, hit, a, seen, n);
    LeadsSelf(st, a);
    FreshLeads(st, hit, a, a, seen, n);
  }

  lemma {:induction false} LeadsInThrough(st: StepRel, a: Point, z: Point, x: Point, n: nat)
    requires st(a, z) && LeadsIn(st, z, x, n)
    ensures LeadsIn(st, a, x, n + 1)
  {
  }

  lemma LeadsThrough(st: StepRel, a: Point, z: Point, x: Point)
    requires st(a, z) && Leads(st, z, x)
    ensures Leads(st, a, x)
  {
    var n: nat :| LeadsIn(st, z, x, n);
    LeadsInThrough(st, a, z, x, n);
  }

  // ---------- one point for each value ----------

  /** No value is met at two places on the way from o. */
  ghost predicate OnePlaceEach(st: StepRel, o: Point) {
    forall y, z | Leads(st, o, y) && Leads(st, o, z) && y.v == z.v :: y == z
  }

  /** One point for each value that was not seen before, all on the way from a. */
  ghost predicate StandIns(st: StepRel, a: Point, seen0: set<Value>, seen1: set<Value>, pts: set<Point>) {
    && (a.v !in seen0 ==> a in pts)
    && (forall x | x in pts :: Leads(st, a, x) && x.v in seen1 && x.v !in seen0)
    && (forall x, y | x in pts && y in pts && x.v == y.v :: x == y)
    && (forall v | v in seen1 && v !in seen0 :: exists x :: x in pts && x.v == v)
  }

  /** The point is no hit, and the values of its next points are seen. */
  ghost predicate Finished(st: StepRel, hit: Point -> bool, seen: set<Value>, x: Point) {
    !hit(x) && forall z | st(x, z) :: z.v in seen
  }

  ghost predicate Exhausted(st: StepRel, hit: Point -> bool, a: Point, seen0: set<Value>, seen1: set<Value>,
                            pts: set<Point>)
  {
    StandIns(st, a, seen0, seen1, pts) && forall x | x in pts :: Finished(st, hit, seen1, x)
  }

  ghost predicate AllButOne(st: StepRel, hit: Point -> bool, a: Point, seen0: set<Value>, seen1: set<Value>,
                            pts: set<Point>)
  {
    StandIns(st, a, seen0, seen1, pts) && forall x | x in pts && x != a :: Finished(st, hit, seen1, x)
  }

  ghost predicate Spent(st: StepRel, hit: Point -> bool, a: Point, seen0: set<Value>, seen1: set<Value>) {
    exists pts :: Exhausted(st, hit, a, seen0, seen1, pts)
  }

  ghost predicate AlmostSpent(st: StepRel, hit: Point -> bool, a: Point, seen0: set<Value>, seen1: set<Value>) {
    exists pts :: AllButOne(st, hit, a, seen0, seen1, pts)
  }

  // ---------- what a search adds ----------

  /**
    A yes comes from a chain of values not seen before. After a no every newly seen value has a point
    on the way that is no hit and whose next values were all seen.
  */
  ghost predicate Answered(st: StepRel, hit: Point -> bool, a: Point, before: Found, after: Found) {
    && before.seen <= after.seen
    && (before.isChecked ==> after == before)
    && (after.isChecked && !before.isChecked ==> FreshChain(st, hit, a, before.seen))
    && (!after.isChecked ==> a.v in after.seen && Spent(st, hit, a, before.seen, after.seen))
  }

  /** The search is at a point; the given values of next points are dealt with. */
  ghost predicate AtPoint(st: StepRel, hit: Point -> bool, a: Point, before: Found, kids: set<Value>, now: Found) {
    && before.seen + {a.v} <= now.seen
    && (now.isChecked ==> FreshChain(st, hit, a, before.seen))
    && (!now.isChecked ==> kids <= now.seen && AlmostSpent(st, hit, a, before.seen, now.seen))
  }

  lemma SeenBefore(st: StepRel, hit: Point -> bool, a: Point, before: Found)
    requires before.isChecked || a.v in before.seen
    ensures Answered(st, hit, a, before, before)
  {
    if !before.isChecked {
      assert Exhausted(st, hit, a, before.seen, before.seen, {});
    }
  }

  lemma AtPointHit(st: StepRel, hit: Point -> bool, a: Point, before: Found)
    requires !before.isChecked && a.v !in before.seen && hit(a)
    ensures Answered(st, hit, a, before, Found(before.seen + {a.v}, true))
  {
    assert FreshIn(st, hit, a, before.seen, 0);
  }

  lemma AtPointStart(st: StepRel, hit: Point -> bool, a: Point, before: Found)
    requires !before.isChecked && a.v !in before.seen
    ensures AtPoint(st, hit, a, before, {}, Found(before.seen + {a.v}, false))
  {
    LeadsSelf(st, a);
    assert AllButOne(st, hit, a, before.seen, before.seen + {a.v}, {a});
  }

  lemma AtNextPoint(st: StepRel, hit: Point -> bool, a: Point, before: Found, kids: set<Value>, f1: Found, z: Point,
                    f2: Found)
    requires AtPoint(st, hit, a, before, kids, f1) && st(a, z) && a.v !in before.seen
    requires Answered(st, hit, z, f1, f2)
    ensures AtPoint(st, hit, a, before, kids + {z.v}, f2)
  {
    if f2.isChecked && !f1.isChecked {
      FreshThrough(st, hit, a, z, before.seen, f1.seen);
    }
    if !f2.isChecked {
      JoinSpent(st, hit, a, z, before.seen, f1.seen, f2.seen);
    }
  }

  lemma JoinSpent(st: StepRel, hit: Point -> bool, a: Point, z: Point, s0: set<Value>, s1: set<Value>, s2: set<Value>)
    requires st(a, z) && a.v in s1 && a.v !in s0 && s0 <= s1 <= s2
    requires AlmostSpent(st, hit, a, s0, s1) && Spent(st, hit, z, s1, s2)
    ensures AlmostSpent(st, hit, a, s0, s2)
  {
    var p1 :| AllButOne(st, hit, a, s0, s1, p1);
    var p2 :| Exhausted(st, hit, z, s1, s2, p2);
    JoinAllButOne(st, hit, a, z, s0, s1, s2, p1, p2);
  }

  lemma JoinAllButOne(st: StepRel, hit: Point -> bool, a: Point, z: Point, s0: set<Value>, s1: set<Value>,
                      s2: set<Value>, p1: set<Point>, p2: set<Point>)
    requires st(a, z) && a.v in s1 && a.v !in s0 && s0 <= s1 <= s2
    requires AllButOne(st, hit, a, s0, s1, p1) && Exhausted(st, hit, z, s1, s2, p2)
    ensures AllButOne(st, hit, a, s0, s2, p1 + p2)
  {
    JoinStandIns(st, a, z, s0, s1, s2, p1, p2);
    forall x | x in p1 + p2 && x != a ensures Finished(st, hit, s2, x) {
      assert x in p1 ==> Finished(st, hit, s1, x);
    }
  }

  lemma JoinStandIns(st: StepRel, a: Point, z: Point, s0: set<Value>, s1: set<Value>, s2: set<Value>, p1: set<Point>,
                     p2: set<Point>)
    requires st(a, z) && a.v in s1 && a.v !in s0 && s0 <= s1 <= s2
    requires StandIns(st, a, s0, s1, p1) && StandIns(st, z, s1, s2, p2)
    ensures StandIns(st, a, s0, s2, p1 + p2)
  {
    forall x | x in p2 ensures Leads(st, a, x) {
      LeadsThrough(st, a, z, x);
    }
    forall v | v in s2 && v !in s0 ensures exists x :: x in p1 + p2 && x.v == v {
      var x :| (v in s1 ==> x in p1) && (v !in s1 ==> x in p2) && x.v == v;
      assert x in p1 + p2;
    }
  }

  lemma AtPointEnd(st: StepRel, hit: Point -> bool, a: Point, before: Found, kids: set<Value>, now: Found)
    requires AtPoint(st, hit, a, before, kids, now) && !before.isChecked && !hit(a) && a.v !in before.seen
    requires forall z | st(a, z) :: z.v in kids
    ensures Answered(st, hit, a, before, now)
  {
    if !now.isChecked {
      var pts :| AllButOne(st, hit, a, before.seen, now.seen, pts);
      assert Exhausted(st, hit, a, before.seen, now.seen, pts);
    }
  }

  lemma AtPointChecked(st: StepRel, hit: Point -> bool, a: Point, before: Found, kids: set<Value>, now: Found)
    requires AtPoint(st, hit, a, before, kids, now) && !before.isChecked && now.isChecked
    ensures Answered(st, hit, a, before, now)
  {
  }

  // ---------- what the answers mean ----------

  /** Points on the way from o, o among them and none a hit, of which one stands for every next point's value. */
  ghost predicate Cover(st: StepRel, hit: Point -> bool, o: Point, pts: set<Point>) {
    && o in pts
    && (forall x | x in pts :: Leads(st, o, x) && !hit(x))
    && (forall x, y | x in pts && y in pts && x.v == y.v :: x == y)
    && (forall x, z | x in pts && st(x, z) :: exists y: Point :: y in pts && y.v == z.v)
  }

  ghost predicate HasCover(st: StepRel, hit: Point -> bool, o: Point) {
    exists pts :: Cover(st, hit, o, pts)
  }

  lemma NoHasCover(st: StepRel, hit: Point -> bool, o: Point, now: Found)
    requires Answered(st, hit, o, Found({}, false), now) && !now.isChecked
    ensures HasCover(st, hit, o)
  {
    var pts :| Exhausted(st, hit, o, {}, now.seen, pts);
    forall x, z | x in pts && st(x, z) ensures exists y: Point :: y in pts && y.v == z.v {
      assert Finished(st, hit, now.seen, x);
    }
    forall x | x in pts ensures !hit(x) {
      assert Finished(st, hit, now.seen, x);
    }
    assert Cover(st, hit, o, pts);
  }

  lemma CoverHoldsNext(st: StepRel, hit: Point -> bool, o: Point, pts: set<Point>, x: Point, z: Point)
    requires Cover(st, hit, o, pts) && OnePlaceEach(st, o) && x in pts && st(x, z)
    ensures z in pts
  {
    LeadsOn(st, o, x, z);
    var y: Point :| y in pts && y.v == z.v;
    assert y == z;
  }

  ghost predicate ClosedUnder(st: StepRel, pts: set<Point>) {
    forall x, z | x in pts && st(x, z) :: z in pts
  }

  lemma {:induction false} ClosedHoldsAll(st: StepRel, pts: set<Point>, a: Point, z: Point, n: nat)
    requires ClosedUnder(st, pts) && a in pts && LeadsIn(st, a, z, n)
    ensures z in pts
    decreases n
  {
    if n > 0 {
      var y :| st(a, y) && LeadsIn(st, y, z, n - 1);
      ClosedHoldsAll(st, pts, y, z, n - 1);
    }
  }

  lemma CoverIsClosed(st: StepRel, hit: Point -> bool, o: Point, pts: set<Point>)
    requires Cover(st, hit, o, pts) && OnePlaceEach(st, o)
    ensures ClosedUnder(st, pts)
  {
    forall x, z | x in pts && st(x, z) ensures z in pts {
      CoverHoldsNext(st, hit, o, pts, x, z);
    }
  }

  /** Where no value is met at two places, a cover rules out every hit. */
  lemma CoverMissesHits(st: StepRel, hit: Point -> bool, o: Point)
    requires HasCover(st, hit, o) && OnePlaceEach(st, o)
    ensures !LeadsToPoint(st, hit, o)
  {
    var pts :| Cover(st, hit, o, pts);
    CoverIsClosed(st, hit, o, pts);
    forall z | Leads(st, o, z) ensures !hit(z) {
      var n: nat :| LeadsIn(st, o, z, n);
      ClosedHoldsAll(st, pts, o, z, n);
    }
  }

  /** Where no value is met at two places, the answer of a search from nothing seen is exact. */
  lemma AnswerIsExact(st: StepRel, hit: Point -> bool, o: Point, now: Found)
    requires OnePlaceEach(st, o) && Answered(st, hit, o, Found({}, false), now)
    ensures now.isChecked <==> LeadsToPoint(st, hit, o)
  {
    if now.isChecked {
      FreshChainLeads(st, hit, o, {});
    } else {
      NoHasCover(st, hit, o, now);
      CoverMissesHits(st, hit, o);
    }
  }
}
