/** Narrowing indirect calls. */
module CallTargets {
  import opened Ir

  type Hash = nat

  /** The operand chain of a called value, as far as layers are concerned. */
  datatype Pointer =
    | FieldAddress(base: Pointer, composite: bool, constantIndices: bool, ty: Hash, field: int)
    | Loaded(address: Pointer)
    | Converted(operand: Pointer)
    | OtherPointer

  datatype Layer = Layer(next: Pointer, ty: Hash, field: int)

  /** The tables filled while types are collected; transits are listed in the order they are visited. */
  datatype TypeTables = TypeTables(
    typeFuncs: map<Hash, set<Func>>, transits: map<Hash, seq<Hash>>, escaped: set<Hash>, idxHash: (Hash, int) -> Hash)

  function SetAt<K, V>(m: map<K, set<V>>, k: K): set<V> {
    if k in m then m[k] else {}
  }

  // ---------- layers ----------

  function NextLayerBaseType(v: Pointer): (r: Option<Layer>)
    ensures r.Some? ==> r.value.next < v
  {
    match v
    case FieldAddress(base, composite, constantIndices, ty, field) =>
      if composite && constantIndices then Some(Layer(base, ty, field)) else None
    case Loaded(a) => NextLayerBaseType(a)
    case Converted(o) => NextLayerBaseType(o)
    case OtherPointer => None
  }

  predicate Escapes(t: TypeTables, l: Layer) {
    l.ty in t.escaped || t.idxHash(l.ty, l.field) in t.escaped
  }

  /** Type hashes are cut to 32 bits before the transit table is consulted. */
  function TransitKey(ty: Hash): Hash {
    ty % 0x1_0000_0000
  }

  function TransitsAt(t: TypeTables, key: Hash): seq<Hash> {
    if key in t.transits then t.transits[key] else []
  }

  function TransitSets(t: TypeTables, hs: seq<Hash>, field: int): (r: seq<set<Func>>)
    ensures |r| == |hs|
  {
    seq(|hs|, i requires 0 <= i < |hs| => SetAt(t.typeFuncs, t.idxHash(hs[i], field)))
  }

  /** The sets that narrow at one layer: those of the transits, or the layer's own set when it has none. */
  function LayerSets(t: TypeTables, l: Layer): seq<set<Func>> {
    var hs := TransitsAt(t, TransitKey(l.ty));
    if hs == [] then [SetAt(t.typeFuncs, t.idxHash(l.ty, l.field))] else TransitSets(t, hs, l.field)
  }

  /** All narrowing sets from a called value down, up to the first escaped layer. */
  function Consulted(t: TypeTables, v: Pointer): seq<set<Func>>
    decreases v
  {
    match NextLayerBaseType(v)
    case None => []
    case Some(l) => if Escapes(t, l) then [] else LayerSets(t, l) + Consulted(t, l.next)
  }

  /** The operand below n loads and conversions. */
  function Below(v: Pointer, n: nat): Option<Pointer>
    decreases n
  {
    if n == 0 then Some(v)
    else
      match v
      case Loaded(a) => Below(a, n - 1)
      case Converted(o) => Below(o, n - 1)
      case _ => None
  }

  ghost predicate LeadsBelow(v: Pointer, w: Pointer) {
    exists n: nat :: Below(v, n) == Some(w)
  }

  lemma BelowOther(v: Pointer, w: Pointer)
    requires !v.Loaded? && !v.Converted?
    ensures LeadsBelow(v, w) <==> v == w
  {
    assert Below(v, 0) == Some(v);
  }

  lemma BelowOneMore(v: Pointer, u: Pointer, w: Pointer)
    requires (v == Loaded(u) || v == Converted(u)) && !w.Loaded? && !w.Converted?
    ensures LeadsBelow(v, w) <==> LeadsBelow(u, w)
  {
    if LeadsBelow(v, w) {
      var n: nat :| Below(v, n) == Some(w);
      var k: nat := n - 1;
      assert Below(u, k) == Some(w);
    }
    if LeadsBelow(u, w) {
      var n: nat :| Below(u, n) == Some(w);
      assert Below(v, n + 1) == Some(w);
    }
  }

  /** The next layer is the first field address below loads and conversions, if its type and indices are known. */
  lemma {:induction false} NextLayerMeans(v: Pointer, l: Layer)
    ensures NextLayerBaseType(v) == Some(l) <==> LeadsBelow(v, FieldAddress(l.next, true, true, l.ty, l.field))
    decreases v
  {
    var w := FieldAddress(l.next, true, true, l.ty, l.field);
    match v {
      case Loaded(a) =>
        BelowOneMore(v, a, w);
        NextLayerMeans(a, l);
      case Converted(o) =>
        BelowOneMore(v, o, w);
        NextLayerMeans(o, l);
      case _ =>
        BelowOther(v, w);
    }
  }

  /** The layer l is consulted: it is reached from v over layers that do not escape, and does not escape itself. */
  ghost predicate ConsultsLayer(t: TypeTables, v: Pointer, l: Layer)
    decreases v
  {
    var m := NextLayerBaseType(v);
    && m.Some? && m.value.ty !in t.escaped && t.idxHash(m.value.ty, m.value.field) !in t.escaped
    && (m.value == l || ConsultsLayer(t, m.value.next, l))
  }

  /** A layer narrows by the sets of its transits, or by its own set when it has none. */
  ghost predicate NarrowsBy(t: TypeTables, l: Layer, s: set<Func>) {
    var key := l.ty % 0x1_0000_0000;
    if key !in t.transits || t.transits[key] == [] then s == SetAt(t.typeFuncs, t.idxHash(l.ty, l.field))
    else exists h | h in t.transits[key] :: s == SetAt(t.typeFuncs, t.idxHash(h, l.field))
  }

  lemma LayerSetsMean(t: TypeTables, l: Layer, s: set<Func>)
    ensures s in LayerSets(t, l) <==> NarrowsBy(t, l, s)
  {
    var hs := TransitsAt(t, TransitKey(l.ty));
    if h :| h in hs && s == SetAt(t.typeFuncs, t.idxHash(h, l.field)) {
      var i :| 0 <= i < |hs| && hs[i] == h;
      assert TransitSets(t, hs, l.field)[i] == s;
    }
  }

  /** The sets an indirect call is narrowed by are exactly those of the layers it consults. */
  lemma {:induction false} ConsultedMeans(t: TypeTables, v: Pointer, s: set<Func>)
    ensures s in Consulted(t, v) <==> exists l :: ConsultsLayer(t, v, l) && NarrowsBy(t, l, s)
    decreases v
  {
    var m := NextLayerBaseType(v);
    if m.Some? && !Escapes(t, m.value) {
      LayerSetsMean(t, m.value, s);
      ConsultedMeans(t, m.value.next, s);
      assert ConsultsLayer(t, v, m.value);
      if l :| ConsultsLayer(t, m.value.next, l) && NarrowsBy(t, l, s) {
        assert ConsultsLayer(t, v, l);
      }
    }
  }

  // ---------- narrowing ----------

  /** A set narrows the candidates unless it would leave none. */
  function Narrow(fs: set<Func>, other: set<Func>): set<Func> {
    if fs * other != {} then fs * other else fs
  }

  function NarrowAll(fs: set<Func>, others: seq<set<Func>>): set<Func> {
    if others == [] then fs else NarrowAll(Narrow(fs, others[0]), others[1..])
  }

  function Meet(fs: set<Func>, others: seq<set<Func>>): set<Func> {
    if others == [] then fs else Meet(fs * others[0], others[1..])
  }

  lemma {:induction false} NarrowsInTurn(fs: set<Func>, a: seq<set<Func>>, b: seq<set<Func>>)
    ensures NarrowAll(fs, a + b) == NarrowAll(NarrowAll(fs, a), b)
  {
    if a == [] {
      assert a + b == b;
    } else {
      assert (a + b)[0] == a[0] && (a + b)[1..] == a[1..] + b;
      NarrowsInTurn(Narrow(fs, a[0]), a[1..], b);
    }
  }

  lemma {:induction false} NarrowedSubset(fs: set<Func>, others: seq<set<Func>>)
    ensures NarrowAll(fs, others) <= fs
    ensures fs != {} ==> NarrowAll(fs, others) != {}
  {
    if others != [] {
      NarrowedSubset(Narrow(fs, others[0]), others[1..]);
    }
  }

  /** Going one layer further never adds a candidate and never empties the set. */
  lemma CandidatesShrink(fs: set<Func>, before: seq<set<Func>>, more: seq<set<Func>>)
    ensures NarrowAll(fs, before + more) <= NarrowAll(fs, before) <= fs
    ensures fs != {} ==> NarrowAll(fs, before + more) != {}
  {
    NarrowsInTurn(fs, before, more);
    NarrowedSubset(fs, before);
    NarrowedSubset(NarrowAll(fs, before), more);
  }

  lemma {:induction false} CandidateIsKept(fs: set<Func>, others: seq<set<Func>>, f: Func)
    requires f in fs && forall s | s in others :: f in s
    ensures f in NarrowAll(fs, others)
  {
    if others != [] {
      assert others[0] in others && forall s | s in others[1..] :: s in others;
      CandidateIsKept(Narrow(fs, others[0]), others[1..], f);
    }
  }

  lemma {:induction false} InMeet(fs: set<Func>, others: seq<set<Func>>, f: Func)
    ensures f in Meet(fs, others) <==> f in fs && forall s | s in others :: f in s
  {
    if others != [] {
      InMeet(fs * others[0], others[1..], f);
      assert others == [others[0]] + others[1..];
      assert forall s :: s in others <==> s == others[0] || s in others[1..];
    }
  }

  lemma {:induction false} MeetNarrows(fs: set<Func>, others: seq<set<Func>>)
    requires Meet(fs, others) != {}
    ensures NarrowAll(fs, others) == Meet(fs, others)
  {
    if others != [] {
      var f :| f in Meet(fs, others);
      InMeet(fs * others[0], others[1..], f);
      assert f in fs * others[0];
      MeetNarrows(fs * others[0], others[1..]);
    }
  }

  /** Narrowing computes the plain intersection of all sets exactly when that intersection is not empty. */
  lemma NarrowingIsIntersection(fs: set<Func>, others: seq<set<Func>>)
    requires fs != {}
    ensures NarrowAll(fs, others) == Meet(fs, others) <==> Meet(fs, others) != {}
  {
    NarrowedSubset(fs, others);
    if Meet(fs, others) != {} {
      MeetNarrows(fs, others);
    }
  }

  // ---------- the order of the visits ----------

  /** Every order of the same sets narrows to the same candidates. */
  ghost predicate OrderIsFree(fs: set<Func>, others: seq<set<Func>>) {
    forall ys: seq<set<Func>> | multiset(ys) == multiset(others) :: NarrowAll(fs, ys) == NarrowAll(fs, others)
  }

  /** The candidate is in every set that has a candidate at all. */
  predicate Shared(fs: set<Func>, others: seq<set<Func>>, f: Func) {
    f in fs && forall s | s in others && fs * s != {} :: f in s
  }

  /** While all sets that matter share a candidate, narrowing keeps exactly what is in each of them. */
  lemma {:induction false} SharedNarrowing(fs: set<Func>, now: set<Func>, others: seq<set<Func>>, f: Func, g: Func)
    requires now <= fs && f in now && Shared(fs, others, f)
    ensures g in NarrowAll(now, others) <==> g in now && forall s | s in others && fs * s != {} :: g in s
  {
    if others != [] {
      var s, rest := others[0], others[1..];
      assert others == [s] + rest;
      assert forall x :: x in others <==> x == s || x in rest;
      if fs * s != {} {
        assert f in now * s;
        SharedNarrowing(fs, now * s, rest, f, g);
      } else {
        assert now * s == {};
        SharedNarrowing(fs, now, rest, f, g);
      }
    }
  }

  lemma SharedOrderIsFree(fs: set<Func>, xs: seq<set<Func>>, ys: seq<set<Func>>, f: Func)
    requires Shared(fs, xs, f) && multiset(xs) == multiset(ys)
    ensures NarrowAll(fs, ys) == NarrowAll(fs, xs)
  {
    forall s ensures s in xs <==> s in ys {
      assert s in multiset(xs) <==> s in multiset(ys);
    }
    forall g ensures g in NarrowAll(fs, ys) <==> g in NarrowAll(fs, xs) {
      SharedNarrowing(fs, fs, xs, f, g);
      SharedNarrowing(fs, fs, ys, f, g);
    }
  }

  /** Visiting a set with a candidate first leaves only candidates of that set. */
  lemma FirstVisitDecides(fs: set<Func>, others: seq<set<Func>>, k: nat)
    requires k < |others| && fs * others[k] != {}
    ensures exists ys: seq<set<Func>> :: multiset(ys) == multiset(others) && NarrowAll(fs, ys) <= others[k]
  {
    var rest := others[..k] + others[k + 1..];
    var ys := [others[k]] + rest;
    assert others == others[..k] + ([others[k]] + others[k + 1..]);
    assert multiset(ys) == multiset(others);
    NarrowsInTurn(fs, [others[k]], rest);
    NarrowedSubset(NarrowAll(fs, [others[k]]), rest);
    assert NarrowAll(fs, [others[k]]) == Narrow(fs, others[k]);
  }

  /** The order of the visits is irrelevant exactly when all sets that have a candidate share one. */
  lemma VisitOrderIsFree(fs: set<Func>, others: seq<set<Func>>)
    requires fs != {}
    ensures OrderIsFree(fs, others) <==> exists f :: Shared(fs, others, f)
  {
    if f :| Shared(fs, others, f) {
      forall ys: seq<set<Func>> | multiset(ys) == multiset(others) ensures NarrowAll(fs, ys) == NarrowAll(fs, others) {
        SharedOrderIsFree(fs, others, ys, f);
      }
    } else if OrderIsFree(fs, others) {
      NarrowedSubset(fs, others);
      var f :| f in NarrowAll(fs, others);
      assert !Shared(fs, others, f);
      var k :| 0 <= k < |others| && fs * others[k] != {} && f !in others[k];
      FirstVisitDecides(fs, others, k);
    }
  }

  /** One layer with two transits, whose sets are filed under hashes 20 and 21. */
  function TwoTransits(first: Func, second: Func): TypeTables {
    TypeTables(map[20 := {first}, 21 := {second}], map[5 := [20, 21]], {}, (h: Hash, i: int) => h)
  }

  /**
    An input where the order decides: the transits are visited by ascending hash, so the callees of
    a call with candidates 1 and 2 depend on which of their sets got the smaller hash.
  */
  lemma VisitOrderDecides()
    ensures var called := FieldAddress(OtherPointer, true, true, 5, 0);
            && NarrowAll({1, 2}, Consulted(TwoTransits(1, 2), called)) == {1}
            && NarrowAll({1, 2}, Consulted(TwoTransits(2, 1), called)) == {2}
  {
    TwoTransitsDecide(1, 2);
    TwoTransitsDecide(2, 1);
    assert {1, 2} == {2, 1};
  }

  lemma TwoTransitsDecide(a: Func, b: Func)
    requires a != b
    ensures NarrowAll({a, b}, Consulted(TwoTransits(a, b), FieldAddress(OtherPointer, true, true, 5, 0))) == {a}
  {
    var t, l := TwoTransits(a, b), Layer(OtherPointer, 5, 0);
    assert TransitsAt(t, TransitKey(5)) == [20, 21];
    assert t.idxHash(20, 0) == 20 && t.idxHash(21, 0) == 21;
    assert LayerSets(t, l) == TransitSets(t, [20, 21], 0) == [{a}, {b}];
    assert Consulted(t, OtherPointer) == [];
    var called := FieldAddress(OtherPointer, true, true, 5, 0);
    assert NextLayerBaseType(called) == Some(l) && !Escapes(t, l);
    assert Consulted(t, called) == LayerSets(t, l) + [] == [{a}, {b}];
    assert {a, b} * {a} == {a} && {a} * {b} == {};
    assert [{a}, {b}][1..] == [{b}];
    assert NarrowAll({a}, [{b}]) == {a};
  }

  // ---------- wide hashes ----------

  /** The transits that a 32-bit key can find. */
  function NarrowKeys(t: TypeTables): TypeTables {
    t.(transits := map h | h in t.transits && h < 0x1_0000_0000 :: t.transits[h])
  }

  /** Transits filed under hashes of more than 32 bits are never consulted, whatever else the table holds. */
  lemma {:induction false} WideTransitsAreLost(t: TypeTables, v: Pointer)
    ensures Consulted(t, v) == Consulted(NarrowKeys(t), v)
    decreases v
  {
    var l := NextLayerBaseType(v);
    if l.Some? {
      WideTransitsAreLost(t, l.value.next);
      assert LayerSets(t, l.value) == LayerSets(NarrowKeys(t), l.value);
    }
  }

  // ---------- the search ----------

  method FuncSetIntersection(fs1: set<Func>, fs2: set<Func>) returns (fs: set<Func>)
    ensures fs == fs1 * fs2
  {
    fs := {};
    var rest := fs1;
    while rest != {}
      invariant rest <= fs1 && fs == (fs1 - rest) * fs2
    {
      var f :| f in rest;
      rest := rest - {f};
      if f in fs2 {
        fs := fs + {f};
      }
    }
  }

  /** One pass over the transits of a layer, starting from what the layer's own set left. */
  method NarrowByTransits(t: TypeTables, l: Layer, before: set<Func>, direct: set<Func>)
    returns (fs1: set<Func>, fst: set<Func>)
    requires before != {} && direct == before * SetAt(t.typeFuncs, t.idxHash(l.ty, l.field))
    ensures (if fst != {} then fst else fs1) == NarrowAll(before, LayerSets(t, l))
  {
    fs1, fst := before, direct;
    ghost var hs0 := TransitsAt(t, TransitKey(l.ty));
    ghost var sets := TransitSets(t, hs0, l.field);
    var worklist := [TransitKey(l.ty)];
    while worklist != []
      invariant worklist == [TransitKey(l.ty)] || worklist == []
      invariant worklist != [] ==> fs1 == before && fst == direct
      invariant worklist == [] ==> fs1 == NarrowAll(before, sets)
      invariant worklist == [] ==> if hs0 == [] then fst == direct else fst == {} || fst == fs1
    {
      var ct := worklist[0];
      worklist := worklist[1..];
      var hs := TransitsAt(t, ct);
      for i := 0 to |hs|
        invariant fs1 == NarrowAll(before, sets[..i])
        invariant if i == 0 then fst == direct else fst == {} || fst == fs1
      {
        var fs2 := SetAt(t.typeFuncs, t.idxHash(hs[i], l.field));
        fst := FuncSetIntersection(fs1, fs2);
        NarrowsInTurn(before, sets[..i], [fs2]);
        assert sets[..i + 1] == sets[..i] + [fs2];
        if fst != {} {
          fs1 := fst;
        }
      }
      assert sets[..|hs|] == sets;
    }
  }

  /** Fails exactly when no function has the signature; otherwise narrows the functions that have it. */
  method FindCalleesWithMLTA(t: TypeTables, sigFuncs: map<Hash, set<Func>>, callHash: Hash, called: Pointer)
    returns (found: bool, fs: set<Func>)
    ensures found <==> SetAt(sigFuncs, callHash) != {}
    ensures fs == if found then NarrowAll(SetAt(sigFuncs, callHash), Consulted(t, called)) else {}
  {
    var fs1 := SetAt(sigFuncs, callHash);
    if fs1 == {} {
      return false, {};
    }
    ghost var all := NarrowAll(fs1, Consulted(t, called));
    var layer := NextLayerBaseType(called);
    ghost var cv := called;
    while layer.Some?
      invariant layer == NextLayerBaseType(cv) && fs1 != {}
      invariant all == NarrowAll(fs1, Consulted(t, cv))
      decreases cv
    {
      var l := layer.value;
      if Escapes(t, l) {
        break;
      }
      var fs2 := SetAt(t.typeFuncs, t.idxHash(l.ty, l.field));
      var fst := FuncSetIntersection(fs1, fs2);
      NarrowsInTurn(fs1, LayerSets(t, l), Consulted(t, l.next));
      NarrowedSubset(fs1, LayerSets(t, l));
      fs1, fst := NarrowByTransits(t, l, fs1, fst);
      layer := NextLayerBaseType(l.next);
      cv := l.next;
      if fst != {} {
        fs1 := fst;
      }
    }
    return true, fs1;
  }
}
