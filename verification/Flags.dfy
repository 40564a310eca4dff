/** Error flags of blocks and edges. */
module Flags {

  /** The low byte of the flag word; no higher bit is ever written. */
  type Flag = bv8

  const MUST_RETURN_ERR: Flag := 1
  const MAY_RETURN_ERR: Flag := 2
  const MUST_HANDLE_ERR: Flag := 16
  const MAY_HANDLE_ERR: Flag := 32
  const ERR_RETURN_MASK: Flag := 0xF
  const ERR_HANDLE_MASK: Flag := 0xF0

  function ReturnBits(f: Flag): Flag {
    f & ERR_RETURN_MASK
  }

  /** Everything but the return nibble. */
  function OtherBits(f: Flag): Flag {
    f & !ERR_RETURN_MASK
  }

  predicate MustHandle(f: Flag) {
    f & MUST_HANDLE_ERR != 0
  }

  predicate HasMust(f: Flag) {
    f & MUST_RETURN_ERR != 0
  }

  predicate HasMay(f: Flag) {
    f & MAY_RETURN_ERR != 0
  }

  /** The only bits the marking ever sets. */
  predicate IsMark(f: Flag) {
    f & !(MUST_RETURN_ERR | MAY_RETURN_ERR | MUST_HANDLE_ERR) == 0
  }

  function UpdateReturnFlag(errFlag: Flag, newFlag: Flag): (r: Flag)
    ensures OtherBits(r) == OtherBits(errFlag)
    ensures ReturnBits(r) == if ReturnBits(newFlag) != 0 then ReturnBits(newFlag) else ReturnBits(errFlag)
    ensures IsMark(errFlag) && IsMark(newFlag) ==> IsMark(r)
    ensures MustHandle(r) <==> MustHandle(errFlag)
  {
    if newFlag & ERR_RETURN_MASK != 0
    then (errFlag & !ERR_RETURN_MASK) | (newFlag & ERR_RETURN_MASK)
    else errFlag
  }

  function UpdateHandleFlag(errFlag: Flag, newFlag: Flag): (r: Flag)
    ensures ReturnBits(r) == ReturnBits(errFlag)
    ensures MustHandle(errFlag) ==> r == errFlag
    ensures MustHandle(r) <==> MustHandle(errFlag) || MustHandle(newFlag)
    ensures IsMark(errFlag) && IsMark(newFlag) ==> IsMark(r)
  {
    if errFlag & MUST_HANDLE_ERR != 0 then errFlag
    else if newFlag & ERR_HANDLE_MASK != 0
    then (errFlag & !ERR_HANDLE_MASK) | (newFlag & ERR_HANDLE_MASK)
    else errFlag
  }

  function MergeReturn(errFlag: Flag, newFlag: Flag): Flag {
    if errFlag & MUST_RETURN_ERR != 0 && newFlag & MUST_RETURN_ERR != 0 then MUST_RETURN_ERR
    else if errFlag & MAY_RETURN_ERR != 0 || newFlag & MAY_RETURN_ERR != 0 then MAY_RETURN_ERR
    else if errFlag & ERR_RETURN_MASK == 0 then newFlag & ERR_RETURN_MASK
    else errFlag & ERR_RETURN_MASK
  }

  /** The second branch sets a return flag, as the code does. */
  function MergeHandle(errFlag: Flag, newFlag: Flag): Flag {
    if errFlag & MUST_HANDLE_ERR != 0 && newFlag & MUST_HANDLE_ERR != 0 then MUST_HANDLE_ERR
    else if errFlag & MAY_HANDLE_ERR != 0 || newFlag & MAY_HANDLE_ERR != 0 then MAY_RETURN_ERR
    else if errFlag & ERR_HANDLE_MASK == 0 then newFlag & ERR_HANDLE_MASK
    else errFlag & ERR_HANDLE_MASK
  }

  function MergeFlag(errFlag: Flag, newFlag: Flag): (r: Flag)
    ensures ReturnBits(errFlag) != 0 ==> ReturnBits(r) != 0
    ensures IsMark(errFlag) && IsMark(newFlag) ==> IsMark(r)
  {
    MergeReturn(errFlag, newFlag) | MergeHandle(errFlag, newFlag)
  }

  /** Merging a list of incoming flags from left to right. */
  function MergeAll(flag: Flag, incoming: seq<Flag>): Flag
    decreases |incoming|
  {
    if incoming == [] then flag else MergeAll(MergeFlag(flag, incoming[0]), incoming[1..])
  }

  /** A flag whose nibbles lie in the chains 0 < Must < May and 0 < Must. */
  predicate InChain(f: Flag) {
    IsMark(f) && ReturnBits(f) != MUST_RETURN_ERR | MAY_RETURN_ERR
  }

  /** The larger of two chain flags, nibble by nibble. */
  function Larger(f: Flag, g: Flag): Flag {
    (if ReturnBits(f) >= ReturnBits(g) then ReturnBits(f) else ReturnBits(g)) |
    (if MustHandle(f) || MustHandle(g) then MUST_HANDLE_ERR else 0)
  }

  /** f is an upper bound of g, nibble by nibble. */
  predicate Below(g: Flag, f: Flag) {
    ReturnBits(g) <= ReturnBits(f) && (MustHandle(g) ==> MustHandle(f))
  }

  /** Within the chains one merge is the maximum. */
  lemma MergeIsLarger(f: Flag, g: Flag)
    requires InChain(f) && InChain(g)
    ensures MergeFlag(f, g) == Larger(f, g) && InChain(MergeFlag(f, g))
  {
  }

  /** Within the chains the integrated flag is the least upper bound of all flags merged. */
  lemma {:induction false} MergeAllIsMaximum(flag: Flag, incoming: seq<Flag>)
    requires InChain(flag) && forall g | g in incoming :: InChain(g)
    ensures InChain(MergeAll(flag, incoming))
    ensures Below(flag, MergeAll(flag, incoming))
    ensures forall g | g in incoming :: Below(g, MergeAll(flag, incoming))
    ensures ReturnBits(MergeAll(flag, incoming)) == ReturnBits(flag)
         || exists g | g in incoming :: ReturnBits(MergeAll(flag, incoming)) == ReturnBits(g)
    ensures MustHandle(MergeAll(flag, incoming)) <==> MustHandle(flag) || exists g | g in incoming :: MustHandle(g)
    decreases |incoming|
  {
    if incoming != [] {
      var first, rest := incoming[0], incoming[1..];
      assert incoming == [first] + rest;
      MergeIsLarger(flag, first);
      MergeAllIsMaximum(MergeFlag(flag, first), rest);
    }
  }

  lemma MarkIsItsNibbles(f: Flag, g: Flag)
    requires IsMark(f) && IsMark(g) && ReturnBits(f) == ReturnBits(g) && (MustHandle(f) <==> MustHandle(g))
    ensures f == g
  {
  }

  /** So neither the order nor the repetition of the incoming flags matters. */
  lemma MergeAllIgnoresOrder(flag: Flag, xs: seq<Flag>, ys: seq<Flag>)
    requires InChain(flag) && forall g | g in xs :: InChain(g)
    requires forall g :: g in xs <==> g in ys
    ensures MergeAll(flag, xs) == MergeAll(flag, ys)
  {
    MergeAllIsMaximum(flag, xs);
    MergeAllIsMaximum(flag, ys);
    MarkIsItsNibbles(MergeAll(flag, xs), MergeAll(flag, ys));
  }

  // ---------- the order of the merges, for all marks ----------

  const BOTH_RETURN_ERR: Flag := 3

  ghost predicate AllAreMarks(xs: seq<Flag>) {
    forall g | g in xs :: IsMark(g)
  }

  /** Every order of the same incoming flags is integrated to the same flag. */
  ghost predicate OrderIsFree(flag: Flag, xs: seq<Flag>) {
    forall ys: seq<Flag> | multiset(ys) == multiset(xs) :: MergeAll(flag, ys) == MergeAll(flag, xs)
  }

  /** Some incoming flag has the return nibble. */
  ghost predicate ComesIn(xs: seq<Flag>, nibble: Flag) {
    exists g | g in xs :: ReturnBits(g) == nibble
  }

  /** A May flag comes in, or no two incoming flags compete for the nibble that the start leaves open. */
  ghost predicate NothingCompetes(flag: Flag, xs: seq<Flag>) {
    || ComesIn(xs, MAY_RETURN_ERR)
    || ReturnBits(flag) == MUST_RETURN_ERR
    || ReturnBits(flag) == MAY_RETURN_ERR
    || (ReturnBits(flag) == 0 && !(ComesIn(xs, MUST_RETURN_ERR) && ComesIn(xs, BOTH_RETURN_ERR)))
    || (ReturnBits(flag) == BOTH_RETURN_ERR
        && !(ComesIn(xs, 0) && (ComesIn(xs, MUST_RETURN_ERR) || ComesIn(xs, BOTH_RETURN_ERR))))
  }

  /** The return nibble of the integrated flag, when nothing competes for it. */
  ghost function IntegratedNibble(nibble: Flag, xs: seq<Flag>): Flag {
    if ComesIn(xs, MAY_RETURN_ERR) then MAY_RETURN_ERR
    else if nibble == MUST_RETURN_ERR || nibble == MAY_RETURN_ERR || xs == [] then nibble
    else if nibble == 0 then
      if ComesIn(xs, MUST_RETURN_ERR) then MUST_RETURN_ERR
      else if ComesIn(xs, BOTH_RETURN_ERR) then MAY_RETURN_ERR
      else 0
    else if ComesIn(xs, 0) then MAY_RETURN_ERR else MUST_RETURN_ERR
  }

  /** One merge of two marks, nibble by nibble. */
  lemma MergeOfMarks(f: Flag, g: Flag)
    requires IsMark(f) && IsMark(g)
    ensures var r := MergeFlag(f, g);
            && IsMark(r) && (MustHandle(r) <==> MustHandle(f) || MustHandle(g))
            && ReturnBits(r) == NibbleAfter(ReturnBits(f), ReturnBits(g))
    ensures ReturnBits(f) <= BOTH_RETURN_ERR && ReturnBits(g) <= BOTH_RETURN_ERR
  {
  }

  /** The merge of two return nibbles as a table. */
  function NibbleAfter(f: Flag, g: Flag): Flag {
    if f == MAY_RETURN_ERR || g == MAY_RETURN_ERR then MAY_RETURN_ERR
    else if f == 0 then (if g == BOTH_RETURN_ERR then MAY_RETURN_ERR else g)
    else if f == MUST_RETURN_ERR then MUST_RETURN_ERR
    else if g == 0 then MAY_RETURN_ERR else MUST_RETURN_ERR
  }

  lemma ComesInFirst(g: Flag, rest: seq<Flag>, nibble: Flag)
    ensures ComesIn([g] + rest, nibble) <==> ReturnBits(g) == nibble || ComesIn(rest, nibble)
  {
    if ReturnBits(g) == nibble {
      assert g in [g] + rest;
    }
    if x :| x in rest && ReturnBits(x) == nibble {
      assert x in [g] + rest;
    }
  }

  lemma {:induction false} IntegrationIsClosed(flag: Flag, xs: seq<Flag>)
    requires IsMark(flag) && AllAreMarks(xs)
    ensures IsMark(MergeAll(flag, xs))
    ensures MustHandle(MergeAll(flag, xs)) <==> MustHandle(flag) || exists g | g in xs :: MustHandle(g)
    ensures NothingCompetes(flag, xs) ==>
              ReturnBits(MergeAll(flag, xs)) == IntegratedNibble(ReturnBits(flag), xs)
    decreases |xs|
  {
    if xs != [] {
      var g, rest := xs[0], xs[1..];
      assert xs == [g] + rest && g in xs && forall x | x in rest :: x in xs;
      MergeOfMarks(flag, g);
      IntegrationIsClosed(MergeFlag(flag, g), rest);
      forall nibble {
        ComesInFirst(g, rest, nibble);
      }
      NibblesOfMarks(rest);
    }
  }

  lemma NibblesOfMarks(xs: seq<Flag>)
    requires AllAreMarks(xs)
    ensures xs == [] || ComesIn(xs, 0) || ComesIn(xs, MUST_RETURN_ERR) || ComesIn(xs, MAY_RETURN_ERR)
         || ComesIn(xs, BOTH_RETURN_ERR)
  {
    if xs != [] {
      assert xs[0] in xs;
      MergeOfMarks(xs[0], xs[0]);
    }
  }

  /** Any incoming flag can be merged first. */
  lemma BroughtFirst(xs: seq<Flag>, g: Flag) returns (rest: seq<Flag>)
    requires g in xs
    ensures multiset([g] + rest) == multiset(xs) && forall x :: x in [g] + rest <==> x in xs
  {
    var i :| 0 <= i < |xs| && xs[i] == g;
    rest := xs[..i] + xs[i + 1..];
    assert xs == xs[..i] + ([g] + xs[i + 1..]);
    assert multiset([g] + rest) == multiset(xs);
    forall x ensures x in [g] + rest <==> x in xs {
      assert x in multiset([g] + rest) <==> x in multiset(xs);
    }
  }

  /** Merging g first: the nibble that comes out, when the first merge settles it. */
  lemma FirstMergeSettles(flag: Flag, xs: seq<Flag>, g: Flag) returns (ys: seq<Flag>)
    requires IsMark(flag) && AllAreMarks(xs) && g in xs && !ComesIn(xs, MAY_RETURN_ERR)
    requires var n := NibbleAfter(ReturnBits(flag), ReturnBits(g)); n == MUST_RETURN_ERR || n == MAY_RETURN_ERR
    ensures multiset(ys) == multiset(xs)
    ensures ReturnBits(MergeAll(flag, ys)) == NibbleAfter(ReturnBits(flag), ReturnBits(g))
  {
    var rest := BroughtFirst(xs, g);
    ys := [g] + rest;
    MergeOfMarks(flag, g);
    assert forall x | x in rest :: x in [g] + rest;
    IntegrationIsClosed(MergeFlag(flag, g), rest);
    assert ys[1..] == rest && !ComesIn(rest, MAY_RETURN_ERR);
  }

  /** Two incoming flags that settle the nibble differently when merged first make the order matter. */
  lemma RivalsDecide(flag: Flag, xs: seq<Flag>, g: Flag, h: Flag)
    requires IsMark(flag) && AllAreMarks(xs) && g in xs && h in xs && !ComesIn(xs, MAY_RETURN_ERR)
    requires NibbleAfter(ReturnBits(flag), ReturnBits(g)) == MUST_RETURN_ERR
    requires NibbleAfter(ReturnBits(flag), ReturnBits(h)) == MAY_RETURN_ERR
    ensures !OrderIsFree(flag, xs)
  {
    var ys := FirstMergeSettles(flag, xs, g);
    var zs := FirstMergeSettles(flag, xs, h);
    assert MergeAll(flag, ys) != MergeAll(flag, zs);
  }

  /** For all flags the marking can set: the order is irrelevant exactly when nothing competes. */
  lemma MergeOrderIsFree(flag: Flag, xs: seq<Flag>)
    requires IsMark(flag) && AllAreMarks(xs)
    ensures OrderIsFree(flag, xs) <==> NothingCompetes(flag, xs)
  {
    if NothingCompetes(flag, xs) {
      forall ys: seq<Flag> | multiset(ys) == multiset(xs) ensures MergeAll(flag, ys) == MergeAll(flag, xs) {
        SameMembersMerge(flag, xs, ys);
      }
    } else {
      MergeOfMarks(flag, flag);
      if ReturnBits(flag) == 0 {
        var g :| g in xs && ReturnBits(g) == MUST_RETURN_ERR;
        var h :| h in xs && ReturnBits(h) == BOTH_RETURN_ERR;
        RivalsDecide(flag, xs, g, h);
      } else {
        var g :| g in xs && (ReturnBits(g) == MUST_RETURN_ERR || ReturnBits(g) == BOTH_RETURN_ERR);
        var h :| h in xs && ReturnBits(h) == 0;
        RivalsDecide(flag, xs, g, h);
      }
    }
  }

  lemma SameMembersMerge(flag: Flag, xs: seq<Flag>, ys: seq<Flag>)
    requires IsMark(flag) && AllAreMarks(xs) && NothingCompetes(flag, xs) && multiset(xs) == multiset(ys)
    ensures MergeAll(flag, ys) == MergeAll(flag, xs)
  {
    forall g ensures g in xs <==> g in ys {
      assert g in multiset(xs) <==> g in multiset(ys);
    }
    forall n ensures ComesIn(xs, n) <==> ComesIn(ys, n) {
    }
    assert xs == [] <==> ys == [] by {
      assert |multiset(xs)| == |multiset(ys)|;
    }
    IntegrationIsClosed(flag, xs);
    IntegrationIsClosed(flag, ys);
    MarkIsItsNibbles(MergeAll(flag, xs), MergeAll(flag, ys));
  }

  /** A block that both must and may return an error competes with one that must. */
  lemma MergeAllDependsOnOrder()
    ensures var both := MUST_RETURN_ERR | MAY_RETURN_ERR;
            MergeAll(0, [MUST_RETURN_ERR, both]) != MergeAll(0, [both, MUST_RETURN_ERR])
  {
    var both := MUST_RETURN_ERR | MAY_RETURN_ERR;
    assert [MUST_RETURN_ERR, both][1..] == [both] && [both, MUST_RETURN_ERR][1..] == [MUST_RETURN_ERR];
    assert MergeAll(MergeFlag(0, MUST_RETURN_ERR), [both]) == MergeFlag(MUST_RETURN_ERR, both) == MUST_RETURN_ERR;
    assert MergeAll(MergeFlag(0, both), [MUST_RETURN_ERR])
        == MergeFlag(MAY_RETURN_ERR, MUST_RETURN_ERR) == MAY_RETURN_ERR;
  }

  /** A return flag that no merge with the given flags can change. */
  predicate Prevails(flag: Flag, flags: set<Flag>) {
    && IsMark(flag)
    && (forall g | g in flags :: IsMark(g))
    && (ReturnBits(flag) == MAY_RETURN_ERR ||
        (ReturnBits(flag) == MUST_RETURN_ERR && forall g | g in flags :: ReturnBits(g) != MAY_RETURN_ERR))
  }

  lemma {:induction false} PrevailingFlagStays(flag: Flag, incoming: seq<Flag>)
    requires Prevails(flag, set g | g in incoming)
    ensures IsMark(MergeAll(flag, incoming))
    ensures ReturnBits(MergeAll(flag, incoming)) == ReturnBits(flag)
    decreases |incoming|
  {
    if incoming != [] {
      var first, rest := incoming[0], incoming[1..];
      assert incoming == [first] + rest;
      assert first in set g | g in incoming;
      PrevailsOverOne(flag, first);
      assert Prevails(MergeFlag(flag, first), set g | g in rest) by {
        assert forall g | g in rest :: g in set h | h in incoming;
      }
      PrevailingFlagStays(MergeFlag(flag, first), rest);
    }
  }

  lemma PrevailsOverOne(flag: Flag, g: Flag)
    requires Prevails(flag, {g})
    ensures IsMark(MergeFlag(flag, g)) && ReturnBits(MergeFlag(flag, g)) == ReturnBits(flag)
  {
  }

  lemma {:induction false} MergeAllKeepsReturn(flag: Flag, incoming: seq<Flag>)
    requires ReturnBits(flag) != 0
    ensures ReturnBits(MergeAll(flag, incoming)) != 0
    decreases |incoming|
  {
    if incoming != [] {
      MergeAllKeepsReturn(MergeFlag(flag, incoming[0]), incoming[1..]);
    }
  }

  lemma {:induction false} MergeAllOfMarks(flag: Flag, incoming: seq<Flag>)
    requires IsMark(flag) && forall g | g in incoming :: IsMark(g)
    ensures IsMark(MergeAll(flag, incoming))
    decreases |incoming|
  {
    if incoming != [] {
      assert incoming[0] in incoming && forall g | g in incoming[1..] :: g in incoming;
      MergeAllOfMarks(MergeFlag(flag, incoming[0]), incoming[1..]);
    }
  }
}
