/**
  Reachability in directed graphs, and the worklist and depth-first searches with a shared visited set that
  compute it.
*/
module Graphs {

  /** Blocks and values are numbered. */
  type Node = nat

  /** A graph gives the set of successors of every node. */
  type Graph = Node -> set<Node>

  /** The numbers below n: the universe that bounds a visited set. */
  ghost function UpTo(n: nat): (s: set<nat>)
    ensures forall x: nat :: x in s <==> x < n
  {
    if n == 0 then {} else UpTo(n - 1) + {n - 1}
  }

  /** b is reached from a in exactly n steps. */
  ghost predicate ReachesIn(g: Graph, a: Node, b: Node, n: nat)
    decreases n
  {
    if n == 0 then a == b else exists c :: c in g(a) && ReachesIn(g, c, b, n - 1)
  }

  ghost predicate Reaches(g: Graph, a: Node, b: Node) {
    exists n: nat :: ReachesIn(g, a, b, n)
  }

  ghost predicate ReachedFrom(g: Graph, roots: set<Node>, b: Node) {
    exists a | a in roots :: Reaches(g, a, b)
  }

  ghost predicate Closed(g: Graph, s: set<Node>) {
    forall x | x in s :: g(x) <= s
  }

  lemma ReachSelf(g: Graph, a: Node)
    ensures Reaches(g, a, a)
  {
    assert ReachesIn(g, a, a, 0);
  }

  lemma ReachFirst(g: Graph, a: Node, b: Node, c: Node)
    requires b in g(a) && Reaches(g, b, c)
    ensures Reaches(g, a, c)
  {
    var n: nat :| ReachesIn(g, b, c, n);
    assert ReachesIn(g, a, c, n + 1);
  }

  lemma {:induction false} ReachesInTrans(g: Graph, a: Node, b: Node, c: Node, m: nat, n: nat)
    requires ReachesIn(g, a, b, m) && ReachesIn(g, b, c, n)
    ensures ReachesIn(g, a, c, m + n)
    decreases m
  {
    if m > 0 {
      var x :| x in g(a) && ReachesIn(g, x, b, m - 1);
      ReachesInTrans(g, x, b, c, m - 1, n);
    }
  }

  lemma ReachTrans(g: Graph, a: Node, b: Node, c: Node)
    requires Reaches(g, a, b) && Reaches(g, b, c)
    ensures Reaches(g, a, c)
  {
    var m: nat :| ReachesIn(g, a, b, m);
    var n: nat :| ReachesIn(g, b, c, n);
    ReachesInTrans(g, a, b, c, m, n);
  }

  lemma ReachNext(g: Graph, a: Node, b: Node, c: Node)
    requires Reaches(g, a, b) && c in g(b)
    ensures Reaches(g, a, c)
  {
    ReachSelf(g, c);
    ReachFirst(g, b, c, c);
    ReachTrans(g, a, b, c);
  }

  lemma ReachedNext(g: Graph, roots: set<Node>, b: Node, c: Node)
    requires ReachedFrom(g, roots, b) && c in g(b)
    ensures ReachedFrom(g, roots, c)
  {
    var a :| a in roots && Reaches(g, a, b);
    ReachNext(g, a, b, c);
  }

  lemma {:induction false} ClosedHoldsReachIn(g: Graph, s: set<Node>, a: Node, b: Node, n: nat)
    requires Closed(g, s) && a in s && ReachesIn(g, a, b, n)
    ensures b in s
    decreases n
  {
    if n > 0 {
      var c :| c in g(a) && ReachesIn(g, c, b, n - 1);
      ClosedHoldsReachIn(g, s, c, b, n - 1);
    }
  }

  /** A closed set that holds a node holds everything the node reaches. */
  lemma ClosedHoldsReach(g: Graph, s: set<Node>, a: Node, b: Node)
    requires Closed(g, s) && a in s && Reaches(g, a, b)
    ensures b in s
  {
    var n: nat :| ReachesIn(g, a, b, n);
    ClosedHoldsReachIn(g, s, a, b, n);
  }

  /** A closed set of reached nodes that holds the roots is exactly what the roots reach. */
  lemma {:induction false} ClosedIsReach(g: Graph, roots: set<Node>, s: set<Node>)
    requires Closed(g, s) && roots <= s
    requires forall x | x in s :: ReachedFrom(g, roots, x)
    ensures forall x :: x in s <==> ReachedFrom(g, roots, x)
  {
    forall x | ReachedFrom(g, roots, x)
      ensures x in s
    {
      var a :| a in roots && Reaches(g, a, x);
      ClosedHoldsReach(g, s, a, x);
    }
  }

  lemma {:induction false} SubgraphReachesIn(g: Graph, h: Graph, a: Node, b: Node, n: nat)
    requires (forall x :: g(x) <= h(x)) && ReachesIn(g, a, b, n)
    ensures ReachesIn(h, a, b, n)
    decreases n
  {
    if n > 0 {
      var c :| c in g(a) && ReachesIn(g, c, b, n - 1);
      SubgraphReachesIn(g, h, c, b, n - 1);
    }
  }

  lemma SubgraphReaches(g: Graph, h: Graph, a: Node, b: Node)
    requires (forall x :: g(x) <= h(x)) && Reaches(g, a, b)
    ensures Reaches(h, a, b)
  {
    var n: nat :| ReachesIn(g, a, b, n);
    SubgraphReachesIn(g, h, a, b, n);
  }

  ghost predicate Reversed(g: Graph, h: Graph) {
    forall x, y :: y in g(x) <==> x in h(y)
  }

  lemma {:induction false} ReachFlipsIn(g: Graph, h: Graph, a: Node, b: Node, n: nat)
    requires Reversed(g, h) && ReachesIn(g, a, b, n)
    ensures Reaches(h, b, a)
    decreases n
  {
    if n == 0 {
      ReachSelf(h, a);
    } else {
      var c :| c in g(a) && ReachesIn(g, c, b, n - 1);
      ReachFlipsIn(g, h, c, b, n - 1);
      ReachNext(h, b, c, a);
    }
  }

  lemma SameReach(g: Graph, h: Graph, a: Node, b: Node)
    requires forall x :: g(x) == h(x)
    ensures Reaches(g, a, b) <==> Reaches(h, a, b)
  {
    if Reaches(g, a, b) {
      SubgraphReaches(g, h, a, b);
    }
    if Reaches(h, a, b) {
      SubgraphReaches(h, g, a, b);
    }
  }

  /** Reachability in the reversed graph is reachability read backwards. */
  lemma ReachFlips(g: Graph, h: Graph, a: Node, b: Node)
    requires Reversed(g, h)
    ensures Reaches(g, a, b) <==> Reaches(h, b, a)
  {
    if Reaches(g, a, b) {
      var n: nat :| ReachesIn(g, a, b, n);
      ReachFlipsIn(g, h, a, b, n);
    }
    if Reaches(h, b, a) {
      var n: nat :| ReachesIn(h, b, a, n);
      ReachFlipsIn(h, g, b, a, n);
    }
  }

  /** Breadth-first search from one root: finished nodes and the worklist. */
  ghost predicate Search(g: Graph, universe: set<Node>, root: Node, done: set<Node>, todo: seq<Node>) {
    Searching(g, {root}, done, Items(todo)) && Items(todo) <= universe
  }

  lemma SearchStart(g: Graph, universe: set<Node>, root: Node)
    requires root in universe
    ensures Search(g, universe, root, {}, [root])
  {
    StartSearch(g, root);
    assert Items([root]) == {root};
  }

  lemma SearchStep(g: Graph, universe: set<Node>, root: Node, done: set<Node>, todo: seq<Node>, next: seq<Node>)
    requires Search(g, universe, root, done, todo) && todo != []
    requires Items(next) == g(todo[0]) <= universe
    ensures Search(g, universe, root, done + {todo[0]}, todo[1..] + next)
  {
    ItemsPop(todo, next);
    ExpandFirst(g, {root}, done, todo, next);
  }

  /** Whatever waits is in the universe and reached. */
  lemma SearchFinds(g: Graph, universe: set<Node>, root: Node, done: set<Node>, todo: seq<Node>)
    requires Search(g, universe, root, done, todo) && todo != []
    ensures todo[0] in universe && Reaches(g, root, todo[0])
  {
    assert todo[0] in Items(todo) && ReachedFrom(g, {root}, todo[0]);
  }

  lemma SearchEnd(g: Graph, universe: set<Node>, root: Node, done: set<Node>)
    requires Search(g, universe, root, done, [])
    ensures forall x :: x in done <==> Reaches(g, root, x)
  {
    assert Items<Node>([]) == {};
    EndSearch(g, root, done);
  }

  // ---------- searches that share what they have seen ----------

  /** The graph without the nodes an earlier search has dealt with. */
  ghost function Beyond(g: Graph, seen: set<Node>): Graph {
    (v: Node) => if v in seen then {} else g(v)
  }

  /** The part of a universe that the roots reach. */
  ghost function Region(g: Graph, universe: set<Node>, roots: set<Node>): set<Node> {
    set v | v in universe && ReachedFrom(g, roots, v)
  }

  /** The part that a new root reaches without entering what was seen before. */
  ghost function NewRegion(g: Graph, universe: set<Node>, seen: set<Node>, root: Node): set<Node> {
    set v | v in universe && v !in seen && Reaches(Beyond(g, seen), root, v)
  }

  ghost predicate StaysIn(g: Graph, universe: set<Node>) {
    forall v :: g(v) <= universe
  }

  lemma RegionIsClosed(g: Graph, universe: set<Node>, roots: set<Node>)
    requires StaysIn(g, universe)
    ensures Closed(g, Region(g, universe, roots))
  {
    forall v, w | v in Region(g, universe, roots) && w in g(v) ensures w in Region(g, universe, roots) {
      ReachedNext(g, roots, v, w);
    }
  }

  lemma NewRegionCloses(g: Graph, universe: set<Node>, seen: set<Node>, root: Node)
    requires StaysIn(g, universe) && Closed(g, seen)
    ensures Closed(g, seen + NewRegion(g, universe, seen, root))
  {
    forall v, w | v in seen + NewRegion(g, universe, seen, root) && w in g(v)
      ensures w in seen + NewRegion(g, universe, seen, root)
    {
      if v !in seen {
        ReachNext(Beyond(g, seen), root, v, w);
      }
    }
  }

  lemma ReachedFromNew(g: Graph, universe: set<Node>, seen: set<Node>, roots: set<Node>, root: Node, v: Node)
    requires v in NewRegion(g, universe, seen, root)
    ensures ReachedFrom(g, roots + {root}, v)
  {
    SubgraphReaches(Beyond(g, seen), g, root, v);
    assert root in roots + {root};
  }

  lemma RegionsAreReached(g: Graph, universe: set<Node>, roots: set<Node>, root: Node)
    ensures var seen := Region(g, universe, roots);
            forall v | v in seen + NewRegion(g, universe, seen, root) :: ReachedFrom(g, roots + {root}, v)
  {
    var seen := Region(g, universe, roots);
    forall v | v in seen + NewRegion(g, universe, seen, root) ensures ReachedFrom(g, roots + {root}, v) {
      if v in seen {
      } else {
        ReachedFromNew(g, universe, seen, roots, root, v);
      }
    }
  }

  lemma RegionsHoldRoots(g: Graph, universe: set<Node>, roots: set<Node>, root: Node)
    requires roots <= universe && root in universe
    ensures var seen := Region(g, universe, roots);
            roots + {root} <= seen + NewRegion(g, universe, seen, root)
  {
    var seen := Region(g, universe, roots);
    forall r | r in roots + {root} ensures r in seen + NewRegion(g, universe, seen, root) {
      ReachSelf(g, r);
      ReachSelf(Beyond(g, seen), r);
    }
  }

  /** Searching from one root after the other, sharing what was seen, is searching from all roots. */
  lemma RegionGrows(g: Graph, universe: set<Node>, roots: set<Node>, root: Node)
    requires StaysIn(g, universe) && roots <= universe && root in universe
    ensures Region(g, universe, roots + {root}) ==
            Region(g, universe, roots) + NewRegion(g, universe, Region(g, universe, roots), root)
  {
    var seen := Region(g, universe, roots);
    var both := seen + NewRegion(g, universe, seen, root);
    assert forall x :: x in both <==> ReachedFrom(g, roots + {root}, x) by {
      assert Closed(g, both) by {
        RegionIsClosed(g, universe, roots);
        NewRegionCloses(g, universe, seen, root);
      }
      RegionsAreReached(g, universe, roots, root);
      RegionsHoldRoots(g, universe, roots, root);
      ClosedIsReach(g, roots + {root}, both);
    }
  }

  // ---------- recursive searches ----------

  /** A recursive search from root, sharing the set seen0, has ended with the set seen. */
  ghost predicate Explored(g: Graph, seen0: set<Node>, root: Node, seen: set<Node>) {
    && seen0 <= seen && root in seen
    && (forall x | x in seen && x !in seen0 :: Reaches(Beyond(g, seen0), root, x) && g(x) <= seen)
  }

  /** The search is at node v, and some of its successors are dealt with. */
  ghost predicate Exploring(g: Graph, seen0: set<Node>, v: Node, kids: set<Node>, seen: set<Node>) {
    && seen0 <= seen && v in seen && v !in seen0 && kids <= seen
    && (forall x | x in seen && x !in seen0 :: Reaches(Beyond(g, seen0), v, x))
    && (forall x | x in seen && x !in seen0 && x != v :: g(x) <= seen)
  }

  lemma ExploreStart(g: Graph, seen0: set<Node>, v: Node)
    requires v !in seen0
    ensures Exploring(g, seen0, v, {}, seen0 + {v})
  {
    ReachSelf(Beyond(g, seen0), v);
  }

  lemma ExploreKid(g: Graph, seen0: set<Node>, v: Node, kids: set<Node>, s1: set<Node>, k: Node, s2: set<Node>)
    requires Exploring(g, seen0, v, kids, s1) && k in g(v) && Explored(g, s1, k, s2)
    ensures Exploring(g, seen0, v, kids + {k}, s2)
  {
    forall x | x in s2 && x !in seen0 ensures Reaches(Beyond(g, seen0), v, x) {
      if x !in s1 {
        SubgraphReaches(Beyond(g, s1), Beyond(g, seen0), k, x);
        ReachFirst(Beyond(g, seen0), v, k, x);
      }
    }
  }

  /** A node that was seen before is explored already. */
  lemma ExploredBefore(g: Graph, seen: set<Node>, v: Node)
    requires v in seen
    ensures Explored(g, seen, v, seen)
  {
  }

  /** Exactly what the root reaches without entering seen0 is added. */
  lemma ExploredIsNewRegion(g: Graph, universe: set<Node>, seen0: set<Node>, root: Node, seen: set<Node>)
    requires Explored(g, seen0, root, seen) && StaysIn(g, universe) && root in universe
    ensures seen == seen0 + NewRegion(g, universe, seen0, root)
  {
    var h := Beyond(g, seen0);
    forall x | Reaches(h, root, x) ensures x in seen {
      ClosedHoldsReach(h, seen, root, x);
    }
    forall x | Reaches(h, root, x) ensures x in universe {
      ClosedHoldsReach(h, universe, root, x);
    }
  }

  /** After searches from some roots, one more search completes the region of all roots. */
  lemma ExploredRegion(g: Graph, universe: set<Node>, roots: set<Node>, root: Node, seen: set<Node>)
    requires StaysIn(g, universe) && roots <= universe && root in universe
    requires Explored(g, Region(g, universe, roots), root, seen)
    ensures seen == Region(g, universe, roots + {root})
  {
    ExploredIsNewRegion(g, universe, Region(g, universe, roots), root, seen);
    RegionGrows(g, universe, roots, root);
  }

  // ---------- loops over lists ----------

  lemma PrefixGrows<T>(s: seq<T>, i: nat)
    requires i < |s|
    ensures forall x :: x in s[..i + 1] <==> x in s[..i] || x == s[i]
  {
    assert s[..i + 1] == s[..i] + [s[i]];
  }

  /** A loop that takes the elements of a set one by one, in any order. */
  lemma TakeOne<T>(all: set<T>, rest: set<T>, x: T)
    requires x in rest && rest <= all
    ensures all - (rest - {x}) == (all - rest) + {x} && rest - {x} <= all
  {
  }

  lemma TakeNone<T>(all: set<T>)
    ensures all - all == {} && all - {} == all
  {
  }

  lemma {:induction false} ConcatJoin<T>(xs: seq<seq<T>>, ys: seq<seq<T>>)
    ensures Concat(xs + ys) == Concat(xs) + Concat(ys)
    decreases |xs|
  {
    if xs == [] {
      assert xs + ys == ys;
    } else {
      assert (xs + ys)[1..] == xs[1..] + ys;
      ConcatJoin(xs[1..], ys);
    }
  }

  function Concat<T>(xss: seq<seq<T>>): seq<T> {
    if xss == [] then [] else xss[0] + Concat(xss[1..])
  }

  lemma ConcatOne<T>(xs: seq<T>)
    ensures Concat([xs]) == xs
  {
    assert [xs][1..] == [];
    assert Concat([xs]) == xs + Concat([]);
  }

  lemma ConcatLast<T>(xss: seq<seq<T>>, i: nat)
    requires i < |xss|
    ensures Concat(xss[..i + 1]) == Concat(xss[..i]) + xss[i]
  {
    assert xss[..i + 1] == xss[..i] + [xss[i]];
    ConcatJoin(xss[..i], [xss[i]]);
    ConcatOne(xss[i]);
  }

  lemma PrefixIsAll<T>(s: seq<T>)
    ensures s[..|s|] == s
  {
  }

  // ---------- worklists ----------

  ghost function Items<T>(todo: seq<T>): set<T> {
    set x | x in todo
  }

  lemma ItemsPop<T>(todo: seq<T>, next: seq<T>)
    requires todo != []
    ensures Items(todo) == {todo[0]} + Items(todo[1..])
    ensures Items(todo[1..] + next) == Items(todo[1..]) + Items(next)
  {
    assert todo == [todo[0]] + todo[1..];
    assert forall x :: x in todo[1..] + next <==> x in todo[1..] || x in next;
  }

  /** Only reached nodes are seen, the roots among them; what a finished node leads to is seen. */
  ghost predicate Searching(g: Graph, roots: set<Node>, done: set<Node>, waiting: set<Node>) {
    && (forall r | r in roots :: r in done || r in waiting)
    && (forall x | x in done || x in waiting :: ReachedFrom(g, roots, x))
    && (forall x, y | x in done && y in g(x) :: y in done || y in waiting)
  }

  lemma StartSearch(g: Graph, root: Node)
    ensures Searching(g, {root}, {}, {root})
  {
    ReachSelf(g, root);
  }

  lemma {:induction false} ExpandNode(g: Graph, roots: set<Node>, done: set<Node>, x: Node, rest: set<Node>,
                                      next: set<Node>)
    requires Searching(g, roots, done, {x} + rest) && next == g(x)
    ensures Searching(g, roots, done + {x}, rest + next)
  {
    assert x in {x} + rest;
    forall y | y in next ensures ReachedFrom(g, roots, y) {
      ReachedNext(g, roots, x, y);
    }
  }

  lemma SkipFirst(g: Graph, roots: set<Node>, done: set<Node>, todo: seq<Node>)
    requires Searching(g, roots, done, Items(todo)) && todo != [] && todo[0] in done
    ensures Searching(g, roots, done, Items(todo[1..]))
  {
    ItemsPop(todo, []);
  }

  lemma ExpandFirst(g: Graph, roots: set<Node>, done: set<Node>, todo: seq<Node>, next: seq<Node>)
    requires Searching(g, roots, done, Items(todo)) && todo != []
    requires Items(next) == g(todo[0])
    ensures Searching(g, roots, done + {todo[0]}, Items(todo[1..] + next))
  {
    ItemsPop(todo, next);
    ExpandNode(g, roots, done, todo[0], Items(todo[1..]), Items(next));
  }

  lemma EndSearch(g: Graph, root: Node, done: set<Node>)
    requires Searching(g, {root}, done, {})
    ensures forall x :: x in done <==> Reaches(g, root, x)
  {
    ClosedIsReach(g, {root}, done);
    forall x ensures ReachedFrom(g, {root}, x) <==> Reaches(g, root, x) {
    }
  }
}
