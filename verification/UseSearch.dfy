/** Uses of a checked target after its check. */
module UseSearch {
  import opened Graphs
  import opened ControlFlow
  import opened Ir
  import opened Slicing
  import opened ForwardSearch

  /** An instruction that uses a target; for calls, as which argument. */
  datatype UseSite = UseSite(inst: Value, argNo: int)

  /** Where the collection starts: the check, and the blocks that come after it. */
  datatype Border = Border(check: Value, after: set<Block>)

  predicate UserCounts(p: Program, d: Border, u: Value) {
    p.Has(u) && p.nodes[u].IsInstruction() && u != d.check
  }

  /** The use that one user of a value is, if any. */
  function UseAt(p: Program, d: Border, v: Value, u: Value): Option<UseSite> {
    if !UserCounts(p, d, u) || p.parent[u] !in d.after then None
    else
      match p.nodes[u]
      case Gep(_, _) => Some(UseSite(u, -1))
      case Load(ptr) => if ptr == v then Some(UseSite(u, -1)) else None
      case Store(_, ptr) => if ptr == v then Some(UseSite(u, -1)) else None
      case Cmp(_, _, _) => Some(UseSite(u, -1))
      case Call(_, _, _, _, args, _) => Some(UseSite(u, ArgIndex(args, v)))
      case _ => None
  }

  predicate ConstantOperand(p: Program, o: Value) {
    p.Has(o) && p.nodes[o].IsConstant()
  }

  /** Does the collection go on with the user itself? */
  predicate GoesOn(p: Program, d: Border, v: Value, u: Value) {
    UserCounts(p, d, u) &&
    match p.nodes[u]
    case Gep(ptr, _) => p.parent[u] in d.after && ptr == u
    case Load(ptr) => ptr != v
    case Binary(l, r) => !ConstantOperand(p, l) && !ConstantOperand(p, r)
    case Alloca(_) => true
    case OtherUnary(_, extract) => !extract
    case _ => false
  }

  predicate SavesIn(p: Program, d: Border, v: Value, u: Value) {
    UserCounts(p, d, u) && p.nodes[u].Store? && p.nodes[u].ptr != v
  }

  /** The function an instruction belongs to. */
  function FuncOf(p: Program, u: Value): Func
    requires p.Has(u)
  {
    p.blockFunc[p.parent[u]]
  }

  ghost function UserNext(p: Program, c: Context, d: Border, v: Value, u: Value): set<Value> {
    (if GoesOn(p, d, v, u) then {u} else {}) +
    if SavesIn(p, d, v, u)
    then LoadsWithin(p, d.after, GetAliasPointers(c.aliases, FuncOf(p, u), p.nodes[u].ptr)) else {}
  }

  ghost function UsersNext(p: Program, c: Context, d: Border, v: Value, us: set<Value>): set<Value> {
    set u, x | u in us && x in UserNext(p, c, d, v, u) :: x
  }

  ghost function UseFlow(p: Program, c: Context, d: Border): Graph {
    (v: Value) => if p.Has(v) then UsersNext(p, c, d, v, Items(p.users[v])) else {}
  }

  ghost function UsesAt(p: Program, d: Border, v: Value): set<UseSite> {
    if p.Has(v) then set u | u in p.users[v] && UseAt(p, d, v, u).Some? :: UseAt(p, d, v, u).value else {}
  }

  ghost function AllUses(p: Program, d: Border, vs: set<Value>): set<UseSite> {
    set v, s | v in vs && s in UsesAt(p, d, v) :: s
  }

  datatype UseState = UseState(uses: set<UseSite>, visited: set<Value>)

  /** Exactly the uses of the newly visited values are added. */
  ghost predicate UsesAdded(p: Program, d: Border, before: UseState, after: UseState) {
    before.visited <= after.visited && after.uses == before.uses + AllUses(p, d, after.visited - before.visited)
  }

  lemma UsesAddedTwice(p: Program, d: Border, s0: UseState, s1: UseState, s2: UseState)
    requires UsesAdded(p, d, s0, s1) && UsesAdded(p, d, s1, s2)
    ensures UsesAdded(p, d, s0, s2)
  {
    assert s2.visited - s0.visited == (s1.visited - s0.visited) + (s2.visited - s1.visited);
  }

  /** All uses of a value and all values to go on with. */
  method UsersOf(p: Program, c: Context, d: Border, v: Value) returns (uses: set<UseSite>, next: seq<Value>)
    requires p.Has(v) && ValidAliases(p, c.aliases)
    ensures uses == UsesAt(p, d, v) && Items(next) == UseFlow(p, c, d)(v) <= UpTo(|p.nodes|)
  {
    uses, next := {}, [];
    var us := p.users[v];
    for i := 0 to |us|
      invariant uses == set u | u in us[..i] && UseAt(p, d, v, u).Some? :: UseAt(p, d, v, u).value
      invariant Items(next) == UsersNext(p, c, d, v, Items(us[..i])) <= UpTo(|p.nodes|)
    {
      PrefixGrows(us, i);
      UsersExist(p, v, us[i]);
      if UseAt(p, d, v, us[i]).Some? {
        uses := uses + {UseAt(p, d, v, us[i]).value};
      }
      var more := NextOfUser(p, c, d, v, us[i]);
      assert forall x :: x in next + more <==> x in Items(next) || x in Items(more);
      next := next + more;
    }
    PrefixIsAll(us);
  }

  method NextOfUser(p: Program, c: Context, d: Border, v: Value, u: Value) returns (next: seq<Value>)
    requires p.Has(u) && ValidAliases(p, c.aliases)
    ensures Items(next) == UserNext(p, c, d, v, u) <= UpTo(|p.nodes|)
  {
    next := [];
    if GoesOn(p, d, v, u) {
      next := [u];
    } else if SavesIn(p, d, v, u) {
      OperandsExist(p, u, p.nodes[u].Operands()[1]);
      next := CollectLoadsWithin(p, d.after, GetAliasPointers(c.aliases, FuncOf(p, u), p.nodes[u].ptr));
    }
  }

  /** The recursion shares one set of visited values, so a value contributes its uses once. */
  method FindUses(p: Program, c: Context, d: Border, v: Value, before: UseState) returns (now: UseState)
    requires p.Has(v) && ValidAliases(p, c.aliases)
    ensures Explored(UseFlow(p, c, d), before.visited, v, now.visited)
    ensures UsesAdded(p, d, before, now)
    decreases UpTo(|p.nodes|) - before.visited
  {
    now := before;
    if v in before.visited {
      assert before.visited - before.visited == {};
      ExploredBefore(UseFlow(p, c, d), before.visited, v);
      return;
    }
    var uses, next := UsersOf(p, c, d, v);
    now := UseState(before.uses + uses, before.visited + {v});
    assert now.visited - before.visited == {v} && AllUses(p, d, {v}) == UsesAt(p, d, v);
    ExploreStart(UseFlow(p, c, d), before.visited, v);
    assert Items(next[..0]) == {};
    for i := 0 to |next|
      invariant Exploring(UseFlow(p, c, d), before.visited, v, Items(next[..i]), now.visited)
      invariant UsesAdded(p, d, before, now)
    {
      PrefixGrows(next, i);
      assert next[i] in Items(next);
      ghost var s1 := now;
      now := FindUses(p, c, d, next[i], now);
      ExploreKid(UseFlow(p, c, d), before.visited, v, Items(next[..i]), s1.visited, next[i], now.visited);
      UsesAddedTwice(p, d, before, s1, now);
      assert Items(next[..i + 1]) == Items(next[..i]) + {next[i]};
    }
    PrefixIsAll(next);
  }

  /** All uses the target flows to after the check. */
  ghost function UsesOfTarget(p: Program, c: Context, d: Border, target: Value): set<UseSite> {
    AllUses(p, d, Region(UseFlow(p, c, d), UpTo(|p.nodes|), {target}))
  }

  lemma {:induction false} UseFlowStays(p: Program, c: Context, d: Border)
    requires ValidAliases(p, c.aliases)
    ensures StaysIn(UseFlow(p, c, d), UpTo(|p.nodes|))
  {
  }

  /** From nothing visited the collection is exact. */
  method CollectUses(p: Program, c: Context, check: Value, target: Value) returns (uses: set<UseSite>)
    requires p.Has(check) && p.Has(target) && ValidAliases(p, c.aliases)
    ensures uses == UsesOfTarget(p, c, Border(check, BlocksAfter(p.cfg, p.parent[check])), target)
  {
    var after := CollectSuccReachBlocks(p.cfg, p.parent[check], {});
    CollectedForward(p.cfg, p.parent[check], after);
    var d := Border(check, after);
    var state := FindUses(p, c, d, target, UseState({}, {}));
    UseFlowStays(p, c, d);
    assert Region(UseFlow(p, c, d), UpTo(|p.nodes|), {}) == {} && {} + {target} == {target};
    ExploredRegion(UseFlow(p, c, d), UpTo(|p.nodes|), {}, target, state.visited);
    assert state.visited - {} == state.visited;
    uses := state.uses;
  }
}
