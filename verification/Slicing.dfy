/** Block reachability and backward slicing inside a function. */
module Slicing {
  import opened Graphs
  import opened ControlFlow
  import opened Ir

  // ---------- reachable blocks ----------

  method CollectSuccReachBlocks(cfg: Cfg, bb: Block, before: set<Block>) returns (reach: set<Block>)
    requires cfg.HasBlock(bb)
    ensures Explored(cfg.Forward(), before, bb, reach)
    decreases cfg.Blocks() - before
  {
    if bb in before {
      ExploredBefore(cfg.Forward(), before, bb);
      return before;
    }
    reach := before + {bb};
    var succs := cfg.succs[bb];
    ExploreStart(cfg.Forward(), before, bb);
    assert Items(succs[..0]) == {};
    for i := 0 to |succs|
      invariant Exploring(cfg.Forward(), before, bb, Items(succs[..i]), reach)
    {
      PrefixGrows(succs, i);
      ghost var r1 := reach;
      reach := CollectSuccReachBlocks(cfg, succs[i], reach);
      ExploreKid(cfg.Forward(), before, bb, Items(succs[..i]), r1, succs[i], reach);
      assert Items(succs[..i + 1]) == Items(succs[..i]) + {succs[i]};
    }
    PrefixIsAll(succs);
  }

  method CollectPredReachBlocks(cfg: Cfg, bb: Block, before: set<Block>) returns (reach: set<Block>)
    requires cfg.HasBlock(bb)
    ensures Explored(cfg.Backward(), before, bb, reach)
    decreases cfg.Blocks() - before
  {
    if bb in before {
      ExploredBefore(cfg.Backward(), before, bb);
      return before;
    }
    reach := before + {bb};
    var preds := cfg.preds[bb];
    ExploreStart(cfg.Backward(), before, bb);
    assert Items(preds[..0]) == {};
    for i := 0 to |preds|
      invariant Exploring(cfg.Backward(), before, bb, Items(preds[..i]), reach)
    {
      PrefixGrows(preds, i);
      ghost var r1 := reach;
      reach := CollectPredReachBlocks(cfg, preds[i], reach);
      ExploreKid(cfg.Backward(), before, bb, Items(preds[..i]), r1, preds[i], reach);
      assert Items(preds[..i + 1]) == Items(preds[..i]) + {preds[i]};
    }
    PrefixIsAll(preds);
  }

  ghost function BlocksAfter(cfg: Cfg, bb: Block): set<Block> {
    set b | b in cfg.Blocks() && Reaches(cfg.Forward(), bb, b)
  }

  ghost function BlocksBefore(cfg: Cfg, bb: Block): set<Block> {
    set b | b in cfg.Blocks() && Reaches(cfg.Forward(), b, bb)
  }

  /** From an empty set the forward search collects exactly the blocks that bb reaches. */
  lemma CollectedForward(cfg: Cfg, bb: Block, reach: set<Block>)
    requires cfg.HasBlock(bb) && Explored(cfg.Forward(), {}, bb, reach)
    ensures reach == BlocksAfter(cfg, bb)
  {
    assert Region(cfg.Forward(), cfg.Blocks(), {}) == {};
    ExploredRegion(cfg.Forward(), cfg.Blocks(), {}, bb, reach);
    forall b ensures ReachedFrom(cfg.Forward(), {} + {bb}, b) <==> Reaches(cfg.Forward(), bb, b) {
      assert {} + {bb} == {bb};
    }
  }

  /** From an empty set the backward search collects exactly the blocks that reach bb. */
  lemma CollectedBackward(cfg: Cfg, bb: Block, reach: set<Block>)
    requires cfg.HasBlock(bb) && Explored(cfg.Backward(), {}, bb, reach)
    ensures reach == BlocksBefore(cfg, bb)
  {
    assert Region(cfg.Backward(), cfg.Blocks(), {}) == {};
    ExploredRegion(cfg.Backward(), cfg.Blocks(), {}, bb, reach);
    forall b: Block ensures ReachedFrom(cfg.Backward(), {} + {bb}, b) <==> Reaches(cfg.Forward(), b, bb) {
      assert {} + {bb} == {bb};
      BackwardIsForward(cfg, bb, b);
    }
  }

  /** Which of two instructions of a block is seen first; a store may be the instruction itself. */
  ghost predicate NoLater(code: seq<Value>, st: Value, inst: Value) {
    exists k | 0 <= k < |code| :: code[k] == st && forall j | 0 <= j < k :: code[j] != inst
  }

  /** Breadth-first search over successors, from one block to another; a block always reaches itself. */
  method PathExists(cfg: Cfg, start: Block, goal: Block) returns (found: bool)
    requires cfg.HasBlock(start)
    ensures found <==> Reaches(cfg.Forward(), start, goal)
  {
    ghost var g := cfg.Forward();
    var done: set<Block> := {};
    var todo: seq<Block> := [start];
    SearchStart(g, cfg.Blocks(), start);
    while todo != []
      invariant Search(g, cfg.Blocks(), start, done, todo)
      invariant goal !in done
      decreases cfg.Blocks() - done, |todo|
    {
      var tb := todo[0];
      SearchFinds(g, cfg.Blocks(), start, done, todo);
      if tb in done {
        todo := todo[1..];
        continue;
      }
      if tb == goal {
        return true;
      }
      assert Items(cfg.succs[tb]) == g(tb);
      SearchStep(g, cfg.Blocks(), start, done, todo, cfg.succs[tb]);
      done := done + {tb};
      todo := todo[1..] + cfg.succs[tb];
    }
    SearchEnd(g, cfg.Blocks(), start, done);
    return false;
  }

  method PossibleUseStResult(p: Program, inst: Value, st: Value) returns (possible: bool)
    requires p.Has(inst) && p.Has(st)
    ensures p.parent[inst] == p.parent[st] ==> (possible <==> NoLater(p.body[p.parent[inst]], st, inst))
    ensures p.parent[inst] != p.parent[st] ==>
              (possible <==> Reaches(p.cfg.Forward(), p.parent[st], p.parent[inst]))
  {
    var instBB, stBB := p.parent[inst], p.parent[st];
    if instBB == stBB {
      var code := p.body[instBB];
      for k := 0 to |code|
        invariant forall j | 0 <= j < k :: code[j] != st && code[j] != inst
      {
        if code[k] == st {
          return true;
        }
        if code[k] == inst {
          return false;
        }
      }
      return false;
    }
    possible := PathExists(p.cfg, stBB, instBB);
  }

  /** Across blocks the path test agrees with both collections. */
  lemma PathTestAgrees(p: Program, inst: Value, st: Value)
    requires p.Has(inst) && p.Has(st)
    ensures Reaches(p.cfg.Forward(), p.parent[st], p.parent[inst])
       <==> p.parent[inst] in BlocksAfter(p.cfg, p.parent[st])
    ensures Reaches(p.cfg.Forward(), p.parent[st], p.parent[inst])
       <==> p.parent[st] in BlocksBefore(p.cfg, p.parent[inst])
  {
  }

  // ---------- the slice of a value ----------

  /** The aliases of every pointer, function by function. */
  type Aliases = map<Func, map<Value, set<Value>>>

  /** A pointer without an entry is its own only alias. */
  function GetAliasPointers(pa: Aliases, f: Func, addr: Value): (r: set<Value>)
    ensures addr in r
    ensures f in pa && addr in pa[f] ==> pa[f][addr] <= r
  {
    {addr} + if f in pa && addr in pa[f] then pa[f][addr] else {}
  }

  ghost predicate ValidAliases(p: Program, pa: Aliases) {
    forall f, a, b | f in pa && a in pa[f] && b in pa[f][a] :: p.Has(b)
  }

  /** The aliases of a loaded pointer, in the function of the load. */
  function LoadAliases(p: Program, pa: Aliases, v: Value): set<Value>
    requires p.Has(v) && p.nodes[v].Load?
  {
    GetAliasPointers(pa, p.blockFunc[p.parent[v]], p.nodes[v].ptr)
  }

  predicate UsedBefore(p: Program, u: Value, reach: set<Block>) {
    p.Has(u) && p.nodes[u].IsInstruction() && p.parent[u] in reach
  }

  /** The call operand that stands for the pointer: the pointer itself, or else the last argument. */
  function ArgSlot(args: seq<Value>, a: Value): Option<Value> {
    if args == [] then None else if a in args then Some(a) else Some(args[|args| - 1])
  }

  /** What one earlier user of an alias of a loaded pointer leads to. */
  function AliasUse(p: Program, a: Value, u: Value, reach: set<Block>): (r: (Option<Value>, Option<Value>)) {
    if !UsedBefore(p, u, reach) then (None, None)
    else if p.nodes[u].Store? && p.nodes[u].ptr == a then (Some(p.nodes[u].val), None)
    else if p.nodes[u].Call? then (None, ArgSlot(p.nodes[u].args, a))
    else (None, None)
  }

  /** Stored values to track next. */
  ghost function AliasNext(p: Program, a: Value, reach: set<Block>): set<Value> {
    if p.Has(a) then set u | u in p.users[a] && AliasUse(p, a, u, reach).0.Some? :: AliasUse(p, a, u, reach).0.value
    else {}
  }

  /** Call arguments that are sources. */
  ghost function AliasSources(p: Program, a: Value, reach: set<Block>): set<Value> {
    if p.Has(a) then set u | u in p.users[a] && AliasUse(p, a, u, reach).1.Some? :: AliasUse(p, a, u, reach).1.value
    else {}
  }

  ghost function NextOfAliases(p: Program, vs: set<Value>, reach: set<Block>): set<Value> {
    set a, x | a in vs && x in AliasNext(p, a, reach) :: x
  }

  ghost function SourcesOfAliases(p: Program, vs: set<Value>, reach: set<Block>): set<Value> {
    set a, x | a in vs && x in AliasSources(p, a, reach) :: x
  }

  lemma OneMoreAlias(p: Program, vs: set<Value>, a: Value, reach: set<Block>)
    ensures NextOfAliases(p, vs + {a}, reach) == NextOfAliases(p, vs, reach) + AliasNext(p, a, reach)
    ensures SourcesOfAliases(p, vs + {a}, reach) == SourcesOfAliases(p, vs, reach) + AliasSources(p, a, reach)
  {
  }

  ghost function LoadNext(p: Program, pa: Aliases, v: Value): set<Value>
    requires p.Has(v) && p.nodes[v].Load?
  {
    {p.nodes[v].ptr} + NextOfAliases(p, LoadAliases(p, pa, v), BlocksBefore(p.cfg, p.parent[v]))
  }

  ghost function LoadSources(p: Program, pa: Aliases, v: Value): set<Value>
    requires p.Has(v) && p.nodes[v].Load?
  {
    SourcesOfAliases(p, LoadAliases(p, pa, v), BlocksBefore(p.cfg, p.parent[v]))
  }

  /** Values that end the tracking. */
  predicate EndsSlice(n: Ir.Node) {
    n.IsConstant() || n.Param? || n.Alloca? || n.Call?
  }

  ghost function SourcesOf(p: Program, pa: Aliases, v: Value): set<Value> {
    if !p.Has(v) then {}
    else if EndsSlice(p.nodes[v]) then {v}
    else if p.nodes[v].Load? then LoadSources(p, pa, v)
    else {}
  }

  /** Critical variables: the value itself, unless it is of no supported kind, and the sources it yields. */
  ghost function CriticalOf(p: Program, pa: Aliases, v: Value): set<Value> {
    if !p.Has(v) then {}
    else
      match p.nodes[v]
      case Load(_) => {v} + LoadSources(p, pa, v)
      case Cmp(pred, _, _) => if pred != FloatPredicate then {v} else {}
      case Store(_, _) => {}
      case Branch(_) => {}
      case Switch(_) => {}
      case Return(_) => {}
      case OtherInst(_) => {}
      case _ => {v}
  }

  ghost function SliceNext(p: Program, pa: Aliases, v: Value): set<Value> {
    if !p.Has(v) then {}
    else
      match p.nodes[v]
      case Select(_, tval, fval) => {tval, fval}
      case Gep(ptr, _) => {ptr}
      case Phi(inc) => set i | 0 <= i < |inc| :: inc[i].value
      case Load(_) => LoadNext(p, pa, v)
      case OtherUnary(o, _) => {o}
      case Binary(l, r) => {l, r}
      case _ => {}
  }

  ghost function Slice(p: Program, pa: Aliases): Graph {
    (v: Value) => SliceNext(p, pa, v) * UpTo(|p.nodes|)
  }

  ghost function AllSources(p: Program, pa: Aliases, vs: set<Value>): set<Value> {
    set v, s | v in vs && s in SourcesOf(p, pa, v) :: s
  }

  ghost function AllCritical(p: Program, pa: Aliases, vs: set<Value>): set<Value> {
    set v, s | v in vs && s in CriticalOf(p, pa, v) :: s
  }

  /** Sources, critical variables and tracked values collected so far. */
  datatype SliceState = SliceState(sources: set<Value>, critical: set<Value>, tracked: set<Value>)

  /** Exactly what the newly tracked values contribute is added. */
  ghost predicate Sliced(p: Program, pa: Aliases, before: SliceState, after: SliceState) {
    && before.tracked <= after.tracked
    && after.sources == before.sources + AllSources(p, pa, after.tracked - before.tracked)
    && after.critical == before.critical + AllCritical(p, pa, after.tracked - before.tracked)
  }

  lemma SlicedTwice(p: Program, pa: Aliases, s0: SliceState, s1: SliceState, s2: SliceState)
    requires Sliced(p, pa, s0, s1) && Sliced(p, pa, s1, s2)
    ensures Sliced(p, pa, s0, s2)
  {
    var a, b := s1.tracked - s0.tracked, s2.tracked - s1.tracked;
    assert s2.tracked - s0.tracked == a + b;
    assert AllSources(p, pa, a + b) == AllSources(p, pa, a) + AllSources(p, pa, b);
    assert AllCritical(p, pa, a + b) == AllCritical(p, pa, a) + AllCritical(p, pa, b);
  }

  lemma SlicedOne(p: Program, pa: Aliases, v: Value, s0: SliceState)
    requires v !in s0.tracked
    ensures Sliced(p, pa, s0, SliceState(s0.sources + SourcesOf(p, pa, v), s0.critical + CriticalOf(p, pa, v),
                                         s0.tracked + {v}))
  {
    assert s0.tracked + {v} - s0.tracked == {v};
    assert AllSources(p, pa, {v}) == SourcesOf(p, pa, v);
    assert AllCritical(p, pa, {v}) == CriticalOf(p, pa, v);
  }

  /** The stores to a pointer, and the calls it is passed to, that come before. */
  method AliasUses(p: Program, a: Value, reach: set<Block>) returns (next: seq<Value>, srcs: set<Value>)
    requires p.Has(a)
    ensures Items(next) == AliasNext(p, a, reach) && srcs == AliasSources(p, a, reach)
  {
    next, srcs := [], {};
    var us := p.users[a];
    for i := 0 to |us|
      invariant forall x :: x in next <==> exists u | u in us[..i] :: AliasUse(p, a, u, reach).0 == Some(x)
      invariant forall x :: x in srcs <==> exists u | u in us[..i] :: AliasUse(p, a, u, reach).1 == Some(x)
    {
      PrefixGrows(us, i);
      var (stored, arg) := AliasUse(p, a, us[i], reach);
      if stored.Some? {
        next := next + [stored.value];
      }
      if arg.Some? {
        srcs := srcs + {arg.value};
      }
    }
    PrefixIsAll(us);
  }

  /** Goes through the aliases of the loaded pointer in any order. */
  method LoadUses(p: Program, pa: Aliases, v: Value) returns (next: seq<Value>, srcs: set<Value>)
    requires p.Has(v) && p.nodes[v].Load? && ValidAliases(p, pa)
    ensures Items(next) == LoadNext(p, pa, v) && srcs == LoadSources(p, pa, v)
  {
    OperandsExist(p, v, p.nodes[v].Operands()[0]);
    var reach := CollectPredReachBlocks(p.cfg, p.parent[v], {});
    CollectedBackward(p.cfg, p.parent[v], reach);
    var aliases := LoadAliases(p, pa, v);
    var rest := aliases;
    next, srcs := [p.nodes[v].ptr], {};
    while rest != {}
      invariant rest <= aliases
      invariant Items(next) == {p.nodes[v].ptr} + NextOfAliases(p, aliases - rest, reach)
      invariant srcs == SourcesOfAliases(p, aliases - rest, reach)
    {
      var a :| a in rest;
      var n, s := AliasUses(p, a, reach);
      OneMoreAlias(p, aliases - rest, a, reach);
      TakeOne(aliases, rest, a);
      assert Items(next + n) == Items(next) + Items(n);
      next, srcs, rest := next + n, srcs + s, rest - {a};
    }
    TakeNone(aliases);
  }

  method Neighbours(p: Program, pa: Aliases, v: Value)
    returns (next: seq<Value>, srcs: set<Value>, critical: set<Value>)
    requires p.Has(v) && ValidAliases(p, pa)
    ensures Items(next) == SliceNext(p, pa, v) && Items(next) <= UpTo(|p.nodes|)
    ensures srcs == SourcesOf(p, pa, v) && critical == CriticalOf(p, pa, v)
  {
    next, srcs, critical := [], {}, {};
    var n := p.nodes[v];
    if EndsSlice(n) {
      srcs, critical := {v}, {v};
      return;
    }
    match n {
      case Select(_, tval, fval) =>
        next, critical := [tval, fval], {v};
        assert n.Operands()[1] == tval && n.Operands()[2] == fval;
      case Gep(ptr, _) =>
        next, critical := [ptr], {v};
        assert n.Operands()[0] == ptr;
      case Phi(inc) =>
        next, critical := seq(|inc|, i requires 0 <= i < |inc| => inc[i].value), {v};
        assert forall i | 0 <= i < |inc| :: next[i] == inc[i].value && p.Has(inc[i].value);
        assert Items(next) == set i | 0 <= i < |inc| :: inc[i].value;
      case Load(ptr) =>
        next, srcs := LoadUses(p, pa, v);
        critical := {v} + srcs;
        LoadNextExists(p, pa, v);
      case Cmp(pred, _, _) =>
        if pred != FloatPredicate {
          critical := {v};
        }
      case OtherUnary(o, _) =>
        next, critical := [o], {v};
        assert n.Operands()[0] == o;
      case Binary(l, r) =>
        next, critical := [l, r], {v};
        assert n.Operands()[0] == l && n.Operands()[1] == r;
      case _ =>
    }
  }

  lemma LoadNextExists(p: Program, pa: Aliases, v: Value)
    requires p.Has(v) && p.nodes[v].Load? && ValidAliases(p, pa)
    ensures LoadNext(p, pa, v) <= UpTo(|p.nodes|)
  {
    OperandsExist(p, v, p.nodes[v].Operands()[0]);
    forall a: Value, u: Value | p.Has(a) && u in p.users[a] && p.Has(u) && p.nodes[u].Store?
      ensures p.Has(p.nodes[u].val)
    {
      OperandsExist(p, u, p.nodes[u].Operands()[0]);
    }
  }

  /** The recursion adds exactly the slice of v that was not tracked before, with its sources. */
  method FindInFuncSourceCV(p: Program, pa: Aliases, v: Value, before: SliceState) returns (now: SliceState)
    requires p.Has(v) && ValidAliases(p, pa)
    ensures Explored(Slice(p, pa), before.tracked, v, now.tracked)
    ensures Sliced(p, pa, before, now)
    decreases UpTo(|p.nodes|) - before.tracked
  {
    now := before;
    if v in before.tracked {
      assert before.tracked - before.tracked == {};
      ExploredBefore(Slice(p, pa), before.tracked, v);
      return;
    }
    var next, srcs, critical := Neighbours(p, pa, v);
    now := SliceState(before.sources + srcs, before.critical + critical, before.tracked + {v});
    SlicedOne(p, pa, v, before);
    ExploreStart(Slice(p, pa), before.tracked, v);
    assert Items(next[..0]) == {};
    for i := 0 to |next|
      invariant Exploring(Slice(p, pa), before.tracked, v, Items(next[..i]), now.tracked)
      invariant Sliced(p, pa, before, now)
    {
      PrefixGrows(next, i);
      assert next[i] in Items(next);
      ghost var s1 := now;
      now := FindInFuncSourceCV(p, pa, next[i], now);
      ExploreKid(Slice(p, pa), before.tracked, v, Items(next[..i]), s1.tracked, next[i], now.tracked);
      SlicedTwice(p, pa, before, s1, now);
      assert Items(next[..i + 1]) == Items(next[..i]) + {next[i]};
    }
    PrefixIsAll(next);
  }

  // ---------- the targets of a check ----------

  lemma SourcesAreCritical(p: Program, pa: Aliases, vs: set<Value>)
    ensures AllSources(p, pa, vs) <= AllCritical(p, pa, vs)
  {
    forall v, s | v in vs && s in SourcesOf(p, pa, v) ensures s in CriticalOf(p, pa, v) {
    }
  }

  /** The source set stays inside the critical set. */
  lemma SliceKeepsSourcesCritical(p: Program, pa: Aliases, before: SliceState, after: SliceState)
    requires Sliced(p, pa, before, after) && before.sources <= before.critical
    ensures after.sources <= after.critical
  {
    SourcesAreCritical(p, pa, after.tracked - before.tracked);
  }

  /** The operands whose sources a check is about. */
  function CheckedOperands(n: Ir.Node): seq<Value> {
    match n
    case Cmp(pred, l, r) => if pred != FloatPredicate then [l, r] else []
    case Binary(l, r) => [l, r]
    case Load(ptr) => [ptr]
    case Alloca(s) => [s]
    case OtherUnary(o, _) => [o]
    case Phi(inc) => n.Operands()
    case Call(_, _, _, _, args, _) => args
    case _ => []
  }

  lemma CheckedOperandsExist(p: Program, v: Value)
    requires p.Has(v)
    ensures Items(CheckedOperands(p.nodes[v])) <= UpTo(|p.nodes|)
  {
    forall o | o in CheckedOperands(p.nodes[v]) ensures p.Has(o) {
      var os := p.nodes[v].Operands();
      if p.nodes[v].Call? {
        assert os[..|os| - 1] == p.nodes[v].args;
      }
      assert o in os;
      OperandsExist(p, v, o);
    }
  }

  /** Everything the slices of the given operands come from. */
  ghost function TargetsOf(p: Program, pa: Aliases, operands: set<Value>): set<Value> {
    AllSources(p, pa, Region(Slice(p, pa), UpTo(|p.nodes|), operands))
  }

  /** The targets of several operands are those of each operand alone, whatever their order. */
  lemma TargetsJoin(p: Program, pa: Aliases, a: set<Value>, b: set<Value>)
    ensures TargetsOf(p, pa, a + b) == TargetsOf(p, pa, a) + TargetsOf(p, pa, b)
  {
  }

  /** Given a check, identify its targets: the operands are sliced with one shared tracked set. */
  method IdentifyCheckedTargets(p: Program, pa: Aliases, v: Value) returns (targets: set<Value>, critical: set<Value>)
    requires p.Has(v) && ValidAliases(p, pa)
    ensures targets == TargetsOf(p, pa, Items(CheckedOperands(p.nodes[v])))
    ensures targets <= critical
  {
    var state := SliceState({}, {}, {});
    var operands := CheckedOperands(p.nodes[v]);
    ghost var g, u := Slice(p, pa), UpTo(|p.nodes|);
    CheckedOperandsExist(p, v);
    assert Items(operands[..0]) == {} && Region(g, u, {}) == {};
    for i := 0 to |operands|
      invariant Items(operands[..i]) <= u
      invariant state.tracked == Region(g, u, Items(operands[..i]))
      invariant Sliced(p, pa, SliceState({}, {}, {}), state)
    {
      PrefixGrows(operands, i);
      assert operands[i] in Items(operands);
      assert Items(operands[..i + 1]) == Items(operands[..i]) + {operands[i]};
      ghost var s1 := state;
      state := FindInFuncSourceCV(p, pa, operands[i], state);
      ExploredRegion(g, u, Items(operands[..i]), operands[i], state.tracked);
      SlicedTwice(p, pa, SliceState({}, {}, {}), s1, state);
    }
    PrefixIsAll(operands);
    assert state.tracked - {} == state.tracked;
    SliceKeepsSourcesCritical(p, pa, SliceState({}, {}, {}), state);
    return state.sources, state.critical;
  }
}
