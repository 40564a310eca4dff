/** Which values may be error codes. */
module ErrorFlow {
  import opened Graphs
  import opened Ir

  /** What earlier passes and the configuration provide. */
  datatype Tables = Tables(
    firstCallee: map<Value, Func>,
    copyFuncs: map<string, (int, int)>,
    errorHandlers: set<string>,
    sourceName: map<Value, string>)
  {
    ghost predicate Valid(p: Program) {
      forall v | v in firstCallee :: firstCallee[v] < |p.funcs|
    }
  }

  // ---------- error codes ----------

  const ERRNO_PREFIX := 0x4cedb

  /** The upper twenty of the low 32 bits are the encoded error prefix. */
  predicate IsErrnoCode(x: int) {
    x % 0x1_0000_0000 / 0x1000 == ERRNO_PREFIX
  }

  predicate IsErrno(c: Constant, returnsPointer: bool) {
    match c
    case IntConst(x) => IsErrnoCode(-x) || IsErrnoCode(x) || -4096 < x < 0
    case NullConst => returnsPointer
    case ExprConst(ops) => exists o | o in ops :: IsErrno(o, returnsPointer)
    case OtherConst => false
  }

  predicate IsValueErrno(p: Program, f: Func, v: Value)
    requires p.Has(v) && f < |p.funcs|
  {
    p.nodes[v].Const? && IsErrno(p.nodes[v].c, p.funcs[f].returnsPointer)
  }

  // ---------- functions that may return an error ----------

  datatype Scan = Hit | Follow(callee: Func) | Pass

  function ScanInst(p: Program, t: Tables, f: Func, i: Value): Scan
    requires p.Has(i) && f < |p.funcs|
  {
    match p.nodes[i]
    case Store(v, ptr) =>
      OperandsExist(p, i, p.nodes[i].Operands()[0]);
      if IsValueErrno(p, f, v) then Hit else Pass
    case Call(_, direct, _, name, _, pointer) =>
      if pointer then Hit
      else if direct.None? then Pass
      else if name == "ERR_PTR" || name == "PTR_ERR" then Hit
      else if i !in t.firstCallee then Pass
      else Follow(t.firstCallee[i])
    case Return(Some(r)) =>
      OperandsExist(p, i, p.nodes[i].Operands()[0]);
      if p.nodes[r].Call? && r in t.firstCallee then Follow(t.firstCallee[r]) else Pass
    case _ => Pass
  }

  function CodeOf(p: Program, f: Func): (code: seq<Value>)
  {
    if f < |p.funcs| then p.Instructions(p.funcs[f].blocks) else []
  }

  lemma CodeExists(p: Program, f: Func, i: Value)
    requires i in CodeOf(p, f)
    ensures p.Has(i) && f < |p.funcs|
  {
    InstructionsOfBlocks(p, p.funcs[f].blocks, i);
  }

  ghost predicate ScansTo(p: Program, t: Tables, f: Func, s: Scan)
  {
    exists i | i in CodeOf(p, f) && p.Has(i) && f < |p.funcs| :: ScanInst(p, t, f, i) == s
  }

  ghost function CallsFollowed(p: Program, t: Tables): Graph
  {
    (f: Func) => set i | i in CodeOf(p, f) && p.Has(i) && f < |p.funcs| && ScanInst(p, t, f, i).Follow?
                   :: ScanInst(p, t, f, i).callee
  }

  /** Some function called along the followed calls sets an error code itself. */
  ghost predicate MayReturn(p: Program, t: Tables, f: Func)
  {
    exists g: Func :: Reaches(CallsFollowed(p, t), f, g) && ScansTo(p, t, g, Hit)
  }

  method ScanFunction(p: Program, t: Tables, f: Func) returns (hit: bool, next: seq<Func>)
    requires t.Valid(p) && f < |p.funcs|
    ensures hit <==> ScansTo(p, t, f, Hit)
    ensures !hit ==> Items(next) == CallsFollowed(p, t)(f)
    ensures Items(next) <= UpTo(|p.funcs|)
  {
    hit, next := false, [];
    var code := CodeOf(p, f);
    for k := 0 to |code|
      invariant forall i | i in code[..k] :: p.Has(i) && ScanInst(p, t, f, i) != Hit
      invariant forall g :: g in next <==>
                  exists i | i in code[..k] :: p.Has(i) && ScanInst(p, t, f, i) == Follow(g)
      invariant forall g | g in next :: g < |p.funcs|
    {
      var i := code[k];
      CodeExists(p, f, i);
      PrefixGrows(code, k);
      match ScanInst(p, t, f, i) {
        case Hit =>
          hit := true;
          return;
        case Follow(g) =>
          next := next + [g];
        case Pass =>
      }
    }
    PrefixIsAll(code);
  }

  ghost predicate Quiet(p: Program, t: Tables, done: set<Func>)
  {
    forall g | g in done :: !ScansTo(p, t, g, Hit)
  }

  lemma NoneMayReturn(p: Program, t: Tables, f: Func, done: set<Func>)
    requires Search(CallsFollowed(p, t), UpTo(|p.funcs|), f, done, []) && Quiet(p, t, done)
    ensures !MayReturn(p, t, f)
  {
    SearchEnd(CallsFollowed(p, t), UpTo(|p.funcs|), f, done);
  }

  method MayReturnErr(p: Program, t: Tables, f: Func) returns (r: bool)
    requires t.Valid(p) && f < |p.funcs|
    ensures r <==> MayReturn(p, t, f)
  {
    var done: set<Func> := {};
    var todo: seq<Func> := [f];
    SearchStart(CallsFollowed(p, t), UpTo(|p.funcs|), f);
    while todo != []
      invariant Search(CallsFollowed(p, t), UpTo(|p.funcs|), f, done, todo)
      invariant Quiet(p, t, done)
      decreases UpTo(|p.funcs|) - done, |todo|
    {
      var tf := todo[0];
      SearchFinds(CallsFollowed(p, t), UpTo(|p.funcs|), f, done, todo);
      if tf in done {
        todo := todo[1..];
        continue;
      }
      var hit, next := ScanFunction(p, t, tf);
      if hit {
        return true;
      }
      SearchStep(CallsFollowed(p, t), UpTo(|p.funcs|), f, done, todo, next);
      done := done + {tf};
      todo := todo[1..] + next;
    }
    NoneMayReturn(p, t, f, done);
    return false;
  }

  // ---------- variables with the same origin ----------

  ghost function LoadsFrom(p: Program, ptr: Value): set<Value>
  {
    if p.Has(ptr) then set l | l in p.users[ptr] && p.Has(l) && p.nodes[l].Load? else {}
  }

  /** The loads that may read what user s stores of v. */
  ghost function LoadsVia(p: Program, v: Value, s: Value): set<Value>
  {
    if p.Has(s) && p.nodes[s].Store? && p.nodes[s].val == v then LoadsFrom(p, p.nodes[s].ptr) else {}
  }

  /** From a value to the loads of the pointers it is stored to. */
  ghost function StoredLoads(p: Program): Graph
  {
    (v: Value) => if p.Has(v) then set s, l | s in p.users[v] && l in LoadsVia(p, v, s) :: l else {}
  }

  method LoadsOf(p: Program, ptr: Value) returns (loads: seq<Value>)
    requires p.Has(ptr)
    ensures Items(loads) == LoadsFrom(p, ptr)
  {
    loads := [];
    var us := p.users[ptr];
    for i := 0 to |us|
      invariant forall l :: l in loads <==> l in us[..i] && p.Has(l) && p.nodes[l].Load?
    {
      PrefixGrows(us, i);
      UsersExist(p, ptr, us[i]);
      if p.nodes[us[i]].Load? {
        loads := loads + [us[i]];
      }
    }
    PrefixIsAll(us);
  }

  method LoadsOfStores(p: Program, v: Value) returns (next: seq<Value>)
    requires p.Has(v)
    ensures Items(next) == StoredLoads(p)(v)
    ensures Items(next) <= UpTo(|p.nodes|)
  {
    next := [];
    var us := p.users[v];
    for i := 0 to |us|
      invariant forall l :: l in next <==> exists s | s in us[..i] :: l in LoadsVia(p, v, s)
    {
      PrefixGrows(us, i);
      var s := us[i];
      UsersExist(p, v, s);
      var loads := [];
      if p.nodes[s].Store? && p.nodes[s].val == v {
        OperandsExist(p, s, p.nodes[s].Operands()[1]);
        loads := LoadsOf(p, p.nodes[s].ptr);
      }
      assert forall l :: l in LoadsVia(p, v, s) <==> l in Items(loads);
      assert forall l :: l in next + loads <==> l in next || l in Items(loads);
      next := next + loads;
    }
    PrefixIsAll(us);
  }

  method FindSameVariablesFrom(p: Program, v: Value) returns (same: set<Value>)
    requires p.Has(v)
    ensures forall x :: x in same <==> Reaches(StoredLoads(p), v, x)
  {
    ghost var g, u := StoredLoads(p), UpTo(|p.nodes|);
    same := {v};
    var done: set<Value> := {};
    var todo: seq<Value> := [v];
    SearchStart(g, u, v);
    while todo != []
      invariant Search(g, u, v, done, todo)
      invariant same == done + Items(todo)
      decreases u - done, |todo|
    {
      var tv := todo[0];
      ItemsPop(todo, []);
      SearchFinds(g, u, v, done, todo);
      if tv in done {
        todo := todo[1..];
        continue;
      }
      var next := LoadsOfStores(p, tv);
      SearchStep(g, u, v, done, todo, next);
      ItemsPop(todo, next);
      same := same + (set x | x in next);
      done := done + {tv};
      todo := todo[1..] + next;
    }
    assert Items(todo) == {};
    SearchEnd(g, u, v, done);
  }
}
