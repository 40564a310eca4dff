/** Callers and callees of every call. */
module CallGraph {
  import opened Graphs
  import opened Ir
  import opened CallTargets

  type Call = nat

  datatype Callee =
    | Direct(f: Func)
    | InlineAsm
    | Indirect(signature: Hash, called: Pointer)

  /** A function as the linker sees it; an empty function is a declaration. */
  datatype Symbol = Symbol(
    name: string, hash: Hash, signature: Hash, empty: bool, external: bool, addressTaken: bool, calls: seq<Call>)

  datatype ModulesData = Modules(symbols: seq<Symbol>, calls: seq<Callee>, modules: seq<seq<Func>>)
  {
    ghost predicate Valid() {
      && (forall f, i | 0 <= f < |symbols| && 0 <= i < |symbols[f].calls| :: symbols[f].calls[i] < |calls|)
      && (forall c | 0 <= c < |calls| && calls[c].Direct? :: calls[c].f < |symbols|)
      && (forall m, i | 0 <= m < |modules| && 0 <= i < |modules[m]| :: modules[m][i] < |symbols|)
    }

    ghost predicate HasAll(fs: seq<Func>) {
      forall f | f in fs :: f < |symbols|
    }
  }

  type Modules = p: ModulesData | p.Valid() witness Modules([], [], [])

  function Find<K, V>(m: map<K, V>, k: K): Option<V> {
    if k in m then Some(m[k]) else None
  }

  /** System calls go by one name. */
  function LinkName(name: string): string {
    if "SyS_" <= name then "sys_" + name[4..] else name
  }

  // ---------- what the tables index ----------

  predicate Defined(p: Modules, f: Func) {
    f < |p.symbols| && !p.symbols[f].empty
  }

  predicate HasHash(p: Modules, f: Func, h: Hash) {
    Defined(p, f) && p.symbols[f].hash == h
  }

  predicate Exports(p: Modules, f: Func, name: string) {
    Defined(p, f) && p.symbols[f].external && LinkName(p.symbols[f].name) == name
  }

  predicate Callable(p: Modules, f: Func, signature: Hash) {
    Defined(p, f) && p.symbols[f].addressTaken && p.symbols[f].signature == signature
  }

  /** The first definition with a hash stands for all of them. */
  function Representative(p: Modules, fs: seq<Func>, h: Hash): Option<Func> {
    if fs == [] then None
    else
      var r := Representative(p, fs[..|fs| - 1], h);
      if r.None? && HasHash(p, fs[|fs| - 1], h) then Some(fs[|fs| - 1]) else r
  }

  /** The last external definition of a name is the one that is linked. */
  function Linked(p: Modules, fs: seq<Func>, name: string): (r: Option<Func>)
    ensures r.Some? ==> r.value in fs && Exports(p, r.value, name)
  {
    if fs == [] then None
    else if Exports(p, fs[|fs| - 1], name) then Some(fs[|fs| - 1])
    else Linked(p, fs[..|fs| - 1], name)
  }

  ghost predicate HashesIndexed(p: Modules, fs: seq<Func>, unified: map<Hash, Func>, representatives: set<Func>) {
    && (forall h :: Find(unified, h) == Representative(p, fs, h))
    && (forall f: Func :: f in representatives <==> Defined(p, f) && Find(unified, p.symbols[f].hash) == Some(f))
  }

  ghost predicate NamesIndexed(p: Modules, fs: seq<Func>, names: map<string, Func>) {
    forall n :: Find(names, n) == Linked(p, fs, n)
  }

  ghost predicate SignaturesIndexed(p: Modules, fs: seq<Func>, sigFuncs: map<Hash, set<Func>>) {
    forall s: Hash, f: Func :: f in SetAt(sigFuncs, s) <==> f in fs && Callable(p, f, s)
  }

  lemma {:induction false} RepresentativeIsFirst(p: Modules, fs: seq<Func>, h: Hash, f: Func)
    ensures Representative(p, fs, h) == Some(f) <==>
              exists i | 0 <= i < |fs| ::
                fs[i] == f && HasHash(p, f, h) && forall j | 0 <= j < i :: !HasHash(p, fs[j], h)
    ensures Representative(p, fs, h) == None <==> forall g | g in fs :: !HasHash(p, g, h)
  {
    if fs != [] {
      var n := |fs| - 1;
      RepresentativeIsFirst(p, fs[..n], h, f);
      assert fs[n] in fs && forall g :: g in fs <==> g in fs[..n] || g == fs[n];
      assert forall j | 0 <= j < n :: fs[..n][j] == fs[j];
      if Representative(p, fs[..n], h).Some? {
        RepresentativeIsFirst(p, fs[..n], h, Representative(p, fs[..n], h).value);
      }
    }
  }

  lemma {:induction false} LinkedIsLast(p: Modules, fs: seq<Func>, name: string, f: Func)
    ensures Linked(p, fs, name) == Some(f) <==>
              exists i | 0 <= i < |fs| ::
                fs[i] == f && Exports(p, f, name) && forall j | i < j < |fs| :: !Exports(p, fs[j], name)
    ensures Linked(p, fs, name) == None <==> forall g | g in fs :: !Exports(p, g, name)
  {
    if fs != [] {
      var n := |fs| - 1;
      LinkedIsLast(p, fs[..n], name, f);
      assert fs[n] in fs && forall g :: g in fs <==> g in fs[..n] || g == fs[n];
      assert forall j | 0 <= j < n :: fs[..n][j] == fs[j];
    }
  }

  // ---------- building the tables ----------

  /** The tables after a list of functions has been initialised. */
  ghost predicate Indexed(p: Modules, fs: seq<Func>, names: map<string, Func>, sigFuncs: map<Hash, set<Func>>,
                          unified: map<Hash, Func>, representatives: set<Func>)
  {
    && NamesIndexed(p, fs, names)
    && SignaturesIndexed(p, fs, sigFuncs)
    && HashesIndexed(p, fs, unified, representatives)
  }

  ghost predicate AddressesTaken(p: Modules, fs: seq<Func>, taken: set<Func>) {
    forall f: Func :: f in taken <==> f in fs && Defined(p, f) && p.symbols[f].addressTaken
  }

  function Insert(m: map<Hash, set<Func>>, k: Hash, f: Func): map<Hash, set<Func>> {
    m[k := SetAt(m, k) + {f}]
  }

  lemma InsertTwice(m: map<Hash, set<Func>>, k: Hash, f: Func)
    ensures Insert(Insert(m, k, f), k, f) == Insert(m, k, f)
  {
  }

  lemma SignaturesIndexOneMore(p: Modules, fs: seq<Func>, sigFuncs: map<Hash, set<Func>>, taken: set<Func>, f: Func)
    requires SignaturesIndexed(p, fs, sigFuncs) && AddressesTaken(p, fs, taken) && Defined(p, f)
    ensures var s := p.symbols[f];
            if s.addressTaken then
              && SignaturesIndexed(p, fs + [f], Insert(sigFuncs, s.signature, f))
              && AddressesTaken(p, fs + [f], taken + {f})
            else
              SignaturesIndexed(p, fs + [f], sigFuncs) && AddressesTaken(p, fs + [f], taken)
  {
    var more := if p.symbols[f].addressTaken then Insert(sigFuncs, p.symbols[f].signature, f) else sigFuncs;
    forall s: Hash, g: Func
      ensures g in SetAt(more, s) <==> g in fs + [f] && Callable(p, g, s)
    {
      assert g in SetAt(sigFuncs, s) <==> g in fs && Callable(p, g, s);
    }
  }

  lemma OneMore(p: Modules, fs: seq<Func>, f: Func, name: string, h: Hash)
    ensures Linked(p, fs + [f], name) == if Exports(p, f, name) then Some(f) else Linked(p, fs, name)
    ensures Representative(p, fs + [f], h) ==
            if Representative(p, fs, h).None? && HasHash(p, f, h) then Some(f) else Representative(p, fs, h)
  {
    assert (fs + [f])[..|fs|] == fs;
  }

  lemma NamesIndexOneMore(p: Modules, fs: seq<Func>, names: map<string, Func>, f: Func)
    requires NamesIndexed(p, fs, names) && f < |p.symbols|
    ensures var n := LinkName(p.symbols[f].name);
            NamesIndexed(p, fs + [f], if Exports(p, f, n) then names[n := f] else names)
  {
    forall m {
      OneMore(p, fs, f, m, 0);
    }
  }

  lemma HashesIndexOneMore(p: Modules, fs: seq<Func>, unified: map<Hash, Func>, representatives: set<Func>, f: Func)
    requires HashesIndexed(p, fs, unified, representatives) && Defined(p, f)
    ensures var h := p.symbols[f].hash;
            if h in unified then HashesIndexed(p, fs + [f], unified, representatives)
            else HashesIndexed(p, fs + [f], unified[h := f], representatives + {f})
  {
    var h := p.symbols[f].hash;
    assert Find(unified, h) == Representative(p, fs, h);
    forall k {
      OneMore(p, fs, f, "", k);
    }
    if h !in unified {
      var u, r := unified[h := f], representatives + {f};
      forall g: Func
        ensures g in r <==> Defined(p, g) && Find(u, p.symbols[g].hash) == Some(g)
      {
        if g in representatives {
          assert Find(unified, p.symbols[g].hash) == Some(g);
        }
      }
    }
  }

  lemma DeclarationIsSkipped(p: Modules, fs: seq<Func>, names: map<string, Func>, sigFuncs: map<Hash, set<Func>>,
                             unified: map<Hash, Func>, representatives: set<Func>, f: Func)
    requires Indexed(p, fs, names, sigFuncs, unified, representatives) && !Defined(p, f)
    ensures Indexed(p, fs + [f], names, sigFuncs, unified, representatives)
  {
    forall m, k {
      OneMore(p, fs, f, m, k);
    }
  }

  // ---------- what a call may reach ----------

  /** A called declaration is replaced by the linked definition of its name, when there is one. */
  function Resolve(p: Modules, fs: seq<Func>, f: Func): (r: Func)
    requires f < |p.symbols|
    ensures r < |p.symbols|
  {
    var linked := Linked(p, fs, LinkName(p.symbols[f].name));
    if p.symbols[f].empty && linked.Some? then linked.value else f
  }

  ghost function Candidates(p: Modules, fs: seq<Func>, signature: Hash): set<Func> {
    set f | f in fs && Callable(p, f, signature)
  }

  ghost function Targets(p: Modules, t: TypeTables, fs: seq<Func>, c: Call): set<Func>
    requires c < |p.calls|
  {
    match p.calls[c]
    case InlineAsm => {}
    case Direct(f) =>
      var r := Representative(p, fs, p.symbols[Resolve(p, fs, f)].hash);
      if r.Some? then {r.value} else {}
    case Indirect(signature, called) =>
      NarrowAll(Candidates(p, fs, signature), Consulted(t, called))
  }

  ghost function TargetsIn(p: Modules, t: TypeTables, fs: seq<Func>): Call -> set<Func> {
    (c: Call) => if c < |p.calls| then Targets(p, t, fs, c) else {}
  }

  /** A direct call has at most one callee, the first definition with the hash of the resolved function. */
  lemma DirectCallee(p: Modules, t: TypeTables, fs: seq<Func>, c: Call, g: Func)
    requires c < |p.calls| && p.calls[c].Direct?
    ensures |Targets(p, t, fs, c)| <= 1
    ensures g in Targets(p, t, fs, c) ==>
              && HasHash(p, g, p.symbols[Resolve(p, fs, p.calls[c].f)].hash)
              && Representative(p, fs, p.symbols[g].hash) == Some(g)
    ensures Targets(p, t, fs, c) == {} <==>
              forall d | d in fs :: !HasHash(p, d, p.symbols[Resolve(p, fs, p.calls[c].f)].hash)
  {
    RepresentativeIsFirst(p, fs, p.symbols[Resolve(p, fs, p.calls[c].f)].hash, g);
  }

  /** System calls go by "sys_" names; every other name stays. */
  lemma SyscallNames(rest: string, name: string)
    ensures LinkName("SyS_" + rest) == "sys_" + rest
    ensures (forall r :: name != "SyS_" + r) ==> LinkName(name) == name
  {
    assert ("SyS_" + rest)[4..] == rest;
    if "SyS_" <= name {
      assert name == "SyS_" + name[4..];
    }
  }

  /** An external definition that is linked under the name. */
  predicate Offers(p: Modules, d: Func, name: string) {
    d < |p.symbols| && !p.symbols[d].empty && p.symbols[d].external && LinkName(p.symbols[d].name) == name
  }

  /**
    A direct call of f is linked to a defined f itself, else to the last external definition of its name,
    else to f.
  */
  ghost predicate LinkedTo(p: Modules, fs: seq<Func>, f: Func, r: Func)
    requires f < |p.symbols|
  {
    var name := LinkName(p.symbols[f].name);
    if !p.symbols[f].empty || (forall d | d in fs :: !Offers(p, d, name)) then r == f
    else
      exists i | 0 <= i < |fs| ::
        fs[i] == r && Offers(p, r, name) && forall j | i < j < |fs| :: !Offers(p, fs[j], name)
  }

  predicate Hashed(p: Modules, d: Func, h: Hash) {
    d < |p.symbols| && !p.symbols[d].empty && p.symbols[d].hash == h
  }

  /** The first definition in the list with the hash. */
  ghost predicate FirstWith(p: Modules, fs: seq<Func>, h: Hash, g: Func) {
    exists i | 0 <= i < |fs| :: fs[i] == g && Hashed(p, g, h) && forall j | 0 <= j < i :: !Hashed(p, fs[j], h)
  }

  /** A direct call is a call of the first definition with the hash of the function it is linked to. */
  lemma DirectCallMeans(p: Modules, t: TypeTables, fs: seq<Func>, c: Call, g: Func)
    requires c < |p.calls| && p.calls[c].Direct?
    ensures g in Targets(p, t, fs, c) <==>
            exists r: Func ::
              LinkedTo(p, fs, p.calls[c].f, r) && r < |p.symbols| && FirstWith(p, fs, p.symbols[r].hash, g)
  {
    var f := p.calls[c].f;
    var r := Resolve(p, fs, f);
    forall q: Func ensures LinkedTo(p, fs, f, q) <==> q == r {
      LinkedIsLast(p, fs, LinkName(p.symbols[f].name), q);
      LinkedIsLast(p, fs, LinkName(p.symbols[f].name), r);
    }
    RepresentativeIsFirst(p, fs, p.symbols[r].hash, g);
  }

  predicate IsDirect(p: Modules, c: Call) {
    c < |p.calls| && p.calls[c].Direct?
  }

  predicate SameHash(p: Modules, f: Func, g: Func) {
    f < |p.symbols| && g < |p.symbols| && p.symbols[f].hash == p.symbols[g].hash
  }

  /** A direct call to a declaration that some module defines and exports never misses. */
  lemma LinkedCallHasCallee(p: Modules, t: TypeTables, fs: seq<Func>, c: Call, d: Func)
    requires c < |p.calls| && p.calls[c].Direct?
    requires d in fs && Exports(p, d, LinkName(p.symbols[p.calls[c].f].name)) && p.symbols[p.calls[c].f].empty
    ensures |Targets(p, t, fs, c)| == 1
  {
    var f := p.calls[c].f;
    var n := LinkName(p.symbols[f].name);
    LinkedIsLast(p, fs, n, d);
    var g := Resolve(p, fs, f);
    assert g in fs && HasHash(p, g, p.symbols[g].hash);
    DirectCallee(p, t, fs, c, g);
  }

  /** The function is defined in the list, its address is taken, and it has the signature. */
  predicate TakenAs(p: Modules, fs: seq<Func>, signature: Hash, f: Func) {
    f in fs && f < |p.symbols| && var s := p.symbols[f]; !s.empty && s.addressTaken && s.signature == signature
  }

  /** An indirect call keeps some function of its signature whenever there is one, and only such functions. */
  lemma IndirectCallees(p: Modules, t: TypeTables, fs: seq<Func>, c: Call)
    requires c < |p.calls| && p.calls[c].Indirect?
    ensures forall f | f in Targets(p, t, fs, c) :: TakenAs(p, fs, p.calls[c].signature, f)
    ensures Targets(p, t, fs, c) == {} <==> forall f :: !TakenAs(p, fs, p.calls[c].signature, f)
    ensures forall f | TakenAs(p, fs, p.calls[c].signature, f)
                       && (forall s | s in Consulted(t, p.calls[c].called) :: f in s) :: f in Targets(p, t, fs, c)
  {
    var fs0, sets := Candidates(p, fs, p.calls[c].signature), Consulted(t, p.calls[c].called);
    NarrowedSubset(fs0, sets);
    assert forall f :: f in fs0 <==> TakenAs(p, fs, p.calls[c].signature, f);
    forall f | f in fs0 && (forall s | s in sets :: f in s)
      ensures f in NarrowAll(fs0, sets)
    {
      CandidateIsKept(fs0, sets, f);
    }
  }

  // ---------- the two indexes ----------

  predicate Represents(p: Modules, fs: seq<Func>, f: Func) {
    Defined(p, f) && Representative(p, fs, p.symbols[f].hash) == Some(f)
  }

  /** The calls of the representatives among the visited functions, in order. */
  function CallsOf(p: Modules, fs: seq<Func>, visited: seq<Func>): (cs: seq<Call>)
    ensures forall c | c in cs :: c < |p.calls|
  {
    if visited == [] then []
    else
      var n := |visited| - 1;
      CallsOf(p, fs, visited[..n]) + if Represents(p, fs, visited[n]) then p.symbols[visited[n]].calls else []
  }

  lemma CallsOfOneMore(p: Modules, fs: seq<Func>, visited: seq<Func>, f: Func)
    ensures CallsOf(p, fs, visited + [f]) ==
            if Represents(p, fs, f) then CallsOf(p, fs, visited) + p.symbols[f].calls else CallsOf(p, fs, visited)
  {
    assert (visited + [f])[..|visited|] == visited;
  }

  lemma SkipsOthers(p: Modules, fs: seq<Func>, visited: seq<Func>, f: Func, unified: map<Hash, Func>,
                    representatives: set<Func>)
    requires HashesIndexed(p, fs, unified, representatives) && f !in representatives
    ensures CallsOf(p, fs, visited + [f]) == CallsOf(p, fs, visited)
  {
    CallsOfOneMore(p, fs, visited, f);
  }

  predicate IsIndirect(p: Modules, c: Call) {
    c < |p.calls| && p.calls[c].Indirect?
  }

  function IndirectOf(p: Modules, cs: seq<Call>): seq<Call> {
    if cs == [] then []
    else IndirectOf(p, cs[..|cs| - 1]) + if IsIndirect(p, cs[|cs| - 1]) then [cs[|cs| - 1]] else []
  }

  /** Function f is defined and calls c, and no function before it in the list is a definition with its hash. */
  ghost predicate CallsAsFirst(p: Modules, fs: seq<Func>, f: Func, c: Call) {
    f < |p.symbols| && c in p.symbols[f].calls && FirstWith(p, fs, p.symbols[f].hash, f)
  }

  /** The linked calls are those of visited functions that come first with their hash. */
  lemma {:induction false} LinkedCallsAre(p: Modules, fs: seq<Func>, visited: seq<Func>, c: Call)
    ensures c in CallsOf(p, fs, visited) <==> exists f: Func :: f in visited && CallsAsFirst(p, fs, f, c)
    decreases |visited|
  {
    if visited != [] {
      var rest, f := visited[..|visited| - 1], visited[|visited| - 1];
      assert visited == rest + [f];
      LinkedCallsAre(p, fs, rest, c);
      CallsOfOneMore(p, fs, rest, f);
      FirstRepresents(p, fs, f);
      if CallsAsFirst(p, fs, f, c) {
        assert f in visited;
      }
      if g: Func :| g in rest && CallsAsFirst(p, fs, g, c) {
        assert g in visited;
      }
      assert c in CallsOf(p, fs, visited) <==> c in CallsOf(p, fs, rest) || CallsAsFirst(p, fs, f, c);
    }
  }

  lemma FirstRepresents(p: Modules, fs: seq<Func>, f: Func)
    ensures Represents(p, fs, f) <==> f < |p.symbols| && FirstWith(p, fs, p.symbols[f].hash, f)
  {
    if f < |p.symbols| {
      RepresentativeIsFirst(p, fs, p.symbols[f].hash, f);
      assert forall g: Func, h: Hash :: HasHash(p, g, h) <==> Hashed(p, g, h);
    }
  }

  lemma {:induction false} IndirectCallsAre(p: Modules, cs: seq<Call>, c: Call)
    ensures c in IndirectOf(p, cs) <==> c in cs && c < |p.calls| && p.calls[c].Indirect?
    decreases |cs|
  {
    if cs != [] {
      assert cs == cs[..|cs| - 1] + [cs[|cs| - 1]];
      IndirectCallsAre(p, cs[..|cs| - 1], c);
    }
  }

  ghost predicate Inverse(callers: map<Func, set<Call>>, callees: map<Call, set<Func>>) {
    forall f: Func, c: Call :: c in SetAt(callers, f) <==> f in SetAt(callees, c)
  }

  /** Callees lists exactly the targets of the visited calls, and callers is its inverse. */
  ghost predicate Links(p: Modules, targets: Call -> set<Func>, done: seq<Call>, callers: map<Func, set<Call>>,
                        callees: map<Call, set<Func>>, indirect: seq<Call>)
  {
    && callees.Keys == Items(done)
    && (forall c | c in callees :: callees[c] == targets(c))
    && Inverse(callers, callees)
    && indirect == IndirectOf(p, done)
  }

  lemma InverseOneMore(callers: map<Func, set<Call>>, callees: map<Call, set<Func>>, callers': map<Func, set<Call>>,
                       c: Call, found: set<Func>)
    requires Inverse(callers, callees) && (c in callees ==> callees[c] == found)
    requires forall f: Func, d: Call :: d in SetAt(callers', f) <==> d in SetAt(callers, f) || (d == c && f in found)
    ensures Inverse(callers', callees[c := found])
  {
    forall f: Func, d: Call
      ensures d in SetAt(callers', f) <==> f in SetAt(callees[c := found], d)
    {
      assert d in SetAt(callers, f) <==> f in SetAt(callees, d);
    }
  }

  /** Visiting a call again changes nothing but the list of indirect calls. */
  lemma LinksOneMore(p: Modules, targets: Call -> set<Func>, done: seq<Call>, c: Call,
                     callers: map<Func, set<Call>>, callees: map<Call, set<Func>>, indirect: seq<Call>,
                     callers': map<Func, set<Call>>)
    requires Links(p, targets, done, callers, callees, indirect)
    requires Inverse(callers', callees[c := targets(c)])
    ensures Links(p, targets, done + [c], callers', callees[c := targets(c)],
                  indirect + if IsIndirect(p, c) then [c] else [])
  {
    assert (done + [c])[..|done|] == done;
    assert Items(done + [c]) == Items(done) + {c};
  }

  lemma DirectCalleesRepresent(p: Modules, t: TypeTables, fs: seq<Func>, callees: map<Call, set<Func>>,
                               unified: map<Hash, Func>, representatives: set<Func>, done: seq<Call>,
                               callers: map<Func, set<Call>>, indirect: seq<Call>)
    requires Links(p, TargetsIn(p, t, fs), done, callers, callees, indirect)
    requires HashesIndexed(p, fs, unified, representatives)
    ensures forall c | c in callees && IsDirect(p, c) :: |callees[c]| <= 1 && callees[c] <= representatives
  {
    forall c | c in callees && IsDirect(p, c)
      ensures |callees[c]| <= 1 && callees[c] <= representatives
    {
      forall g: Func {
        DirectCallee(p, t, fs, c, g);
      }
    }
  }

  /** The callees of a call, looked up in the tables of the first phase. */
  method FindCallees(p: Modules, t: TypeTables, names: map<string, Func>, sigFuncs: map<Hash, set<Func>>,
                     unified: map<Hash, Func>, ghost representatives: set<Func>, c: Call, ghost fs: seq<Func>)
    returns (found: set<Func>)
    requires c < |p.calls| && Indexed(p, fs, names, sigFuncs, unified, representatives)
    ensures found == Targets(p, t, fs, c)
  {
    found := {};
    match p.calls[c]
    case InlineAsm =>
    case Direct(f) =>
      var cf := f;
      if p.symbols[cf].empty {
        var gf := Find(names, LinkName(p.symbols[cf].name));
        if gf.Some? {
          cf := gf.value;
        }
      }
      assert cf == Resolve(p, fs, f);
      var rep := Find(unified, p.symbols[cf].hash);
      if rep.Some? {
        found := {rep.value};
      }
    case Indirect(signature, called) =>
      assert SetAt(sigFuncs, signature) == Candidates(p, fs, signature);
      var ok;
      ok, found := FindCalleesWithMLTA(t, sigFuncs, signature, called);
      NarrowedSubset({}, Consulted(t, called));
  }

  // ---------- the pass ----------

  class CallGraphPass {
    const p: Modules
    const t: TypeTables
    var globalFuncs: map<string, Func>
    var addressTakenFuncs: set<Func>
    var sigFuncs: map<Hash, set<Func>>
    var unifiedFuncs: map<Hash, Func>
    var unifiedFuncSet: set<Func>
    var callers: map<Func, set<Call>>
    var callees: map<Call, set<Func>>
    var indirectCalls: seq<Call>

    constructor (p: Modules, t: TypeTables)
      ensures this.p == p && this.t == t
      ensures Indexes([]) && Linking([], [])
    {
      this.p, this.t := p, t;
      globalFuncs, addressTakenFuncs, sigFuncs, unifiedFuncs, unifiedFuncSet := map[], {}, map[], map[], {};
      callers, callees, indirectCalls := map[], map[], [];
    }

    /** The tables of the first phase cover exactly the functions in fs. */
    ghost predicate Indexes(fs: seq<Func>)
      reads this
    {
      && Indexed(p, fs, globalFuncs, sigFuncs, unifiedFuncs, unifiedFuncSet)
      && AddressesTaken(p, fs, addressTakenFuncs)
    }

    /** Exactly the given calls are linked. */
    ghost predicate LinkedCalls(fs: seq<Func>, done: seq<Call>)
      reads this
    {
      Links(p, TargetsIn(p, t, fs), done, callers, callees, indirectCalls)
    }

    ghost predicate Linking(fs: seq<Func>, visited: seq<Func>)
      reads this
    {
      LinkedCalls(fs, CallsOf(p, fs, visited))
    }

    /** Indexes one function that has a body. */
    method IndexFunction(f: Func, ghost done: seq<Func>)
      requires Defined(p, f) && Indexes(done)
      modifies `globalFuncs, `addressTakenFuncs, `sigFuncs, `unifiedFuncs, `unifiedFuncSet
      ensures Indexes(done + [f])
    {
      var s := p.symbols[f];
      SignaturesIndexOneMore(p, done, sigFuncs, addressTakenFuncs, f);
      if s.addressTaken {
        addressTakenFuncs := addressTakenFuncs + {f};
        sigFuncs := Insert(sigFuncs, s.signature, f);
      }
      NamesIndexOneMore(p, done, globalFuncs, f);
      if s.external && !s.empty {
        globalFuncs := globalFuncs[LinkName(s.name) := f];
      }
      HashesIndexOneMore(p, done, unifiedFuncs, unifiedFuncSet, f);
      if s.hash !in unifiedFuncs {
        unifiedFuncs := unifiedFuncs[s.hash := f];
        unifiedFuncSet := unifiedFuncSet + {f};
        if s.addressTaken {
          InsertTwice(old(sigFuncs), s.signature, f);
          sigFuncs := Insert(sigFuncs, s.signature, f);
        }
      }
    }

    method DoInitialization(m: seq<Func>, ghost done: seq<Func>) returns (again: bool)
      requires Indexes(done) && p.HasAll(m)
      modifies `globalFuncs, `addressTakenFuncs, `sigFuncs, `unifiedFuncs, `unifiedFuncSet
      ensures Indexes(done + m) && !again
    {
      assert done + m[..0] == done;
      for i := 0 to |m|
        invariant Indexes(done + m[..i])
      {
        assert done + m[..i + 1] == done + m[..i] + [m[i]];
        assert m[i] in m;
        if p.symbols[m[i]].empty {
          DeclarationIsSkipped(p, done + m[..i], globalFuncs, sigFuncs, unifiedFuncs, unifiedFuncSet, m[i]);
          continue;
        }
        IndexFunction(m[i], done + m[..i]);
      }
      PrefixIsAll(m);
      return false;
    }

    method AddCaller(c: Call, found: set<Func>)
      modifies `callers
      ensures forall f: Func, d: Call :: d in SetAt(callers, f) <==>
                d in SetAt(old(callers), f) || (d == c && f in found)
    {
      var rest := found;
      while rest != {}
        invariant rest <= found
        invariant forall f: Func, d: Call :: d in SetAt(callers, f) <==>
                    d in SetAt(old(callers), f) || (d == c && f in found && f !in rest)
      {
        var f :| f in rest;
        rest := rest - {f};
        callers := callers[f := SetAt(callers, f) + {c}];
      }
    }

    method VisitCall(c: Call, ghost fs: seq<Func>, ghost done: seq<Call>)
      requires c < |p.calls| && Indexes(fs)
      requires LinkedCalls(fs, done)
      modifies `callers, `callees, `indirectCalls
      ensures LinkedCalls(fs, done + [c])
    {
      var found := FindCallees(p, t, globalFuncs, sigFuncs, unifiedFuncs, unifiedFuncSet, c, fs);
      AddCaller(c, found);
      InverseOneMore(old(callers), callees, callers, c, found);
      LinksOneMore(p, TargetsIn(p, t, fs), done, c, old(callers), callees, indirectCalls, callers);
      if p.calls[c].Indirect? {
        indirectCalls := indirectCalls + [c];
      }
      callees := callees[c := found];
    }

    /** Visits the calls of a representative. */
    method VisitFunction(f: Func, ghost fs: seq<Func>, ghost before: seq<Func>)
      requires Indexes(fs) && f in unifiedFuncSet && Linking(fs, before)
      modifies `callers, `callees, `indirectCalls
      ensures Linking(fs, before + [f])
    {
      var cs := p.symbols[f].calls;
      ghost var done := CallsOf(p, fs, before);
      CallsOfOneMore(p, fs, before, f);
      assert done + cs[..0] == done;
      for j := 0 to |cs|
        invariant LinkedCalls(fs, done + cs[..j])
      {
        assert done + cs[..j + 1] == done + cs[..j] + [cs[j]];
        VisitCall(cs[j], fs, done + cs[..j]);
      }
      PrefixIsAll(cs);
    }

    /** Functions that are represented by another one are left out. */
    method VisitUnlessRepresented(f: Func, ghost fs: seq<Func>, ghost before: seq<Func>)
      requires Indexes(fs) && Linking(fs, before)
      modifies `callers, `callees, `indirectCalls
      ensures Linking(fs, before + [f])
    {
      if f !in unifiedFuncSet {
        SkipsOthers(p, fs, before, f, unifiedFuncs, unifiedFuncSet);
        return;
      }
      VisitFunction(f, fs, before);
    }

    method DoModulePass(m: seq<Func>, ghost fs: seq<Func>, ghost visited: seq<Func>) returns (changed: bool)
      requires Indexes(fs) && p.HasAll(m) && Linking(fs, visited)
      modifies `callers, `callees, `indirectCalls
      ensures Linking(fs, visited + m) && !changed
    {
      assert visited + m[..0] == visited;
      for i := 0 to |m|
        invariant Linking(fs, visited + m[..i])
      {
        assert visited + m[..i + 1] == visited + m[..i] + [m[i]];
        VisitUnlessRepresented(m[i], fs, visited + m[..i]);
      }
      PrefixIsAll(m);
      return false;
    }

    /** One round of initialisation and one sweep: afterwards each index is the inverse of the other. */
    method Run()
      requires Indexes([]) && Linking([], [])
      modifies this
      ensures var fs := Concat(p.modules); Indexes(fs) && Linking(fs, fs)
      ensures Inverse(callers, callees)
      ensures forall c | c in callees && IsDirect(p, c) :: |callees[c]| <= 1 && callees[c] <= unifiedFuncSet
      ensures forall f, g | f in unifiedFuncSet && g in unifiedFuncSet :: SameHash(p, f, g) ==> f == g
    {
      ghost var fs := Concat(p.modules);
      var again := true;
      while again
        invariant Linking(fs, [])
        invariant if again then Indexes([]) else Indexes(fs)
        decreases again
      {
        again := InitializeAll();
      }
      var changed := true;
      while changed
        invariant Indexes(fs) && if changed then Linking(fs, []) else Linking(fs, fs)
        decreases changed
      {
        changed := SweepAll();
      }
      DirectCalleesRepresent(p, t, fs, callees, unifiedFuncs, unifiedFuncSet, CallsOf(p, fs, fs), callers,
                             indirectCalls);
    }

    method InitializeAll() returns (again: bool)
      requires Indexes([])
      modifies `globalFuncs, `addressTakenFuncs, `sigFuncs, `unifiedFuncs, `unifiedFuncSet
      ensures Indexes(Concat(p.modules)) && !again
    {
      again := false;
      for i := 0 to |p.modules|
        invariant Indexes(Concat(p.modules[..i])) && !again
      {
        var more := DoInitialization(p.modules[i], Concat(p.modules[..i]));
        again := again || more;
        ConcatLast(p.modules, i);
      }
      PrefixIsAll(p.modules);
    }

    method SweepAll() returns (changed: bool)
      requires Indexes(Concat(p.modules)) && Linking(Concat(p.modules), [])
      modifies `callers, `callees, `indirectCalls
      ensures Linking(Concat(p.modules), Concat(p.modules)) && !changed
    {
      changed := false;
      ghost var fs := Concat(p.modules);
      for i := 0 to |p.modules|
        invariant Linking(fs, Concat(p.modules[..i])) && !changed
      {
        var ret := DoModulePass(p.modules[i], fs, Concat(p.modules[..i]));
        changed := changed || ret;
        ConcatLast(p.modules, i);
      }
      PrefixIsAll(p.modules);
    }
  }
}
