/** Reading checks off marked edges. */
module SecurityChecks {
  import opened Graphs
  import opened ControlFlow
  import opened Flags
  import opened EdgeFlags
  import opened BlockMarks
  import opened Ir
  import opened ErrorFlow

  // ---------- error-handling blocks ----------

  /** For inline assembly only the text before the first space counts. */
  function FirstWord(name: string): string {
    if name == [] || name[0] == ' ' then [] else [name[0]] + FirstWord(name[1..])
  }

  predicate EndsWith(name: string, suffix: string) {
    |suffix| <= |name| && name[|name| - |suffix|..] == suffix
  }

  /** The name under which an error-handling call is looked up. */
  function HandlerName(t: Tables, call: Value, name: string): string {
    var word := FirstWord(name);
    if EndsWith(word, "printk") then if call in t.sourceName then t.sourceName[call] else "" else word
  }

  predicate CallsHandler(p: Program, t: Tables, i: Value) {
    p.Has(i) && p.nodes[i].Call? && HandlerName(t, i, p.nodes[i].name) in t.errorHandlers
  }

  ghost predicate Handling(p: Program, t: Tables, b: Block) {
    b < |p.body| && exists i | i in p.body[b] :: CallsHandler(p, t, i)
  }

  lemma {:induction false} PlainFirstWord(word: string, rest: string)
    requires ' ' !in word
    ensures FirstWord(word) == word && FirstWord(word + " " + rest) == word
    decreases |word|
  {
    if word != [] {
      assert word == [word[0]] + word[1..];
      PlainFirstWord(word[1..], rest);
      assert (word + " " + rest)[1..] == word[1..] + " " + rest;
    }
  }

  /** The text before the first space, or all of it. */
  ghost predicate IsFirstWord(name: string, word: string) {
    ' ' !in word && (name == word || exists rest :: name == word + " " + rest)
  }

  lemma {:induction false} FirstWordIs(name: string)
    ensures IsFirstWord(name, FirstWord(name))
    decreases |name|
  {
    if name != [] && name[0] == ' ' {
      assert name == [] + " " + name[1..];
    } else if name != [] {
      FirstWordIs(name[1..]);
      var word := FirstWord(name[1..]);
      assert name == [name[0]] + name[1..];
      if rest :| name[1..] == word + " " + rest {
        assert name == FirstWord(name) + " " + rest;
      }
    }
  }

  /** A call of a configured handler: its first word is one, or for a printk the name in the source is. */
  ghost predicate CallsByName(p: Program, t: Tables, i: Value) {
    && p.Has(i) && p.nodes[i].Call?
    && exists word ::
         && IsFirstWord(p.nodes[i].name, word)
         && if |word| >= 6 && word[|word| - 6..] == "printk"
            then (if i in t.sourceName then t.sourceName[i] else "") in t.errorHandlers
            else word in t.errorHandlers
  }

  lemma OneFirstWord(name: string, word: string)
    ensures IsFirstWord(name, word) <==> word == FirstWord(name)
  {
    FirstWordIs(name);
    if IsFirstWord(name, word) {
      PlainFirstWord(word, []);
      if rest :| name == word + " " + rest {
        PlainFirstWord(word, rest);
      }
    }
  }

  lemma ByNameMeans(p: Program, t: Tables, i: Value)
    requires p.Has(i) && p.nodes[i].Call?
    ensures CallsHandler(p, t, i) <==> CallsByName(p, t, i)
  {
    forall word ensures IsFirstWord(p.nodes[i].name, word) <==> word == FirstWord(p.nodes[i].name) {
      OneFirstWord(p.nodes[i].name, word);
    }
  }

  /** A block handles errors exactly when one of its instructions calls a configured handler. */
  lemma HandlingMeans(p: Program, t: Tables, b: Block)
    requires b < |p.body|
    ensures Handling(p, t, b) <==> exists i :: i in p.body[b] && CallsByName(p, t, i)
  {
    forall i | i in p.body[b] ensures CallsHandler(p, t, i) <==> CallsByName(p, t, i) {
      if p.nodes[i].Call? {
        ByNameMeans(p, t, i);
      }
    }
  }

  ghost function HandlerMarks(p: Program, t: Tables, bs: set<Block>): set<Mark> {
    set b | b in bs && Handling(p, t, b) :: Mark(b, MUST_HANDLE_ERR)
  }

  method CheckBlockHandle(p: Program, t: Tables, bb: Block, before: BlockMap) returns (bbErr: BlockMap)
    requires bb < |p.body|
    ensures Absorbed(before, bbErr, HandlerMarks(p, t, {bb}))
  {
    bbErr := before;
    var code := p.body[bb];
    ghost var ms: set<Mark> := {};
    for k := 0 to |code|
      invariant Absorbed(before, bbErr, ms)
      invariant ms == if exists i | i in code[..k] :: CallsHandler(p, t, i) then {Mark(bb, MUST_HANDLE_ERR)} else {}
    {
      PrefixGrows(code, k);
      if CallsHandler(p, t, code[k]) {
        // A second handler in the same block changes nothing
        ghost var b1 := bbErr;
        bbErr := MarkBBErr(bb, MUST_HANDLE_ERR, bbErr);
        AbsorbedTwice(before, b1, bbErr, ms, {Mark(bb, MUST_HANDLE_ERR)});
        ms := ms + {Mark(bb, MUST_HANDLE_ERR)};
      }
    }
    PrefixIsAll(code);
    assert HandlerMarks(p, t, {bb}) == ms;
  }

  method CheckErrHandle(p: Program, t: Tables, blocks: seq<Block>, before: BlockMap) returns (bbErr: BlockMap)
    requires forall b | b in blocks :: b < |p.body|
    ensures Absorbed(before, bbErr, HandlerMarks(p, t, Items(blocks)))
  {
    bbErr := before;
    assert HandlerMarks(p, t, Items(blocks[..0])) == {};
    for k := 0 to |blocks|
      invariant Absorbed(before, bbErr, HandlerMarks(p, t, Items(blocks[..k])))
    {
      PrefixGrows(blocks, k);
      assert blocks[k] in blocks;
      ghost var b1 := bbErr;
      bbErr := CheckBlockHandle(p, t, blocks[k], bbErr);
      AbsorbedTwice(before, b1, bbErr, HandlerMarks(p, t, Items(blocks[..k])), HandlerMarks(p, t, {blocks[k]}));
      assert HandlerMarks(p, t, Items(blocks[..k + 1])) ==
             HandlerMarks(p, t, Items(blocks[..k])) + HandlerMarks(p, t, {blocks[k]});
    }
    PrefixIsAll(blocks);
  }

  // ---------- which instructions are checks ----------

  datatype SecurityCheck = SecurityCheck(cond: Value, branch: Value)

  /** Some way out of the block must return an error, and some other need not. */
  ghost predicate ReturnMixed(p: Program, edges: EdgeMap, bb: Block)
    requires bb < |p.cfg.succs|
  {
    && (exists s | s in p.cfg.succs[bb] :: HasMust(At(edges, Edge(bb, s))))
    && (exists s | s in p.cfg.succs[bb] :: !HasMust(At(edges, Edge(bb, s))))
  }

  /** Some way out of the block must run into a handler, and some other need not. */
  ghost predicate HandleMixed(p: Program, edges: EdgeMap, bb: Block)
    requires bb < |p.cfg.succs|
  {
    && (exists s | s in p.cfg.succs[bb] :: MustHandle(At(edges, Edge(bb, s))))
    && (exists s | s in p.cfg.succs[bb] :: !MustHandle(At(edges, Edge(bb, s))))
  }

  /** The condition of an instruction that is a security check. */
  ghost function CheckCondition(p: Program, edges: EdgeMap, selects: set<Value>, i: Value): Option<Value> {
    if !p.Has(i) then None
    else
      match p.nodes[i]
      case Branch(c) =>
        if |p.cfg.succs[p.parent[i]]| >= 2 && (ReturnMixed(p, edges, p.parent[i]) || HandleMixed(p, edges, p.parent[i]))
        then c else None
      case Switch(c) =>
        if |p.cfg.succs[p.parent[i]]| >= 2 && (ReturnMixed(p, edges, p.parent[i]) || HandleMixed(p, edges, p.parent[i]))
        then Some(c) else None
      case Select(c, _, _) => if i in selects then Some(c) else None
      case _ => None
  }

  /** Instruction number k is the first of the code that checks condition c. */
  ghost predicate FirstCheck(p: Program, edges: EdgeMap, selects: set<Value>, code: seq<Value>, k: nat, c: Value) {
    && k < |code|
    && CheckCondition(p, edges, selects, code[k]) == Some(c)
    && (forall j | 0 <= j < k :: CheckCondition(p, edges, selects, code[j]) != Some(c))
  }

  predicate HasCheck(checks: set<SecurityCheck>, c: Value) {
    exists sc | sc in checks :: sc.cond == c
  }

  /** Exactly one entry for each condition that is checked: its first check. */
  ghost predicate ExactlyChecks(p: Program, edges: EdgeMap, selects: set<Value>, code: seq<Value>,
                                checks: set<SecurityCheck>)
  {
    && (forall sc | sc in checks :: exists k: nat ::
          FirstCheck(p, edges, selects, code, k, sc.cond) && code[k] == sc.branch)
    && (forall k: nat, c: Value | FirstCheck(p, edges, selects, code, k, c) :: SecurityCheck(c, code[k]) in checks)
  }

  lemma OneEntryPerCondition(p: Program, edges: EdgeMap, selects: set<Value>, code: seq<Value>,
                             checks: set<SecurityCheck>, a: SecurityCheck, b: SecurityCheck)
    requires ExactlyChecks(p, edges, selects, code, checks) && a in checks && b in checks && a.cond == b.cond
    ensures a == b
  {
    var j: nat :| FirstCheck(p, edges, selects, code, j, a.cond) && code[j] == a.branch;
    var k: nat :| FirstCheck(p, edges, selects, code, k, b.cond) && code[k] == b.branch;
    assert j == k;
  }

  lemma {:induction false} SomeCheckIsFirst(p: Program, edges: EdgeMap, selects: set<Value>, code: seq<Value>,
                                            k: nat, c: Value)
    requires k < |code| && CheckCondition(p, edges, selects, code[k]) == Some(c)
    ensures exists j: nat :: FirstCheck(p, edges, selects, code, j, c)
    decreases k
  {
    if j: nat :| j < k && CheckCondition(p, edges, selects, code[j]) == Some(c) {
      SomeCheckIsFirst(p, edges, selects, code, j, c);
    } else {
      assert FirstCheck(p, edges, selects, code, k, c);
    }
  }

  /** A condition has an entry if and only if some instruction is a check of it. */
  lemma EntryForEveryCheck(p: Program, edges: EdgeMap, selects: set<Value>, code: seq<Value>,
                           checks: set<SecurityCheck>, c: Value)
    requires ExactlyChecks(p, edges, selects, code, checks)
    ensures HasCheck(checks, c) <==>
            (exists k: nat :: k < |code| && CheckCondition(p, edges, selects, code[k]) == Some(c))
  {
    if k: nat :| k < |code| && CheckCondition(p, edges, selects, code[k]) == Some(c) {
      SomeCheckIsFirst(p, edges, selects, code, k, c);
      var j: nat :| FirstCheck(p, edges, selects, code, j, c);
      assert SecurityCheck(c, code[j]) in checks;
    }
    if sc :| sc in checks && sc.cond == c {
      var j: nat :| FirstCheck(p, edges, selects, code, j, sc.cond) && code[j] == sc.branch;
      assert CheckCondition(p, edges, selects, code[j]) == Some(c);
    }
  }

  /** Adds the check unless its condition is in the set already. */
  function AddSecurityCheck(cond: Value, br: Value, checks: set<SecurityCheck>): (r: set<SecurityCheck>)
    ensures forall c :: HasCheck(r, c) <==> c == cond || HasCheck(checks, c)
    ensures checks <= r <= checks + {SecurityCheck(cond, br)}
  {
    if HasCheck(checks, cond) then checks
    else
      var r := checks + {SecurityCheck(cond, br)};
      assert SecurityCheck(cond, br) in r;
      r
  }

  method CountSuccessors(p: Program, edges: EdgeMap, bb: Block)
    returns (mayReturn: nat, mustReturn: nat, mayHandle: nat, mustHandle: nat)
    requires bb < |p.cfg.succs|
    ensures mustReturn != 0 && mayReturn != 0 <==> ReturnMixed(p, edges, bb)
    ensures mustHandle != 0 && mayHandle != 0 <==> HandleMixed(p, edges, bb)
  {
    mayReturn, mustReturn, mayHandle, mustHandle := 0, 0, 0, 0;
    var succs := p.cfg.succs[bb];
    for i := 0 to |succs|
      invariant mustReturn != 0 <==> exists s | s in succs[..i] :: HasMust(At(edges, Edge(bb, s)))
      invariant mayReturn != 0 <==> exists s | s in succs[..i] :: !HasMust(At(edges, Edge(bb, s)))
      invariant mustHandle != 0 <==> exists s | s in succs[..i] :: MustHandle(At(edges, Edge(bb, s)))
      invariant mayHandle != 0 <==> exists s | s in succs[..i] :: !MustHandle(At(edges, Edge(bb, s)))
    {
      PrefixGrows(succs, i);
      var errFlag := At(edges, Edge(bb, succs[i]));
      if HasMust(errFlag) {
        mustReturn := mustReturn + 1;
      } else {
        mayReturn := mayReturn + 1;
      }
      if MustHandle(errFlag) {
        mustHandle := mustHandle + 1;
      } else {
        mayHandle := mayHandle + 1;
      }
    }
    PrefixIsAll(succs);
  }

  method ConditionOf(p: Program, edges: EdgeMap, selects: set<Value>, i: Value) returns (cond: Option<Value>)
    requires p.Has(i)
    ensures cond == CheckCondition(p, edges, selects, i)
  {
    cond := None;
    match p.nodes[i] {
      case Branch(c) =>
        if |p.cfg.succs[p.parent[i]]| < 2 {
          return;
        }
        var mayReturn, mustReturn, mayHandle, mustHandle := CountSuccessors(p, edges, p.parent[i]);
        if !(mustReturn != 0 && mayReturn != 0) && !(mustHandle != 0 && mayHandle != 0) {
          return;
        }
        cond := c;
      case Switch(c) =>
        if |p.cfg.succs[p.parent[i]]| < 2 {
          return;
        }
        var mayReturn, mustReturn, mayHandle, mustHandle := CountSuccessors(p, edges, p.parent[i]);
        if !(mustReturn != 0 && mayReturn != 0) && !(mustHandle != 0 && mayHandle != 0) {
          return;
        }
        cond := Some(c);
      case Select(c, _, _) =>
        if i in selects {
          cond := Some(c);
        }
      case _ =>
    }
  }

  /** With no marked edge and no error select there is nothing to find. */
  lemma NothingToCheck(p: Program, edges: EdgeMap, selects: set<Value>, code: seq<Value>)
    requires edges == map[] && selects == {}
    ensures ExactlyChecks(p, edges, selects, code, {})
  {
    forall i ensures CheckCondition(p, edges, selects, i) == None {
    }
  }

  /** One more instruction of the code. */
  lemma ChecksOneMore(p: Program, edges: EdgeMap, selects: set<Value>, code: seq<Value>, n: nat,
                      checks: set<SecurityCheck>, checks': set<SecurityCheck>)
    requires n < |code| && ExactlyChecks(p, edges, selects, code[..n], checks)
    requires checks' == match CheckCondition(p, edges, selects, code[n])
                        case None => checks
                        case Some(c) => AddSecurityCheck(c, code[n], checks)
    ensures ExactlyChecks(p, edges, selects, code[..n + 1], checks')
  {
    var pre, all := code[..n], code[..n + 1];
    forall k: nat, c: Value | k < n
      ensures FirstCheck(p, edges, selects, pre, k, c) <==> FirstCheck(p, edges, selects, all, k, c)
    {
      assert all[k] == pre[k] && forall j | 0 <= j < k :: all[j] == pre[j];
    }
    match CheckCondition(p, edges, selects, code[n]) {
      case None =>
      case Some(c) =>
        EntryForEveryCheck(p, edges, selects, pre, checks, c);
        if !HasCheck(checks, c) {
          forall j: nat | j < n ensures CheckCondition(p, edges, selects, all[j]) != Some(c) {
            assert all[j] == pre[j];
          }
          assert FirstCheck(p, edges, selects, all, n, c);
        }
    }
  }

  /** One entry for every condition that qualifies, in one pass over the code. */
  method ReadChecks(p: Program, edges: EdgeMap, selects: set<Value>, code: seq<Value>)
    returns (checks: set<SecurityCheck>)
    requires forall i | i in code :: p.Has(i)
    ensures ExactlyChecks(p, edges, selects, code, checks)
  {
    checks := {};
    // An unmarked function is not even traversed
    if |edges| == 0 && |selects| == 0 {
      NothingToCheck(p, edges, selects, code);
      return;
    }
    for k := 0 to |code|
      invariant ExactlyChecks(p, edges, selects, code[..k], checks)
    {
      ghost var checks0 := checks;
      var cond := ConditionOf(p, edges, selects, code[k]);
      if cond.Some? {
        checks := AddSecurityCheck(cond.value, code[k], checks);
      }
      ChecksOneMore(p, edges, selects, code, k, checks0, checks);
    }
    PrefixIsAll(code);
  }
}
