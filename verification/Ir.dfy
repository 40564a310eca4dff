/** The abstract SSA program the passes look at: numbered values, blocks and functions. */
module Ir {
  import opened ControlFlow

  type Value = nat
  type Func = nat

  datatype Option<+T> = None | Some(value: T)

  /** Constants; expressions over constants are well-founded. */
  datatype Constant = IntConst(value: int) | NullConst | ExprConst(operands: seq<Constant>) | OtherConst

  datatype Predicate = EQ | NE | SGT | SGE | SLT | SLE | UGT | UGE | ULT | ULE | FloatPredicate

  datatype Incoming = Incoming(value: Value, block: Block)

  datatype Node =
    | Const(c: Constant)
    | GlobalVar
    | Param(fn: Func, pointer: bool)
    | Alloca(size: Value)
    | Load(ptr: Value)
    | Store(val: Value, ptr: Value)
    | Phi(incoming: seq<Incoming>)
    | Select(cond: Value, tval: Value, fval: Value)
    | Gep(ptr: Value, indices: seq<Value>)
    | Call(called: Value, direct: Option<Func>, indirect: bool, name: string, args: seq<Value>, pointer: bool)
    | Cmp(pred: Predicate, lhs: Value, rhs: Value)
    | OtherUnary(operand: Value, extract: bool)
    | Binary(lhs: Value, rhs: Value)
    | Branch(condition: Option<Value>)
    | Switch(cond: Value)
    | Return(result: Option<Value>)
    | OtherInst(operands: seq<Value>)
  {
    /** Global variables are constants too. */
    predicate IsConstant() {
      Const? || GlobalVar?
    }

    predicate IsInstruction() {
      !Const? && !GlobalVar? && !Param?
    }

    function Operands(): (os: seq<Value>) {
      match this
      case Const(_) => []
      case GlobalVar => []
      case Param(_, _) => []
      case Alloca(s) => [s]
      case Load(p) => [p]
      case Store(v, p) => [v, p]
      case Phi(inc) => seq(|inc|, i requires 0 <= i < |inc| => inc[i].value)
      case Select(c, t, f) => [c, t, f]
      case Gep(p, ix) => [p] + ix
      case Call(f, _, _, _, args, _) => args + [f]
      case Cmp(_, l, r) => [l, r]
      case OtherUnary(o, _) => [o]
      case Binary(l, r) => [l, r]
      case Branch(c) => if c.Some? then [c.value] else []
      case Switch(c) => [c]
      case Return(r) => if r.Some? then [r.value] else []
      case OtherInst(os) => os
    }
  }

  datatype Function = Function(
    name: string, blocks: seq<Block>, params: seq<Value>, returnsPointer: bool, addressTaken: bool)

  datatype ProgramData = Program(
    nodes: seq<Node>,
    users: seq<seq<Value>>,
    parent: seq<Block>,
    cfg: Cfg,
    body: seq<seq<Value>>,
    blockFunc: seq<Func>,
    funcs: seq<Function>)
  {
    ghost predicate Valid() {
      && |users| == |parent| == |nodes|
      && |body| == |blockFunc| == |cfg.succs|
      && (forall v, i | 0 <= v < |nodes| && 0 <= i < |nodes[v].Operands()| :: nodes[v].Operands()[i] < |nodes|)
      && (forall v, i | 0 <= v < |nodes| && nodes[v].Phi? && 0 <= i < |nodes[v].incoming| ::
            nodes[v].incoming[i].value < |nodes| && nodes[v].incoming[i].block < |cfg.succs|)
      && (forall v, i | 0 <= v < |users| && 0 <= i < |users[v]| :: users[v][i] < |nodes|)
      && (forall v | 0 <= v < |parent| :: parent[v] < |cfg.succs|)
      && (forall b, i | 0 <= b < |body| && 0 <= i < |body[b]| :: body[b][i] < |nodes|)
      && (forall b | 0 <= b < |blockFunc| :: blockFunc[b] < |funcs|)
      && (forall f, i | 0 <= f < |funcs| && 0 <= i < |funcs[f].blocks| :: funcs[f].blocks[i] < |cfg.succs|)
      && (forall f, i | 0 <= f < |funcs| && 0 <= i < |funcs[f].params| :: funcs[f].params[i] < |nodes|)
    }

    predicate Has(v: Value) {
      v < |nodes|
    }

    /** The instructions of the listed blocks, in order. */
    function Instructions(blocks: seq<Block>): seq<Value>
      requires forall b | b in blocks :: b < |body|
    {
      if blocks == [] then []
      else
        assert blocks[0] in blocks && forall b | b in blocks[1..] :: b in blocks;
        body[blocks[0]] + Instructions(blocks[1..])
    }
  }

  type Program = p: ProgramData | p.Valid() witness Program([], [], [], Cfg([], []), [], [], [])

  /** The position of an argument: the first match, or else the last one; -1 without arguments. */
  function ArgIndex(args: seq<Value>, v: Value): (r: int)
    ensures -1 <= r < |args| && (args != [] ==> 0 <= r)
  {
    if args == [] then -1
    else if args[0] == v || |args| == 1 then 0
    else ArgIndex(args[1..], v) + 1
  }

  lemma OperandsExist(p: Program, v: Value, o: Value)
    requires p.Has(v) && o in p.nodes[v].Operands()
    ensures p.Has(o)
  {
  }

  lemma UsersExist(p: Program, v: Value, u: Value)
    requires p.Has(v) && u in p.users[v]
    ensures p.Has(u)
  {
  }

  /** Every instruction of a block list belongs to one of the blocks, and the other way round. */
  lemma {:induction false} InstructionsOfBlocks(p: Program, blocks: seq<Block>, v: Value)
    requires forall b | b in blocks :: b < |p.body|
    ensures v in p.Instructions(blocks) <==> exists b | b in blocks :: v in p.body[b]
  {
    if blocks != [] {
      assert blocks == [blocks[0]] + blocks[1..];
      assert forall b :: b in blocks <==> b == blocks[0] || b in blocks[1..];
      InstructionsOfBlocks(p, blocks[1..], v);
    }
  }
}
