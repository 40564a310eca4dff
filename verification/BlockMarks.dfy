/** Flags collected for blocks: marks are or-ed together. */
module BlockMarks {
  import opened ControlFlow
  import opened Flags
  import opened EdgeFlags

  datatype Mark = Mark(block: Block, flag: Flag)

  function FlagOf(bbErr: BlockMap, b: Block): Flag {
    if b in bbErr then bbErr[b] else 0
  }

  ghost function Bit(ms: set<Mark>, b: Block, flag: Flag): Flag {
    if Mark(b, flag) in ms then flag else 0
  }

  /** The marks of one block, or-ed together. */
  ghost function OrOf(ms: set<Mark>, b: Block): Flag {
    Bit(ms, b, MUST_RETURN_ERR) | Bit(ms, b, MAY_RETURN_ERR) | Bit(ms, b, MUST_HANDLE_ERR)
  }

  ghost predicate KnownMarks(ms: set<Mark>) {
    forall m | m in ms :: m.flag == MUST_RETURN_ERR || m.flag == MAY_RETURN_ERR || m.flag == MUST_HANDLE_ERR
  }

  ghost predicate Marked(ms: set<Mark>, b: Block) {
    exists m | m in ms :: m.block == b
  }

  /** The map after is the map before with the marks or-ed in. */
  ghost predicate Absorbed(before: BlockMap, after: BlockMap, ms: set<Mark>) {
    && KnownMarks(ms)
    && (forall b: Block :: b in after <==> b in before || Marked(ms, b))
    && (forall b: Block :: FlagOf(after, b) == FlagOf(before, b) | OrOf(ms, b))
  }

  function MarkBBErr(bb: Block, flag: Flag, bbErr: BlockMap): (r: BlockMap)
    ensures flag == MUST_RETURN_ERR || flag == MAY_RETURN_ERR || flag == MUST_HANDLE_ERR ==>
              Absorbed(bbErr, r, {Mark(bb, flag)})
  {
    bbErr[bb := if bb in bbErr then bbErr[bb] | flag else flag]
  }

  lemma OrOfJoin(ms1: set<Mark>, ms2: set<Mark>, b: Block)
    ensures OrOf(ms1 + ms2, b) == OrOf(ms1, b) | OrOf(ms2, b)
  {
  }

  lemma AbsorbedTwice(m0: BlockMap, m1: BlockMap, m2: BlockMap, ms1: set<Mark>, ms2: set<Mark>)
    requires Absorbed(m0, m1, ms1) && Absorbed(m1, m2, ms2)
    ensures Absorbed(m0, m2, ms1 + ms2)
  {
    forall b: Block ensures FlagOf(m2, b) == FlagOf(m0, b) | OrOf(ms1 + ms2, b) {
      OrOfJoin(ms1, ms2, b);
    }
    forall b: Block ensures Marked(ms1 + ms2, b) <==> Marked(ms1, b) || Marked(ms2, b) {
      if Marked(ms1 + ms2, b) {
        var m :| m in ms1 + ms2 && m.block == b;
      }
    }
  }

  /** What absorbed marks say about a block of a map that was empty before. */
  lemma AbsorbedBits(after: BlockMap, ms: set<Mark>, b: Block)
    requires Absorbed(map[], after, ms)
    ensures IsMark(FlagOf(after, b))
    ensures MustHandle(FlagOf(after, b)) <==> Mark(b, MUST_HANDLE_ERR) in ms
    ensures ReturnBits(FlagOf(after, b)) != 0 <==> Mark(b, MUST_RETURN_ERR) in ms || Mark(b, MAY_RETURN_ERR) in ms
    ensures FlagOf(after, b) & MUST_RETURN_ERR != 0 <==> Mark(b, MUST_RETURN_ERR) in ms
    ensures FlagOf(after, b) & MAY_RETURN_ERR != 0 <==> Mark(b, MAY_RETURN_ERR) in ms
  {
    assert FlagOf(after, b) == FlagOf(map[], b) | OrOf(ms, b);
    assert FlagOf(map[], b) == 0;
    assert FlagOf(after, b) == OrOf(ms, b);
  }
}
