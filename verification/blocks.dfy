/**
  The part of the game world the predicates look at: block positions, the
  block state at a position, and the world as a map from positions to
  block states.
 */
module Blocks {

  /** A block position. */
  datatype Pos = Pos(x: int, y: int, z: int)

  /** The six values of the block facing property. */
  datatype Facing = Down | Up | North | South | West | East

  /** A dye colour, as its metadata index (the game has sixteen dye colours). */
  type Dye = c: int | 0 <= c < 16

  /** Sub-types of the cooling coil block; only their identity matters here. */
  datatype CoolingCoilType = CoolingCoilType(ordinal: nat)

  /** Sub-types of the sintering brick block; only their identity matters here. */
  datatype SinteringBrickType = SinteringBrickType(ordinal: nat)

  /** Blocks that carry a dye colour: the small and large metal sheets and every other coloured block. */
  datatype ColoredFamily = MetalSheet | LargeMetalSheet | OtherColored(id: nat)

  /**
    A block state: the block family and the sub-state the predicates read.
    An eccentric roll has a facing and an active/inactive flag.
   */
  datatype Block =
    | Air
    | CoolingCoil(coil: CoolingCoilType)
    | SinteringBrick(brick: SinteringBrickType)
    | Colored(family: ColoredFamily, color: Dye)
    | Rail
    | RailGag
    | EccentricRoll(facing: Facing, active: bool)
    | OtherBlock(id: nat)

  /** The world: every position not in the map holds air. */
  type World = map<Pos, Block>

  function BlockAt(w: World, p: Pos): Block {
    if p in w then w[p] else Air
  }

  /**
    `after` is `before` or the same eccentric roll turned to another facing:
    the only change any predicate makes to a block.
   */
  predicate Refaced(before: Block, after: Block) {
    after == before
    || (before.EccentricRoll? && after.EccentricRoll? && after.active == before.active)
  }

  /** No position is added or removed, and every block is at most refaced. */
  ghost predicate OnlyRefaced(before: World, after: World) {
    && after.Keys == before.Keys
    && forall q :: Refaced(BlockAt(before, q), BlockAt(after, q))
  }

  lemma RefacedTransitive(a: Block, b: Block, c: Block)
    requires Refaced(a, b) && Refaced(b, c)
    ensures Refaced(a, c)
  {
  }
}
