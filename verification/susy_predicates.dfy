/**
  The block-matching predicates of the structure patterns: each one looks
  at the block at one position, may record things in the shared match
  context, and (the eccentric roll only) may rewrite that block.
  A predicate call is a pure step from (position, context, world) to an
  Outcome.
 */
module SuSyPredicates {

  import opened Wrappers
  import opened Blocks
  import opened MatchContext
  import opened SheetPacking

  // Match-context keys.
  const CoolingCoilTypeKey := "CoolingCoilType"
  const SinteringBrickTypeKey := "SinteringBrickType"
  const MetalSheetKey := "MetalSheet"
  const ActiveBlocksKey := "VABlock"
  const AnimatableKey := "Animatable"

  // Localisation keys of the mismatch errors.
  const CoilsError := "gregtech.multiblock.pattern.error.coils"
  const SinteringBricksError := "gregtech.multiblock.pattern.error.sintering_bricks"
  const MetalSheetsError := "gregtech.multiblock.pattern.error.metal_sheets"

  /** What the running game provides: whether the Immersive Railroading mod is loaded. */
  datatype Env = Env(railroadLoaded: bool)

  /**
    The result of one call: Accept/Reject is the boolean the test returns;
    CastFailure is the exception raised when an accumulation key holds
    something that is not a list. `ctx` and `world` are the shared context
    and world after the call, `error` the error set on the block-world state.
   */
  datatype Verdict = Accept | Reject | CastFailure(key: string)

  datatype Outcome = Outcome(verdict: Verdict, ctx: Context, world: World, error: Option<string>)

  /** The predicates of SuSyPredicates.java, and the host's or-composition of two of them. */
  datatype Predicate =
    | CoolingCoils
    | SinteringBricks
    | Rails
    | MetalSheets
    | LargeMetalSheets
    | EccentricRolls(facing: Facing)
    | Or(left: Predicate, right: Predicate)

  predicate TypeLocked(p: Predicate) {
    p.CoolingCoils? || p.SinteringBricks? || p.MetalSheets?
  }

  /** The context key holding the lock of a type-locked predicate. */
  function LockKey(p: Predicate): string
    requires TypeLocked(p)
  {
    match p
    case CoolingCoils => CoolingCoilTypeKey
    case SinteringBricks => SinteringBrickTypeKey
    case MetalSheets => MetalSheetKey
  }

  /** The error a type-locked predicate reports on a mismatch. */
  function ErrorKey(p: Predicate): string
    requires TypeLocked(p)
  {
    match p
    case CoolingCoils => CoilsError
    case SinteringBricks => SinteringBricksError
    case MetalSheets => MetalSheetsError
  }

  /** The accumulation list a successful call appends its position to, if any. */
  function ListKey(p: Predicate): Option<string> {
    match p
    case CoolingCoils => Some(ActiveBlocksKey)
    case SinteringBricks => Some(ActiveBlocksKey)
    case EccentricRolls(_) => Some(AnimatableKey)
    case _ => None
  }

  /** The context keys a call of `p` may write. */
  function Writes(p: Predicate): set<string> {
    match p
    case CoolingCoils => {CoolingCoilTypeKey, ActiveBlocksKey}
    case SinteringBricks => {SinteringBrickTypeKey, ActiveBlocksKey}
    case MetalSheets => {MetalSheetKey}
    case EccentricRolls(_) => {AnimatableKey}
    case Or(l, r) => Writes(l) + Writes(r)
    case _ => {}
  }

  /** Whether a call of `p` may rewrite a block of the world. */
  predicate Rewrites(p: Predicate) {
    match p
    case EccentricRolls(_) => true
    case Or(l, r) => Rewrites(l) || Rewrites(r)
    case _ => false
  }

  /** Both accumulation lists are absent or hold lists. */
  predicate ListsWellFormed(ctx: Context) {
    HoldsList(ctx, ActiveBlocksKey) && HoldsList(ctx, AnimatableKey)
  }

  /**
    The size class of a coloured block: 0 for the metal sheet, 1 for the
    large metal sheet, -1 for every other coloured block.
   */
  function SheetTypeValue(family: ColoredFamily): (t: int)
    ensures -1 <= t <= 1
    ensures t == 0 <==> family == MetalSheet
    ensures t == 1 <==> family == LargeMetalSheet
  {
    if family == MetalSheet then 0
    else if family == LargeMetalSheet then 1
    else -1
  }

  /**
    The value a block offers to the lock of a type-locked predicate: its
    sub-type when it belongs to the predicate's family, None otherwise.
   */
  function Offer(p: Predicate, b: Block): Option<Value>
    requires TypeLocked(p)
  {
    match p
    case CoolingCoils =>
      if b.CoolingCoil? then Some(CoilValue(b.coil)) else None
    case SinteringBricks =>
      if b.SinteringBrick? then Some(BrickValue(b.brick)) else None
    case MetalSheets =>
      if b.Colored? && SheetTypeValue(b.family) >= 0
      then Some(ByteValue(Pack(SheetTypeValue(b.family), b.color)))
      else None
  }

  /**
    What a type-locked predicate promises for one call. `offer` is the
    sub-type the block at `pos` stands for (None when the block is not of
    the family), `key` the lock, `errorKey` the mismatch error and `list`
    the accumulation list a match is recorded in.
   */
  ghost predicate TypeLockContract(key: string, errorKey: string, list: Option<string>,
                                   offer: Option<Value>, pos: Pos, ctx: Context, world: World,
                                   o: Outcome)
  {
    && o.world == world
    // not this predicate's concern: rejected without an error, nothing recorded
    && (offer.None? ==> o == Outcome(Reject, ctx, world, None))
    // another sub-type is already locked: rejected with the error, nothing recorded
    && (offer.Some? && key in ctx && ctx[key] != offer.value ==>
          o == Outcome(Reject, ctx, world, Some(errorKey)))
    // no lock yet, or the same one: the lock holds this sub-type and the position is recorded
    && (offer.Some? && (key !in ctx || ctx[key] == offer.value) ==>
          var locked := ctx[key := offer.value];
          match list
          case None => o == Outcome(Accept, locked, world, None)
          case Some(lk) =>
            if HoldsList(ctx, lk)
            then o == Outcome(Accept, locked[lk := Positions(ListOf(ctx, lk) + [pos])], world, None)
            else o == Outcome(CastFailure(lk), locked, world, None))
  }

  /** The common body of the type-locked predicates. */
  function LockStep(key: string, errorKey: string, list: Option<string>, offer: Option<Value>,
                    pos: Pos, ctx: Context, world: World): (o: Outcome)
    requires list != Some(key)
    ensures TypeLockContract(key, errorKey, list, offer, pos, ctx, world, o)
  {
    match offer
    case None => Outcome(Reject, ctx, world, None)
    case Some(v) =>
      var (current, ctx1) := GetOrPut(ctx, key, v);
      if current != v then
        Outcome(Reject, ctx1, world, Some(errorKey))
      else
        match list
        case None => Outcome(Accept, ctx1, world, None)
        case Some(lk) =>
          match AddToList(ctx1, lk, pos)
          case None => Outcome(CastFailure(lk), ctx1, world, None)
          case Some(ctx2) => Outcome(Accept, ctx2, world, None)
  }

  /** The cooling-coil predicate. */
  function CoolingCoilsTest(pos: Pos, ctx: Context, world: World): (o: Outcome)
    ensures var b := BlockAt(world, pos);
      TypeLockContract(CoolingCoilTypeKey, CoilsError, Some(ActiveBlocksKey),
                       if b.CoolingCoil? then Some(CoilValue(b.coil)) else None,
                       pos, ctx, world, o)
  {
    LockStep(CoolingCoilTypeKey, CoilsError, Some(ActiveBlocksKey),
             Offer(CoolingCoils, BlockAt(world, pos)), pos, ctx, world)
  }

  /** The sintering-brick predicate. */
  function SinteringBricksTest(pos: Pos, ctx: Context, world: World): (o: Outcome)
    ensures var b := BlockAt(world, pos);
      TypeLockContract(SinteringBrickTypeKey, SinteringBricksError, Some(ActiveBlocksKey),
                       if b.SinteringBrick? then Some(BrickValue(b.brick)) else None,
                       pos, ctx, world, o)
  {
    LockStep(SinteringBrickTypeKey, SinteringBricksError, Some(ActiveBlocksKey),
             Offer(SinteringBricks, BlockAt(world, pos)), pos, ctx, world)
  }

  /**
    The small-metal-sheet predicate: small sheets lock size class 0, large
    sheets size class 1, both with their colour; other coloured blocks are
    not its concern. A match records nothing in any list.
   */
  function MetalSheetsTest(pos: Pos, ctx: Context, world: World): (o: Outcome)
    ensures var b := BlockAt(world, pos);
      TypeLockContract(MetalSheetKey, MetalSheetsError, None,
                       if b.Colored? && b.family == MetalSheet then Some(ByteValue(Pack(0, b.color)))
                       else if b.Colored? && b.family == LargeMetalSheet then Some(ByteValue(Pack(1, b.color)))
                       else None,
                       pos, ctx, world, o)
  {
    LockStep(MetalSheetKey, MetalSheetsError, None,
             Offer(MetalSheets, BlockAt(world, pos)), pos, ctx, world)
  }

  /** The large-metal-sheet predicate only supplies preview states; its test never matches. */
  function LargeMetalSheetsTest(pos: Pos, ctx: Context, world: World): Outcome {
    Outcome(Reject, ctx, world, None)
  }

  /**
    The rails predicate: no constraint at all without Immersive Railroading,
    otherwise one of its two rail blocks. It never records anything.
   */
  function RailsTest(env: Env, pos: Pos, ctx: Context, world: World): (o: Outcome)
    ensures o.ctx == ctx && o.world == world && o.error == None
    ensures !env.railroadLoaded ==> o.verdict == Accept
    ensures env.railroadLoaded ==>
      (o.verdict == Accept <==> BlockAt(world, pos) in {Rail, RailGag})
    ensures o.verdict != Accept ==> o.verdict == Reject
  {
    if !env.railroadLoaded then Outcome(Accept, ctx, world, None)
    else
      var b := BlockAt(world, pos);
      Outcome(if b == Rail || b == RailGag then Accept else Reject, ctx, world, None)
  }

  /**
    The eccentric-roll predicate for a required facing: an eccentric roll
    is accepted, turned to `facing` if it faces elsewhere (keeping its
    active flag), and its position appended to the animatable list.
   */
  function EccentricRollsTest(facing: Facing, pos: Pos, ctx: Context, world: World): (o: Outcome)
    ensures !BlockAt(world, pos).EccentricRoll? ==> o == Outcome(Reject, ctx, world, None)
    ensures var b := BlockAt(world, pos);
      b.EccentricRoll? ==>
        && o.error == None
        && o.world.Keys == world.Keys
        && BlockAt(o.world, pos) == EccentricRoll(facing, b.active)
        && (forall q :: q != pos ==> BlockAt(o.world, q) == BlockAt(world, q))
        && (b.facing == facing ==> o.world == world)
        && (HoldsList(ctx, AnimatableKey) ==>
              o.verdict == Accept
              && o.ctx == ctx[AnimatableKey := Positions(ListOf(ctx, AnimatableKey) + [pos])])
        && (!HoldsList(ctx, AnimatableKey) ==> o.verdict == CastFailure(AnimatableKey) && o.ctx == ctx)
  {
    var b := BlockAt(world, pos);
    if b.EccentricRoll? then
      var world' := if b.facing != facing then world[pos := b.(facing := facing)] else world;
      match AddToList(ctx, AnimatableKey, pos)
      case None => Outcome(CastFailure(AnimatableKey), ctx, world', None)
      case Some(ctx') => Outcome(Accept, ctx', world', None)
    else
      Outcome(Reject, ctx, world, None)
  }

  /**
    One call of a predicate. An or-composition tries the left predicate
    first and the right one only when the left returned false, on the
    context and world the left one left behind.
   */
  function Test(p: Predicate, env: Env, pos: Pos, ctx: Context, world: World): Outcome {
    match p
    case CoolingCoils => CoolingCoilsTest(pos, ctx, world)
    case SinteringBricks => SinteringBricksTest(pos, ctx, world)
    case Rails => RailsTest(env, pos, ctx, world)
    case MetalSheets => MetalSheetsTest(pos, ctx, world)
    case LargeMetalSheets => LargeMetalSheetsTest(pos, ctx, world)
    case EccentricRolls(f) => EccentricRollsTest(f, pos, ctx, world)
    case Or(l, r) =>
      var a := Test(l, env, pos, ctx, world);
      if a.verdict != Reject then a
      else
        var b := Test(r, env, pos, a.ctx, a.world);
        b.(error := if b.error.Some? then b.error else a.error)
  }

  /** Two predicates that behave identically on every call. */
  ghost predicate Equivalent(p: Predicate, q: Predicate) {
    forall env, pos, ctx, world :: Test(p, env, pos, ctx, world) == Test(q, env, pos, ctx, world)
  }

  /** The factory `metalSheets()`: small sheets or large sheets; it matches exactly what the small-sheet predicate matches. */
  function MetalSheetsAny(): (p: Predicate)
    ensures Equivalent(p, MetalSheets)
  {
    OrLargeSheetsEquivalent();
    Or(MetalSheets, LargeMetalSheets)
  }

  /** The large-sheet test never matches and changes nothing, so adding it on the right changes no call. */
  lemma OrLargeSheetsEquivalent()
    ensures Equivalent(Or(MetalSheets, LargeMetalSheets), MetalSheets)
  {
    forall env, pos, ctx, world
      ensures Test(Or(MetalSheets, LargeMetalSheets), env, pos, ctx, world) == Test(MetalSheets, env, pos, ctx, world)
    {
      var a := Test(MetalSheets, env, pos, ctx, world);
      assert Test(LargeMetalSheets, env, pos, a.ctx, a.world) == Outcome(Reject, a.ctx, a.world, None);
    }
  }

  /**
    Two blocks offer the same metal-sheet lock exactly when both are sheets
    of the same size class and the same colour.
   */
  lemma SheetOffersAgree(b1: Block, b2: Block)
    requires Offer(MetalSheets, b1).Some?
    ensures Offer(MetalSheets, b2) == Offer(MetalSheets, b1)
        <==> b2.Colored? && b2.family == b1.family && b2.color == b1.color
  {
    if Offer(MetalSheets, b2).Some? {
      PackInjective(SheetTypeValue(b1.family), b1.color, SheetTypeValue(b2.family), b2.color);
    }
  }

  /** Every type-locked predicate keeps the type-lock contract with its own key, error, list and offer. */
  lemma TypeLockedTest(p: Predicate, env: Env, pos: Pos, ctx: Context, world: World)
    requires TypeLocked(p)
    ensures TypeLockContract(LockKey(p), ErrorKey(p), ListKey(p), Offer(p, BlockAt(world, pos)),
                             pos, ctx, world, Test(p, env, pos, ctx, world))
  {
  }

  /**
    The context frame of one call: only the keys in Writes(p) change, and
    the accumulation lists stay well formed, so no cast failure is raised.
   */
  ghost predicate ContextFrame(p: Predicate, ctx: Context, o: Outcome) {
    && (forall k :: k !in Writes(p) ==> Lookup(o.ctx, k) == Lookup(ctx, k))
    && (ListsWellFormed(ctx) ==> ListsWellFormed(o.ctx) && !o.verdict.CastFailure?)
  }

  lemma TypeLockedContextFrame(p: Predicate, env: Env, pos: Pos, ctx: Context, world: World)
    requires TypeLocked(p)
    ensures ContextFrame(p, ctx, Test(p, env, pos, ctx, world))
  {
    TypeLockedTest(p, env, pos, ctx, world);
    LockStepFrame(LockKey(p), ErrorKey(p), ListKey(p), Offer(p, BlockAt(world, pos)), pos, ctx, world,
                  Test(p, env, pos, ctx, world));
    assert Writes(p) == {LockKey(p)} + (if ListKey(p).Some? then {ListKey(p).value} else {});
  }

  /** A call keeping the type-lock contract writes only its lock and its list. */
  lemma LockStepFrame(key: string, errorKey: string, list: Option<string>, offer: Option<Value>,
                      pos: Pos, ctx: Context, world: World, o: Outcome)
    requires list.Some? ==> list.value == ActiveBlocksKey
    requires key != ActiveBlocksKey && key != AnimatableKey
    requires TypeLockContract(key, errorKey, list, offer, pos, ctx, world, o)
    ensures forall k :: k != key && Some(k) != list ==> Lookup(o.ctx, k) == Lookup(ctx, k)
    ensures ListsWellFormed(ctx) ==> ListsWellFormed(o.ctx) && !o.verdict.CastFailure?
  {
  }

  /** One call of any predicate keeps the context frame of Writes(p). */
  lemma {:induction false} TestContextFrame(p: Predicate, env: Env, pos: Pos, ctx: Context, world: World)
    ensures ContextFrame(p, ctx, Test(p, env, pos, ctx, world))
  {
    match p
    case Or(l, r) =>
      TestContextFrame(l, env, pos, ctx, world);
      var a := Test(l, env, pos, ctx, world);
      TestContextFrame(r, env, pos, a.ctx, a.world);
    case CoolingCoils => TypeLockedContextFrame(p, env, pos, ctx, world);
    case SinteringBricks => TypeLockedContextFrame(p, env, pos, ctx, world);
    case MetalSheets => TypeLockedContextFrame(p, env, pos, ctx, world);
    case Rails =>
    case LargeMetalSheets =>
    case EccentricRolls(f) =>
  }

  /**
    One call of any predicate changes the world at its own position only,
    and there only by refacing a roll; a predicate that never rewrites
    leaves the world alone.
   */
  lemma {:induction false} TestWorldFrame(p: Predicate, env: Env, pos: Pos, ctx: Context, world: World)
    ensures var o := Test(p, env, pos, ctx, world);
      && (!Rewrites(p) ==> o.world == world)
      && o.world.Keys == world.Keys
      && (forall q :: q != pos ==> BlockAt(o.world, q) == BlockAt(world, q))
      && Refaced(BlockAt(world, pos), BlockAt(o.world, pos))
  {
    match p
    case Or(l, r) =>
      TestWorldFrame(l, env, pos, ctx, world);
      var a := Test(l, env, pos, ctx, world);
      TestWorldFrame(r, env, pos, a.ctx, a.world);
      RefacedTransitive(BlockAt(world, pos), BlockAt(a.world, pos),
                        BlockAt(Test(r, env, pos, a.ctx, a.world).world, pos));
    case CoolingCoils =>
    case SinteringBricks =>
    case Rails =>
    case MetalSheets =>
    case LargeMetalSheets =>
    case EccentricRolls(f) =>
  }

  /** Both frame lemmas for one call. */
  lemma TestFrame(p: Predicate, env: Env, pos: Pos, ctx: Context, world: World)
    ensures var o := Test(p, env, pos, ctx, world);
      && (forall k :: k !in Writes(p) ==> Lookup(o.ctx, k) == Lookup(ctx, k))
      && (ListsWellFormed(ctx) ==> ListsWellFormed(o.ctx) && !o.verdict.CastFailure?)
      && (!Rewrites(p) ==> o.world == world)
      && o.world.Keys == world.Keys
      && (forall q :: q != pos ==> BlockAt(o.world, q) == BlockAt(world, q))
      && Refaced(BlockAt(world, pos), BlockAt(o.world, pos))
  {
    TestContextFrame(p, env, pos, ctx, world);
    TestWorldFrame(p, env, pos, ctx, world);
  }
}
