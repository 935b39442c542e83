# SuSy multiblock predicates in Dafny

This project models the block-matching predicates that Supersymmetry (a
GregTech add-on) contributes to multiblock structure patterns, from
`SuSyPredicates.java`. During one validation pass, the host's structure
validator calls these predicates one position at a time. Each call looks
at the block at its position and returns true or false. A call may also:

- record a lock value or a position list in the shared match context,
  which is a string-keyed map;
- set a localisable error on the block-world state;
- for the eccentric roll only, rewrite the block in the world.

The model is functional. Each call is a pure step from (position, match
context, world) to an `Outcome`. The outcome holds the verdict, the new
context, the new world and the error, if one was set.

Modules:

- `Blocks` (`blocks.dfy`): positions, facings, dye colours, and block
  states. A block state has a family and the sub-state that the
  predicates read. The world is a map from positions to blocks. Any
  position not in the map holds air.
- `MatchContext` (`match_context.dfy`): the context values and the
  host's `getOrPut`, where the first write wins. Also
  `getOrPut(key, new LinkedList<>()).add(pos)`, including the cast
  failure raised when the key holds something that is not a list.
- `SheetPacking` (`sheet_packing.dfy`): the metal-sheet lock byte,
  `(byte) (type << 4 | color)`.
- `SuSyPredicates` (`susy_predicates.dfy`): the test lambdas of
  `COOLING_COILS`, `SINTERING_BRICKS`, `RAILS`, `METAL_SHEETS`,
  `LARGE_METAL_SHEETS` and `eccentricRolls(facing)`. Also the
  or-composition behind `metalSheets()`, and a dispatcher `Test`. The
  three type-locked predicates share one step, `LockStep`, and one
  contract, `TypeLockContract`.
- `ValidationPass` (`validation_pass.dfy`): a pass is a sequence of
  calls, each a predicate and a position, that share one context and
  one world. This module states what a whole pass does to the locks, to
  the `"VABlock"` and `"Animatable"` lists and to the world.
- `Wrappers` (`wrappers.dfy`): `Option`.

Two behaviours of the code are worth noting:

- Besides the mismatch error, the code can fail in one more way. The
  `getOrPut(..., new LinkedList<>()).add(pos)` pattern throws a cast
  failure when the key already holds a non-list value. The model keeps
  this as the verdict `CastFailure`. When it happens, the state is as
  the code leaves it: a coil's lock is already stored, and an eccentric
  roll has already been turned.
- Previews: the Javadoc of `METAL_SHEETS` (lines 80-82) says it matches
  both sheet sizes but supplies previews only for small sheets. The
  Javadoc of `LARGE_METAL_SHEETS` (line 110) says it supplies the
  large-sheet previews. Its test is constant false (line 114). So
  `metalSheets()` matches exactly what `METAL_SHEETS` matches and offers
  previews of both sizes. Previews are not modelled.

## Model

| member | source | states |
|---|---|---|
| MatchContext.GetOrPut | src/main/java/supersymmetry/api/metatileentity/multiblock/SuSyPredicates.java:37 | First write wins: the result is what is stored under the key. When the key was absent, the default is returned and stored. Entries already present are never changed, and only the key itself may be added. |
| MatchContext.AddToList | src/main/java/supersymmetry/api/metatileentity/multiblock/SuSyPredicates.java:42 | Succeeds exactly when the key is absent or holds a list. On success the list is the old list (empty if absent) with the position appended, and nothing else changes. On failure it is a cast failure. |
| SheetPacking.Pack | src/main/java/supersymmetry/api/metatileentity/multiblock/SuSyPredicates.java:94 | For size class 0..1 and colour 0..15, the packed byte's value is 16·type + colour, so the 32-bit shift-and-or and the narrowing to a byte lose nothing. |
| SheetPacking.PackRoundTrip | src/main/java/supersymmetry/api/metatileentity/multiblock/SuSyPredicates.java:94 | Reading a packed byte back with `value >> 4` gives the size class and `value & 15` the colour. |
| SheetPacking.UnpackRoundTrip | src/main/java/supersymmetry/api/metatileentity/multiblock/SuSyPredicates.java:94 | Every byte below 32 is the packing of its own size class and colour. |
| SheetPacking.PackInjective | src/main/java/supersymmetry/api/metatileentity/multiblock/SuSyPredicates.java:94-96 | Two packed values are equal iff both size class and colour agree. |
| SuSyPredicates.LockStep | src/main/java/supersymmetry/api/metatileentity/multiblock/SuSyPredicates.java:36-43 | The type-lock contract. A block outside the family is rejected without an error and changes nothing. If a different sub-type is already locked, the block is rejected with the error key and changes nothing. Otherwise the lock holds the block's sub-type and the position is appended to the list; nothing else changes. |
| SuSyPredicates.CoolingCoilsTest | src/main/java/supersymmetry/api/metatileentity/multiblock/SuSyPredicates.java:33-45 | The type-lock contract with lock `"CoolingCoilType"`, error `gregtech.multiblock.pattern.error.coils` and list `"VABlock"`. The offer is the coil type of a cooling coil; no other block offers one. |
| SuSyPredicates.SinteringBricksTest | src/main/java/supersymmetry/api/metatileentity/multiblock/SuSyPredicates.java:51-63 | The type-lock contract with lock `"SinteringBrickType"`, error `gregtech.multiblock.pattern.error.sintering_bricks` and list `"VABlock"`. The offer is the brick type of a sintering brick. |
| SuSyPredicates.MetalSheetsTest | src/main/java/supersymmetry/api/metatileentity/multiblock/SuSyPredicates.java:86-103 | The type-lock contract with lock `"MetalSheet"`, error `gregtech.multiblock.pattern.error.metal_sheets` and no list. The offer is the packed byte: 0 for a small sheet, 1 for a large sheet, with the colour. Other coloured blocks are rejected quietly. A match appends to no list. |
| SuSyPredicates.SheetTypeValue | src/main/java/supersymmetry/api/metatileentity/multiblock/SuSyPredicates.java:91-92 | The size class is always -1, 0 or 1. It is 0 exactly for the metal sheet and 1 exactly for the large metal sheet, so every other coloured block gets -1 and offers no lock. |
| SuSyPredicates.SheetOffersAgree | src/main/java/supersymmetry/api/metatileentity/multiblock/SuSyPredicates.java:90-96 | Two blocks offer the same metal-sheet lock iff both are sheets of the same size class and colour. So a later sheet that differs in size or colour is a mismatch. |
| SuSyPredicates.RailsTest | src/main/java/supersymmetry/api/metatileentity/multiblock/SuSyPredicates.java:69-77 | Never changes the context or the world and sets no error. Without Immersive Railroading it accepts every block. With it, it accepts exactly `BLOCK_RAIL` and `BLOCK_RAIL_GAG`. |
| SuSyPredicates.EccentricRollsTest | src/main/java/supersymmetry/api/metatileentity/multiblock/SuSyPredicates.java:147-166 | A non-roll is rejected and changes nothing. A roll ends up facing the required direction with its active flag kept. No other position changes, and the world is untouched when the roll already faced that way. The position is appended once to `"Animatable"`, and nothing else in the context changes. |
| SuSyPredicates.MetalSheetsAny | src/main/java/supersymmetry/api/metatileentity/multiblock/SuSyPredicates.java:134-137 | `metalSheets()`, which is the small-sheet predicate or the large-sheet one, behaves exactly like the small-sheet predicate on every call, because the large-sheet test is constant false (line 114). |
| SuSyPredicates.TestContextFrame | src/main/java/supersymmetry/api/metatileentity/multiblock/SuSyPredicates.java:33-166 | Any call, or-compositions included, leaves every context key outside its own lock and list unchanged. Starting from well-formed accumulation lists, it keeps them well formed and raises no cast failure. |
| SuSyPredicates.TestWorldFrame | src/main/java/supersymmetry/api/metatileentity/multiblock/SuSyPredicates.java:33-166 | Any call, or-compositions included, changes the world only at its own position, and there only by turning a roll. A predicate that never rewrites leaves the world alone. |
| ValidationPass.Run | src/main/java/supersymmetry/api/metatileentity/multiblock/SuSyPredicates.java:42 | A pass stops early only because of a cast failure, and only its last call can have raised one. |
| ValidationPass.RunShape | src/main/java/supersymmetry/api/metatileentity/multiblock/SuSyPredicates.java:33-166 | A pass that starts with well-formed lists makes every call, raises no cast failure and keeps the lists well formed. It changes the world only by turning eccentric rolls. |
| ValidationPass.FirstWriteIsFirst | src/main/java/supersymmetry/api/metatileentity/multiblock/SuSyPredicates.java:37 | The reference lock keeps an existing lock. Without one, it is none exactly when nothing was offered, and otherwise it is the first value offered. |
| ValidationPass.FirstWriteStable | src/main/java/supersymmetry/api/metatileentity/multiblock/SuSyPredicates.java:37-41 | Once a lock is established, it is never overwritten later in the pass. |
| ValidationPass.RunLocks | src/main/java/supersymmetry/api/metatileentity/multiblock/SuSyPredicates.java:36-43 | Over a whole pass, the lock of a type-locked predicate equals the reference lock of the offers of its calls. Each of its calls is decided by the lock before that call: a quiet rejection outside the family, acceptance when there is no lock or the same lock, otherwise rejection with the predicate's error. |
| ValidationPass.LockAgreement | src/main/java/supersymmetry/api/metatileentity/multiblock/SuSyPredicates.java:36-41 | After one call of a type-locked predicate is accepted, a later call is accepted iff its block has the same sub-type. A block of the family with another sub-type fails with the predicate's error. |
| ValidationPass.MetalSheetsAgreement | src/main/java/supersymmetry/api/metatileentity/multiblock/SuSyPredicates.java:86-103 | The same agreement for `metalSheets()` calls, in a pass where no other predicate writes `"MetalSheet"`. An accepted call's block is a sheet. After it, a later call is accepted iff its block is a sheet of the same size class and colour. Any other sheet fails with `gregtech.multiblock.pattern.error.metal_sheets`. |
| ValidationPass.RunLists | src/main/java/supersymmetry/api/metatileentity/multiblock/SuSyPredicates.java:42 | At the end of a pass, `"VABlock"` or `"Animatable"` is its initial list followed by the positions of the accepted appending calls, in call order. It exists exactly when it existed before or something was appended. |
| ValidationPass.RunWorld | src/main/java/supersymmetry/api/metatileentity/multiblock/SuSyPredicates.java:151-164 | At the end of a pass, each visited eccentric roll faces the direction of the last roll call at its position and keeps its active flag. Every other block is unchanged. A roll call is accepted iff its position held a roll when the pass began. |
| ValidationPass.RunCongruence | src/main/java/supersymmetry/api/metatileentity/multiblock/SuSyPredicates.java:136 | Replacing predicates by equivalent ones, such as `metalSheets()` by the small-sheet predicate, gives the same pass. |

## Left out

- Preview states: the `BlockInfo[]` example suppliers (lines 46-48, 64-66, 104-106, 114-116 and 168-169) are host rendering hints over registries that are not modelled.
- `SuSyMaterialIconType.java`: a list of icon-type constants with no behaviour.
- Host internals: `TraceabilityPredicate` is not part of this model. Its or-composition is modelled as a left-to-right, short-circuit disjunction over the shared context. `PatternStringError` is reduced to its message key. `Loader.isModLoaded` is the boolean `Env.railroadLoaded`. `World.setBlockState` is a map update, without neighbour notifications or other side effects.
- Host control of a pass: the host decides which predicate to try at which position and when to stop after a false. The model takes that as a given sequence of calls.
- Enum constants: the cooling-coil and sintering-brick sub-types are opaque ordinals. The predicates only compare them for equality.
- Integer widths: `BlockPos` coordinates are unbounded integers. The lock byte stays below 32, so Java's signed byte never wraps.
- ValidationPass.RunLocks: requires that no call of another predicate writes the lock key. RunLists and RunWorld have the matching requirement for their list key or for the world, and LockAgreement shares that of RunLocks. They therefore cover every pass built from the factories of `SuSyPredicates.java`. A pass that uses `metalSheets()` is covered by MetalSheetsAgreement, or by replacing each such call with the small-sheet predicate through RunCongruence. A pass that or-composes a locking, appending or rewriting predicate with another predicate, such as coils or rails, is not covered.
