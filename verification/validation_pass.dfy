/**
  One validation pass: the host calls predicates one after another, each
  on one position, all sharing one match context and one world. A cast
  failure ends the pass.
 */
module ValidationPass {

  import opened Wrappers
  import opened Blocks
  import opened MatchContext
  import opened SuSyPredicates

  datatype Call = Call(pred: Predicate, pos: Pos)

  /** The verdicts and errors of the calls made so far, and the shared context and world after them. */
  datatype Trace = Trace(verdicts: seq<Verdict>, errors: seq<Option<string>>, ctx: Context, world: World)

  predicate Aborted(t: Trace) {
    |t.verdicts| > 0 && t.verdicts[|t.verdicts| - 1].CastFailure?
  }

  /**
    The pass over `calls`. Only its last call can have raised a cast
    failure, and it stops short of the end of `calls` only because of one.
   */
  function Run(env: Env, calls: seq<Call>, ctx: Context, world: World): (t: Trace)
    ensures |t.verdicts| == |t.errors| <= |calls|
    ensures |t.verdicts| < |calls| ==> Aborted(t)
    ensures forall i :: 0 <= i < |t.verdicts| - 1 ==> !t.verdicts[i].CastFailure?
    decreases |calls|
  {
    if |calls| == 0 then Trace([], [], ctx, world)
    else Step(env, Run(env, calls[..|calls| - 1], ctx, world), calls[|calls| - 1])
  }

  /** The pass after one more call; once a cast failure has ended it, nothing more happens. */
  function Step(env: Env, t: Trace, c: Call): Trace {
    if Aborted(t) then t
    else
      var o := Test(c.pred, env, c.pos, t.ctx, t.world);
      Trace(t.verdicts + [o.verdict], t.errors + [o.error], o.ctx, o.world)
  }

  /** A pass that has not aborted continues with the next call. */
  lemma RunLast(env: Env, calls: seq<Call>, ctx: Context, world: World)
    requires |calls| > 0
    requires !Aborted(Run(env, calls[..|calls| - 1], ctx, world))
    ensures var before := Run(env, calls[..|calls| - 1], ctx, world);
      var c := calls[|calls| - 1];
      var o := Test(c.pred, env, c.pos, before.ctx, before.world);
      Run(env, calls, ctx, world) == Trace(before.verdicts + [o.verdict], before.errors + [o.error], o.ctx, o.world)
  {
  }

  /**
    A pass that starts with well-formed accumulation lists makes every
    call, raises no cast failure, keeps the lists well formed and changes
    the world only by refacing eccentric rolls.
   */
  lemma {:induction false} RunShape(env: Env, calls: seq<Call>, ctx: Context, world: World)
    requires ListsWellFormed(ctx)
    ensures var t := Run(env, calls, ctx, world);
      && |t.verdicts| == |calls|
      && (forall i :: 0 <= i < |calls| ==> !t.verdicts[i].CastFailure?)
      && ListsWellFormed(t.ctx)
      && OnlyRefaced(world, t.world)
    decreases |calls|
  {
    if |calls| > 0 {
      var n := |calls| - 1;
      RunShape(env, calls[..n], ctx, world);
      ShapeStep(env, Run(env, calls[..n], ctx, world), calls[n], world);
    }
  }

  /** One more call keeps the shape RunShape describes. */
  lemma ShapeStep(env: Env, t: Trace, c: Call, world0: World)
    requires ListsWellFormed(t.ctx) && OnlyRefaced(world0, t.world)
    requires forall i :: 0 <= i < |t.verdicts| ==> !t.verdicts[i].CastFailure?
    ensures var t' := Step(env, t, c);
      && |t'.verdicts| == |t.verdicts| + 1
      && (forall i :: 0 <= i < |t'.verdicts| ==> !t'.verdicts[i].CastFailure?)
      && ListsWellFormed(t'.ctx)
      && OnlyRefaced(world0, t'.world)
  {
    TestFrame(c.pred, env, c.pos, t.ctx, t.world);
    var o := Test(c.pred, env, c.pos, t.ctx, t.world);
    forall q ensures Refaced(BlockAt(world0, q), BlockAt(o.world, q)) {
      RefacedTransitive(BlockAt(world0, q), BlockAt(t.world, q), BlockAt(o.world, q));
    }
  }

  /**
    The lock a sequence of offers establishes, first write wins: an
    existing lock stays, otherwise the first value offered.
   */
  function FirstWrite(lock: Option<Value>, offers: seq<Option<Value>>): Option<Value>
    decreases |offers|
  {
    if |offers| == 0 then lock
    else
      var earlier := FirstWrite(lock, offers[..|offers| - 1]);
      if earlier.Some? then earlier else offers[|offers| - 1]
  }

  /**
    FirstWrite keeps an existing lock; without one it is None exactly when
    nothing was offered, and otherwise the first value offered.
   */
  lemma {:induction false} FirstWriteIsFirst(lock: Option<Value>, offers: seq<Option<Value>>)
    ensures var r := FirstWrite(lock, offers);
      && (lock.Some? ==> r == lock)
      && (lock.None? ==> (r.None? <==> forall i :: 0 <= i < |offers| ==> offers[i].None?))
      && (lock.None? ==> forall i :: 0 <= i < |offers| && offers[i].Some? && NoneBefore(offers, i) ==> r == offers[i])
    decreases |offers|
  {
    if |offers| > 0 {
      var n := |offers| - 1;
      FirstWriteIsFirst(lock, offers[..n]);
      assert forall i :: 0 <= i < n ==> offers[..n][i] == offers[i];
    }
  }

  /** No offer before index `i`. */
  predicate NoneBefore(offers: seq<Option<Value>>, i: int)
    requires 0 <= i <= |offers|
  {
    forall j :: 0 <= j < i ==> offers[j].None?
  }

  /** Extending the offers by one: an established lock stays, otherwise the new offer is taken. */
  lemma FirstWriteExtend(lock: Option<Value>, offers: seq<Option<Value>>, n: nat)
    requires n < |offers|
    ensures FirstWrite(lock, offers[..n + 1])
         == (var earlier := FirstWrite(lock, offers[..n]); if earlier.Some? then earlier else offers[n])
  {
    assert offers[..n + 1][..n] == offers[..n];
  }

  /** Once a lock is established by a prefix of the offers, every longer prefix keeps it. */
  lemma {:induction false} FirstWriteStable(lock: Option<Value>, offers: seq<Option<Value>>, a: nat, b: nat)
    requires a <= b <= |offers|
    requires FirstWrite(lock, offers[..a]).Some?
    ensures FirstWrite(lock, offers[..b]) == FirstWrite(lock, offers[..a])
    decreases b - a
  {
    if a < b {
      FirstWriteStable(lock, offers, a, b - 1);
      FirstWriteExtend(lock, offers, b - 1);
    }
  }

  /**
    What each call of a type-locked predicate offers to its lock, read
    from the world at the start of the pass; calls of other predicates
    offer nothing.
   */
  function Offers(p: Predicate, calls: seq<Call>, world: World): (s: seq<Option<Value>>)
    requires TypeLocked(p)
    ensures |s| == |calls|
  {
    seq(|calls|, i requires 0 <= i < |calls| =>
      if calls[i].pred == p then Offer(p, BlockAt(world, calls[i].pos)) else None)
  }

  lemma OffersPrefix(p: Predicate, calls: seq<Call>, world: World, n: nat)
    requires TypeLocked(p) && n < |calls|
    ensures Offers(p, calls[..n], world) == Offers(p, calls, world)[..n]
    ensures Offers(p, calls, world)[n]
         == if calls[n].pred == p then Offer(p, BlockAt(world, calls[n].pos)) else None
  {
  }

  /**
    The outcome of one call of a type-locked predicate, given the lock
    before it and the block's offer: quiet rejection for a block of another
    family, acceptance with no lock or the same one, otherwise rejection
    with the predicate's error.
   */
  predicate LockDecision(lock: Option<Value>, offer: Option<Value>, errorKey: string,
                         v: Verdict, e: Option<string>)
  {
    && (offer.None? ==> v == Reject && e == None)
    && (offer.Some? && (lock.None? || lock == offer) ==> v == Accept && e == None)
    && (offer.Some? && lock.Some? && lock != offer ==> v == Reject && e == Some(errorKey))
  }

  /** No call but those of `p` writes the key `key`. */
  predicate OnlyWriter(p: Predicate, key: string, calls: seq<Call>) {
    forall i :: 0 <= i < |calls| && calls[i].pred != p ==> key !in Writes(calls[i].pred)
  }

  /** A type-locked predicate offers nothing for an eccentric roll, so refacing never changes an offer. */
  lemma OfferIgnoresRefacing(p: Predicate, b: Block, b': Block)
    requires TypeLocked(p) && Refaced(b, b')
    ensures Offer(p, b') == Offer(p, b)
  {
  }

  /**
    One call inside a pass, seen from the lock of `p`: the lock stays if it
    was set and otherwise takes the call's offer, and a call of `p` is
    decided by the lock as it stood. The offer is read from the world the
    pass began with, which the pass has at most refaced.
   */
  lemma LockCall(p: Predicate, q: Predicate, env: Env, pos: Pos, ctx: Context, world0: World, world: World)
    requires TypeLocked(p) && ListsWellFormed(ctx) && OnlyRefaced(world0, world)
    requires q == p || LockKey(p) !in Writes(q)
    ensures var o := Test(q, env, pos, ctx, world);
      var offer := if q == p then Offer(p, BlockAt(world0, pos)) else None;
      var lock := Lookup(ctx, LockKey(p));
      && Lookup(o.ctx, LockKey(p)) == (if lock.Some? then lock else offer)
      && (q == p ==> LockDecision(lock, offer, ErrorKey(p), o.verdict, o.error))
  {
    TestFrame(q, env, pos, ctx, world);
    if q == p {
      TypeLockedTest(p, env, pos, ctx, world);
      OfferIgnoresRefacing(p, BlockAt(world0, pos), BlockAt(world, pos));
    }
  }

  /**
    Every call of `p` among `calls` got the verdict and error the lock
    before it dictates.
   */
  predicate Decided(p: Predicate, calls: seq<Call>, lock: Option<Value>, offers: seq<Option<Value>>,
                    verdicts: seq<Verdict>, errors: seq<Option<string>>)
    requires TypeLocked(p)
  {
    && |offers| == |verdicts| == |errors| == |calls|
    && forall i :: 0 <= i < |calls| && calls[i].pred == p ==>
         LockDecision(FirstWrite(lock, offers[..i]), offers[i], ErrorKey(p), verdicts[i], errors[i])
  }

  lemma DecidedExtend(p: Predicate, calls: seq<Call>, lock: Option<Value>, offers: seq<Option<Value>>,
                      verdicts: seq<Verdict>, errors: seq<Option<string>>, v: Verdict, e: Option<string>)
    requires TypeLocked(p) && |calls| == |offers| > 0
    requires Decided(p, calls[..|calls| - 1], lock, offers[..|calls| - 1], verdicts, errors)
    requires calls[|calls| - 1].pred == p ==>
      LockDecision(FirstWrite(lock, offers[..|calls| - 1]), offers[|calls| - 1], ErrorKey(p), v, e)
    ensures Decided(p, calls, lock, offers, verdicts + [v], errors + [e])
  {
    var n := |calls| - 1;
    forall i | 0 <= i < |calls| && calls[i].pred == p
      ensures LockDecision(FirstWrite(lock, offers[..i]), offers[i], ErrorKey(p), (verdicts + [v])[i], (errors + [e])[i])
    {
      if i < n {
        assert calls[..n][i] == calls[i];
        assert offers[..n][..i] == offers[..i];
      }
    }
  }

  /** The facts of one pass step that the lock lemma needs, about the last call of `calls`. */
  lemma LockStepFacts(p: Predicate, env: Env, calls: seq<Call>, ctx: Context, world: World)
    requires TypeLocked(p) && ListsWellFormed(ctx) && |calls| > 0
    requires OnlyWriter(p, LockKey(p), calls)
    ensures var n := |calls| - 1;
      var before := Run(env, calls[..n], ctx, world);
      var t := Run(env, calls, ctx, world);
      var offers := Offers(p, calls, world);
      var lock := Lookup(ctx, LockKey(p));
      && Offers(p, calls[..n], world) == offers[..n]
      && |before.verdicts| == n
      && |t.verdicts| == n + 1
      && t.verdicts == before.verdicts + [t.verdicts[n]]
      && t.errors == before.errors + [t.errors[n]]
      && Lookup(t.ctx, LockKey(p)) == (var l := Lookup(before.ctx, LockKey(p)); if l.Some? then l else offers[n])
      && (calls[n].pred == p ==>
            LockDecision(Lookup(before.ctx, LockKey(p)), offers[n], ErrorKey(p), t.verdicts[n], t.errors[n]))
  {
    var n := |calls| - 1;
    OffersPrefix(p, calls, world, n);
    RunShape(env, calls[..n], ctx, world);
    var before := Run(env, calls[..n], ctx, world);
    var c := calls[n];
    LockCall(p, c.pred, env, c.pos, before.ctx, world, before.world);
    RunLast(env, calls, ctx, world);
    RunShape(env, calls, ctx, world);
  }

  /**
    Over a whole pass, the lock of a type-locked predicate `p` is the first
    write of its offers, and each call of `p` is decided by the lock as it
    stood before that call.
   */
  lemma {:induction false} RunLocks(p: Predicate, env: Env, calls: seq<Call>, ctx: Context, world: World)
    requires TypeLocked(p) && ListsWellFormed(ctx)
    requires OnlyWriter(p, LockKey(p), calls)
    ensures var t := Run(env, calls, ctx, world);
      var offers := Offers(p, calls, world);
      var lock := Lookup(ctx, LockKey(p));
      && Lookup(t.ctx, LockKey(p)) == FirstWrite(lock, offers)
      && Decided(p, calls, lock, offers, t.verdicts, t.errors)
    decreases |calls|
  {
    if |calls| == 0 {
      RunShape(env, calls, ctx, world);
    } else {
      var n := |calls| - 1;
      var lock := Lookup(ctx, LockKey(p));
      var offers := Offers(p, calls, world);
      assert OnlyWriter(p, LockKey(p), calls[..n]);
      RunLocks(p, env, calls[..n], ctx, world);
      LockStepFacts(p, env, calls, ctx, world);
      FirstWriteExtend(lock, offers, n);
      assert offers[..n + 1] == offers;
      var before := Run(env, calls[..n], ctx, world);
      var t := Run(env, calls, ctx, world);
      DecidedExtend(p, calls, lock, offers, before.verdicts, before.errors, t.verdicts[n], t.errors[n]);
    }
  }

  /**
    Agreement within a pass: after a call of `p` is accepted, a later
    call of `p` is accepted exactly when its block offers the same sub-type,
    and a block of the family with another sub-type is rejected with the
    predicate's error.
   */
  lemma LockAgreement(p: Predicate, env: Env, calls: seq<Call>, ctx: Context, world: World, i: nat, j: nat)
    requires TypeLocked(p) && ListsWellFormed(ctx)
    requires OnlyWriter(p, LockKey(p), calls)
    requires i < j < |calls| && calls[i].pred == p && calls[j].pred == p
    ensures var t := Run(env, calls, ctx, world);
      var oi := Offer(p, BlockAt(world, calls[i].pos));
      var oj := Offer(p, BlockAt(world, calls[j].pos));
      && |t.verdicts| == |calls|
      && (t.verdicts[i] == Accept ==>
            && (t.verdicts[j] == Accept <==> oj == oi)
            && (oj.Some? && oj != oi ==> t.errors[j] == Some(ErrorKey(p))))
  {
    RunLocks(p, env, calls, ctx, world);
    RunShape(env, calls, ctx, world);
    var t := Run(env, calls, ctx, world);
    var offers := Offers(p, calls, world);
    var lock := Lookup(ctx, LockKey(p));
    if t.verdicts[i] == Accept {
      FirstWriteExtend(lock, offers, i);
      FirstWriteStable(lock, offers, i + 1, j);
    }
  }

  /**
    The positions the accepted calls appended to the list under `key`, in
    call order.
   */
  function Collected(key: string, calls: seq<Call>, verdicts: seq<Verdict>): seq<Pos>
    requires |verdicts| <= |calls|
    decreases |verdicts|
  {
    if |verdicts| == 0 then []
    else
      var n := |verdicts| - 1;
      Collected(key, calls, verdicts[..n])
      + (if verdicts[n] == Accept && ListKey(calls[n].pred) == Some(key) then [calls[n].pos] else [])
  }

  /** Every call that may write `key` is one of the predicates that append to it. */
  predicate OnlyAppenders(key: string, calls: seq<Call>) {
    forall i :: 0 <= i < |calls| && key in Writes(calls[i].pred) ==> ListKey(calls[i].pred) == Some(key)
  }

  lemma ConcatAssoc(a: seq<Pos>, b: seq<Pos>, c: seq<Pos>)
    ensures (a + b) + c == a + (b + c)
    ensures |b + c| > 0 <==> |b| > 0 || |c| > 0
  {
  }

  /** Collected reads only the calls that have a verdict. */
  lemma {:induction false} CollectedPrefix(key: string, calls: seq<Call>, n: nat, verdicts: seq<Verdict>)
    requires |verdicts| <= n <= |calls|
    ensures Collected(key, calls[..n], verdicts) == Collected(key, calls, verdicts)
    decreases |verdicts|
  {
    if |verdicts| > 0 {
      CollectedPrefix(key, calls, n, verdicts[..|verdicts| - 1]);
      assert calls[..n][|verdicts| - 1] == calls[|verdicts| - 1];
    }
  }

  /**
    One call seen from an accumulation list: an accepted call of a
    predicate that appends to it adds exactly its position at the end;
    any other call leaves the list, and whether it exists, alone.
   */
  lemma ListCall(key: string, q: Predicate, env: Env, pos: Pos, ctx: Context, world: World)
    requires key == ActiveBlocksKey || key == AnimatableKey
    requires ListsWellFormed(ctx)
    requires key in Writes(q) ==> ListKey(q) == Some(key)
    ensures var o := Test(q, env, pos, ctx, world);
      var appended := o.verdict == Accept && ListKey(q) == Some(key);
      && ListOf(o.ctx, key) == ListOf(ctx, key) + (if appended then [pos] else [])
      && (key in o.ctx <==> key in ctx || appended)
  {
    TestFrame(q, env, pos, ctx, world);
    if q.CoolingCoils? || q.SinteringBricks? {
      TypeLockedTest(q, env, pos, ctx, world);
    }
  }

  /** The facts of one pass step that the list lemma needs, about the last call of `calls`. */
  lemma ListStepFacts(key: string, env: Env, calls: seq<Call>, ctx: Context, world: World)
    requires key == ActiveBlocksKey || key == AnimatableKey
    requires ListsWellFormed(ctx) && |calls| > 0
    requires var c := calls[|calls| - 1]; key in Writes(c.pred) ==> ListKey(c.pred) == Some(key)
    ensures var n := |calls| - 1;
      var before := Run(env, calls[..n], ctx, world);
      var t := Run(env, calls, ctx, world);
      |t.verdicts| == n + 1 &&
      var appended := t.verdicts[n] == Accept && ListKey(calls[n].pred) == Some(key);
      && |before.verdicts| == n
      && t.verdicts[..n] == before.verdicts
      && ListOf(t.ctx, key) == ListOf(before.ctx, key) + (if appended then [calls[n].pos] else [])
      && (key in t.ctx <==> key in before.ctx || appended)
  {
    var n := |calls| - 1;
    RunShape(env, calls[..n], ctx, world);
    RunShape(env, calls, ctx, world);
    var before := Run(env, calls[..n], ctx, world);
    var c := calls[n];
    ListCall(key, c.pred, env, c.pos, before.ctx, before.world);
    RunLast(env, calls, ctx, world);
  }

  /**
    An accumulation list at the end of a pass is the list at its start
    followed by the positions of the accepted appending calls, in call
    order; it exists afterwards exactly when it existed before or some
    position was appended.
   */
  lemma {:induction false} RunLists(key: string, env: Env, calls: seq<Call>, ctx: Context, world: World)
    requires key == ActiveBlocksKey || key == AnimatableKey
    requires ListsWellFormed(ctx) && OnlyAppenders(key, calls)
    ensures var t := Run(env, calls, ctx, world);
      && ListOf(t.ctx, key) == ListOf(ctx, key) + Collected(key, calls, t.verdicts)
      && (key in t.ctx <==> key in ctx || |Collected(key, calls, t.verdicts)| > 0)
    decreases |calls|
  {
    RunShape(env, calls, ctx, world);
    if |calls| > 0 {
      var n := |calls| - 1;
      assert OnlyAppenders(key, calls[..n]);
      RunLists(key, env, calls[..n], ctx, world);
      ListStepFacts(key, env, calls, ctx, world);
      var before := Run(env, calls[..n], ctx, world);
      CollectedPrefix(key, calls, n, before.verdicts);
      var t := Run(env, calls, ctx, world);
      var earlier := Collected(key, calls, before.verdicts);
      var last := if t.verdicts[n] == Accept && ListKey(calls[n].pred) == Some(key) then [calls[n].pos] else [];
      assert Collected(key, calls, t.verdicts) == earlier + last;
      assert ListOf(t.ctx, key) == (ListOf(ctx, key) + earlier) + last;
      ConcatAssoc(ListOf(ctx, key), earlier, last);
    }
  }

  /** The facing of the last eccentric-roll call at `q`, if any. */
  function LastFacing(calls: seq<Call>, q: Pos): Option<Facing>
    decreases |calls|
  {
    if |calls| == 0 then None
    else
      var c := calls[|calls| - 1];
      if c.pred.EccentricRolls? && c.pos == q then Some(c.pred.facing)
      else LastFacing(calls[..|calls| - 1], q)
  }

  /** Every call that may rewrite the world is an eccentric-roll call. */
  predicate OnlyRollRewrites(calls: seq<Call>) {
    forall i :: 0 <= i < |calls| && Rewrites(calls[i].pred) ==> calls[i].pred.EccentricRolls?
  }

  /** The block the world is expected to hold at `q` after `calls`. */
  function Expected(world: World, calls: seq<Call>, q: Pos): Block {
    var b := BlockAt(world, q);
    var f := LastFacing(calls, q);
    if b.EccentricRoll? && f.Some? then EccentricRoll(f.value, b.active) else b
  }

  /** Every eccentric-roll call was accepted exactly when its position held a roll at the start. */
  predicate RollsDecided(world: World, calls: seq<Call>, verdicts: seq<Verdict>)
    requires |verdicts| == |calls|
  {
    forall i :: 0 <= i < |calls| && calls[i].pred.EccentricRolls? ==>
      (verdicts[i] == Accept <==> BlockAt(world, calls[i].pos).EccentricRoll?)
  }

  /** The world reached after `calls`, position by position. */
  ghost predicate WorldAfter(world0: World, calls: seq<Call>, world: World) {
    && world.Keys == world0.Keys
    && forall q :: BlockAt(world, q) == Expected(world0, calls, q)
  }

  /**
    One call after `prefix`, seen from the world: the world after it is
    the one expected after `prefix` and the call, and a roll call is
    accepted exactly when its position held a roll at the start.
   */
  lemma WorldCall(env: Env, prefix: seq<Call>, c: Call, ctx: Context, world0: World, world: World)
    requires ListsWellFormed(ctx) && (Rewrites(c.pred) ==> c.pred.EccentricRolls?)
    requires WorldAfter(world0, prefix, world)
    ensures var o := Test(c.pred, env, c.pos, ctx, world);
      && WorldAfter(world0, prefix + [c], o.world)
      && (c.pred.EccentricRolls? ==> (o.verdict == Accept <==> BlockAt(world0, c.pos).EccentricRoll?))
  {
    TestFrame(c.pred, env, c.pos, ctx, world);
    var o := Test(c.pred, env, c.pos, ctx, world);
    assert (prefix + [c])[..|prefix|] == prefix;
    forall q ensures BlockAt(o.world, q) == Expected(world0, prefix + [c], q) {
      assert BlockAt(world, q) == Expected(world0, prefix, q);
    }
    assert BlockAt(world, c.pos) == Expected(world0, prefix, c.pos);
  }

  /** One more call, seen from the world and the roll verdicts. */
  lemma WorldStep(env: Env, t: Trace, prefix: seq<Call>, c: Call, world0: World)
    requires ListsWellFormed(t.ctx) && !Aborted(t) && (Rewrites(c.pred) ==> c.pred.EccentricRolls?)
    requires |t.verdicts| == |prefix| && WorldAfter(world0, prefix, t.world)
    requires RollsDecided(world0, prefix, t.verdicts)
    ensures var t' := Step(env, t, c);
      && |t'.verdicts| == |prefix| + 1
      && WorldAfter(world0, prefix + [c], t'.world)
      && RollsDecided(world0, prefix + [c], t'.verdicts)
  {
    WorldCall(env, prefix, c, t.ctx, world0, t.world);
    var t' := Step(env, t, c);
    var calls := prefix + [c];
    forall i | 0 <= i < |calls| && calls[i].pred.EccentricRolls?
      ensures t'.verdicts[i] == Accept <==> BlockAt(world0, calls[i].pos).EccentricRoll?
    {
      if i < |prefix| {
        assert calls[i] == prefix[i];
      }
    }
  }

  /**
    At the end of a pass every eccentric roll that some roll call visited
    faces the facing of the last such call, with its active flag kept; every
    other block is as it was. Each roll call is accepted exactly when the
    block at its position was an eccentric roll when the pass began.
   */
  lemma {:induction false} RunWorld(env: Env, calls: seq<Call>, ctx: Context, world: World)
    requires ListsWellFormed(ctx) && OnlyRollRewrites(calls)
    ensures var t := Run(env, calls, ctx, world);
      && |t.verdicts| == |calls|
      && WorldAfter(world, calls, t.world)
      && RollsDecided(world, calls, t.verdicts)
    decreases |calls|
  {
    if |calls| > 0 {
      var n := |calls| - 1;
      assert OnlyRollRewrites(calls[..n]);
      RunWorld(env, calls[..n], ctx, world);
      RunShape(env, calls[..n], ctx, world);
      assert calls[..n] + [calls[n]] == calls;
      WorldStep(env, Run(env, calls[..n], ctx, world), calls[..n], calls[n], world);
    }
  }

  /** Calls whose predicates are equivalent, at the same positions, make the same pass. */
  lemma {:induction false} RunCongruence(env: Env, calls: seq<Call>, calls': seq<Call>, ctx: Context, world: World)
    requires |calls| == |calls'|
    requires forall i :: 0 <= i < |calls| ==>
      calls[i].pos == calls'[i].pos && Equivalent(calls[i].pred, calls'[i].pred)
    ensures Run(env, calls, ctx, world) == Run(env, calls', ctx, world)
    decreases |calls|
  {
    if |calls| > 0 {
      var n := |calls| - 1;
      RunCongruence(env, calls[..n], calls'[..n], ctx, world);
      StepCongruence(env, Run(env, calls[..n], ctx, world), calls[n], calls'[n]);
    }
  }

  lemma StepCongruence(env: Env, t: Trace, c: Call, c': Call)
    requires c.pos == c'.pos && Equivalent(c.pred, c'.pred)
    ensures Step(env, t, c) == Step(env, t, c')
  {
    if !Aborted(t) {
      assert Test(c.pred, env, c.pos, t.ctx, t.world) == Test(c'.pred, env, c'.pos, t.ctx, t.world);
    }
  }

  /** A call of `metalSheets()` made as a call of the small-sheet predicate; every other call is kept. */
  function SheetsNormal(c: Call): Call {
    if c.pred == MetalSheetsAny() then Call(MetalSheets, c.pos) else c
  }

  function SheetsNormalAll(calls: seq<Call>): (calls': seq<Call>)
    ensures |calls'| == |calls|
  {
    seq(|calls|, k requires 0 <= k < |calls| => SheetsNormal(calls[k]))
  }

  /**
    Making every `metalSheets()` call a small-sheet call leaves the pass
    unchanged. Afterwards only small-sheet calls write `"MetalSheet"`, when
    before only those two predicates did.
   */
  lemma SheetsNormalPass(env: Env, calls: seq<Call>, ctx: Context, world: World)
    requires forall k :: 0 <= k < |calls| ==>
      calls[k].pred == MetalSheetsAny() || calls[k].pred == MetalSheets || MetalSheetKey !in Writes(calls[k].pred)
    ensures Run(env, SheetsNormalAll(calls), ctx, world) == Run(env, calls, ctx, world)
    ensures OnlyWriter(MetalSheets, LockKey(MetalSheets), SheetsNormalAll(calls))
  {
    var calls' := SheetsNormalAll(calls);
    forall k | 0 <= k < |calls|
      ensures calls[k].pos == calls'[k].pos && Equivalent(calls[k].pred, calls'[k].pred)
    {
      if calls[k].pred == MetalSheetsAny() {
        assert calls'[k] == Call(MetalSheets, calls[k].pos);
      } else {
        assert calls'[k] == calls[k];
      }
    }
    RunCongruence(env, calls, calls', ctx, world);
  }

  /** An accepted call of a type-locked predicate had a block of the predicate's family. */
  lemma AcceptedOffers(p: Predicate, env: Env, calls: seq<Call>, ctx: Context, world: World, i: nat)
    requires TypeLocked(p) && ListsWellFormed(ctx)
    requires OnlyWriter(p, LockKey(p), calls)
    requires i < |calls| && calls[i].pred == p
    ensures var t := Run(env, calls, ctx, world);
      && |t.verdicts| == |calls|
      && (t.verdicts[i] == Accept ==> Offer(p, BlockAt(world, calls[i].pos)).Some?)
  {
    RunLocks(p, env, calls, ctx, world);
    RunShape(env, calls, ctx, world);
  }

  /**
    Agreement for a pass that uses `metalSheets()` next to predicates that
    leave the `"MetalSheet"` lock alone: once one of its calls is accepted,
    a later one is accepted exactly when its block is a sheet of the same
    size class and colour, and any other sheet fails with the metal-sheet
    error.
   */
  lemma MetalSheetsAgreement(env: Env, calls: seq<Call>, ctx: Context, world: World, i: nat, j: nat)
    requires ListsWellFormed(ctx)
    requires forall k :: 0 <= k < |calls| ==>
      calls[k].pred == MetalSheetsAny() || calls[k].pred == MetalSheets || MetalSheetKey !in Writes(calls[k].pred)
    requires i < j < |calls| && calls[i].pred == MetalSheetsAny() && calls[j].pred == MetalSheetsAny()
    ensures var t := Run(env, calls, ctx, world);
      var bi := BlockAt(world, calls[i].pos);
      var bj := BlockAt(world, calls[j].pos);
      && |t.verdicts| == |calls|
      && (t.verdicts[i] == Accept ==>
            && bi.Colored? && bi.family in {MetalSheet, LargeMetalSheet}
            && (t.verdicts[j] == Accept <==> bj.Colored? && bj.family == bi.family && bj.color == bi.color)
            && ((bj.Colored? && bj.family in {MetalSheet, LargeMetalSheet} && (bj.family != bi.family || bj.color != bi.color))
                  ==> t.errors[j] == Some(MetalSheetsError)))
  {
    var calls' := SheetsNormalAll(calls);
    SheetsNormalPass(env, calls, ctx, world);
    assert calls'[i] == Call(MetalSheets, calls[i].pos);
    assert calls'[j] == Call(MetalSheets, calls[j].pos);
    LockAgreement(MetalSheets, env, calls', ctx, world, i, j);
    AcceptedOffers(MetalSheets, env, calls', ctx, world, i);
    var t := Run(env, calls, ctx, world);
    if t.verdicts[i] == Accept {
      SheetOffersAgree(BlockAt(world, calls[i].pos), BlockAt(world, calls[j].pos));
    }
  }
}
