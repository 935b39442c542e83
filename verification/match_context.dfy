/**
  The match context the host threads through one validation pass: a map
  from string keys to small values, read and written only through the
  host's get-or-put.
 */
module MatchContext {

  import opened Wrappers
  import opened Blocks

  /** The values stored under context keys. */
  datatype Value =
    | CoilValue(coil: CoolingCoilType)
    | BrickValue(brick: SinteringBrickType)
    | ByteValue(b: bv8)
    | Positions(list: seq<Pos>)
    | HostValue(id: nat)   // anything the host or some other predicate put there

  type Context = map<string, Value>

  function Lookup(ctx: Context, key: string): Option<Value> {
    if key in ctx then Some(ctx[key]) else None
  }

  /**
    The host's getOrPut, first write wins: the value already under `key`
    if there is one, otherwise `default`, which is then stored.
   */
  function GetOrPut(ctx: Context, key: string, default: Value): (r: (Value, Context))
    ensures key in r.1 && r.1[key] == r.0
    ensures key !in ctx ==> r.0 == default
    ensures r.1.Keys == ctx.Keys + {key}
    ensures forall k :: k in ctx ==> r.1[k] == ctx[k]
  {
    if key in ctx then (ctx[key], ctx) else (default, ctx[key := default])
  }

  /** `key` is absent or holds a list of positions. */
  predicate HoldsList(ctx: Context, key: string) {
    key !in ctx || ctx[key].Positions?
  }

  /** The list of positions under `key`; empty when there is none. */
  function ListOf(ctx: Context, key: string): seq<Pos> {
    if key in ctx && ctx[key].Positions? then ctx[key].list else []
  }

  /**
    `getOrPut(key, new LinkedList<>()).add(pos)`. None stands for the cast
    failure the host raises when `key` holds something that is not a list.
   */
  function AddToList(ctx: Context, key: string, pos: Pos): (r: Option<Context>)
    ensures r.Some? <==> HoldsList(ctx, key)
    ensures r.Some? ==> r.value == ctx[key := Positions(ListOf(ctx, key) + [pos])]
  {
    var (current, ctx') := GetOrPut(ctx, key, Positions([]));
    if current.Positions? then Some(ctx'[key := Positions(current.list + [pos])]) else None
  }
}
