/**
 * The metadata entry point of a table: a name looked up among the
 * registered handlers, of which there is one, "splits", taking a single
 * split size. The splits themselves are computed by the shard splitter,
 * which is not part of this model; a successful call yields the request it
 * would receive.
 */
module Metadata {
  import opened Wrappers
  import opened Cql
  import opened Tables

  /** The names `registerMetaHandlers` registers. */
  const HandlerNames: set<string> := {"splits"}

  /** What the splits handler asks the shard splitter for: the splits of `table` from 0, of `splitSize` each. */
  datatype SplitsRequest = SplitsRequest(table: string, start: int, splitSize: int)

  /** A Java `long`. */
  type Long = x: int | -0x8000_0000_0000_0000 <= x < 0x8000_0000_0000_0000

  /**
   * One of the `Object... args` a metadata call passes: null, a boxed `Long`,
   * or an object of any other class (an `Integer`, a `Double`, a `String`).
   */
  datatype Arg = NullArg | LongArg(value: Long) | OtherArg(className: string)

  /**
   * The "splits" handler: exactly one argument, which the cast `(long) args[0]`
   * unboxes; only a boxed `Long` survives it, null fails on unboxing and any
   * other class fails the cast.
   */
  function SplitsHandler(t: Table, meta: string, args: seq<Arg>): (r: Result<SplitsRequest, Error>)
    ensures r.Ok? <==> |args| == 1 && args[0].LongArg?
    ensures r.Ok? ==> r.value == SplitsRequest(t.Name(), 0, args[0].value)
    ensures |args| != 1 ==> r.Err? && r.error.IllegalArgument?
    ensures |args| == 1 && args[0].NullArg? ==> r == Err(NullPointer)
    ensures |args| == 1 && args[0].OtherArg? ==> r == Err(ClassCast("Long"))
  {
    if |args| != 1 then Err(IllegalArgument("The args count of " + meta + " must be 1"))
    else match args[0]
      case LongArg(n) => Ok(SplitsRequest(t.Name(), 0, n))
      case NullArg => Err(NullPointer)
      case OtherArg(_) => Err(ClassCast("Long"))
  }

  /** `metadata(session, meta, args)`: an unregistered name fails, a registered one runs its handler. */
  function Metadata(t: Table, meta: string, args: seq<Arg>): (r: Result<SplitsRequest, Error>)
    ensures meta !in HandlerNames ==> r == Err(InvalidMetadataName(meta))
    ensures meta in HandlerNames ==> r == SplitsHandler(t, meta, args)
  {
    if meta !in HandlerNames then Err(InvalidMetadataName(meta))
    else SplitsHandler(t, meta, args)
  }

  /**
   * A metadata call succeeds exactly for "splits" with one boxed `Long` argument,
   * and then asks for the splits of this table with that size; the name is
   * checked before the arguments.
   */
  lemma MetadataSucceedsOnlyForSplits(t: Table, meta: string, args: seq<Arg>)
    ensures Metadata(t, meta, args).Ok? <==> meta == "splits" && |args| == 1 && args[0].LongArg?
    ensures Metadata(t, meta, args).Ok? ==>
              Metadata(t, meta, args).value == SplitsRequest(t.Name(), 0, args[0].value)
    ensures meta != "splits" ==> Metadata(t, meta, args) == Err(InvalidMetadataName(meta))
  {
  }
}
