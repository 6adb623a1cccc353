/**
 * Values of the telemetry event log: events, construction options, the
 * schema admission gate and the flush-interval arithmetic.
 * Models the pure parts of src/eventlog.ts.
 */
module Events {

  datatype Option<+T> = None | Some(value: T)

  /**
   * One telemetry event. The body is producer-defined and is never
   * inspected by the log, so it is an opaque type parameter.
   */
  datatype Event<B> = Event(schema: string, version: int, body: B)

  /**
   * Construction options. The command registry is a host object; all the
   * log does with it is subscribe to it, so only its presence is kept.
   */
  datatype Options<H> = Options(
    allowedSchemas: seq<string>,
    handlers: seq<H>,
    hasCommandRegistry: bool,
    commandEmitIntervalSeconds: Option<real>)

  /** Namespace under which command executions are published. */
  const CommandSchemaPrefix: string := "org.jupyterlab.commands."

  /** Flush period used when no interval is configured. */
  const DefaultIntervalSeconds: real := 120.0

  /** Schema id of the event published for the command `id`. */
  function CommandSchema(id: string): (s: string)
    ensures |s| == |CommandSchemaPrefix| + |id|
    ensures s[..|CommandSchemaPrefix|] == CommandSchemaPrefix
    ensures s[|CommandSchemaPrefix|..] == id
  {
    CommandSchemaPrefix + id
  }

  /** The command id a command schema was built from, if it is one. */
  function CommandIdOf(schema: string): (r: Option<string>)
    ensures r.Some? <==> |schema| >= |CommandSchemaPrefix| && schema[..|CommandSchemaPrefix|] == CommandSchemaPrefix
    ensures r.Some? ==> CommandSchema(r.value) == schema
  {
    if |schema| >= |CommandSchemaPrefix| && schema[..|CommandSchemaPrefix|] == CommandSchemaPrefix
    then Some(schema[|CommandSchemaPrefix|..])
    else None
  }

  /** Recovering the command id from its schema gives the id back. */
  lemma CommandSchemaRoundTrip(id: string)
    ensures CommandIdOf(CommandSchema(id)) == Some(id)
  {
  }

  /** Distinct commands get distinct schemas. */
  lemma CommandSchemaInjective(a: string, b: string)
    ensures CommandSchema(a) == CommandSchema(b) ==> a == b
  {
  }

  /** The event built for one execution of command `id` with arguments `args`. */
  function CommandEvent<B>(id: string, args: B): (e: Event<B>)
    ensures CommandIdOf(e.schema) == Some(id)
    ensures e.version == 1 && e.body == args
  {
    Event(CommandSchema(id), 1, args)
  }

  /**
   * Position of the first occurrence of `x` in `list`, or -1 when there is
   * none (the semantics of Array.prototype.indexOf).
   */
  function IndexOf<T(==)>(list: seq<T>, x: T): (r: int)
    ensures -1 <= r < |list|
    ensures r == -1 <==> x !in list
    ensures 0 <= r ==> list[r] == x && x !in list[..r]
  {
    if list == [] then -1
    else if list[0] == x then 0
    else
      var k := IndexOf(list[1..], x);
      if k == -1 then -1 else k + 1
  }

  /** The allow-list gate: a schema is admitted exactly when it is listed. */
  function IsSchemaWhitelisted(allowedSchemas: seq<string>, schema: string): (r: bool)
    ensures r <==> schema in allowedSchemas
    ensures allowedSchemas == [] ==> !r
  {
    IndexOf(allowedSchemas, schema) > -1
  }

  /** Structural validation hook; every event passes it. */
  function IsSchemaValid<B>(event: Event<B>): (r: bool)
    ensures r
  {
    true
  }

  /**
   * Period in milliseconds of the flush timer: the configured number of
   * seconds times 1000, or 120 seconds when none is configured. No value
   * is rejected.
   */
  function FlushIntervalMs(seconds: Option<real>): (ms: real)
    ensures seconds.Some? ==> ms / 1000.0 == seconds.value
    ensures seconds.None? ==> ms == 120000.0
  {
    if seconds.Some? then seconds.value * 1000.0 else DefaultIntervalSeconds * 1000.0
  }
}
