/**
 * The EventLog class of src/eventlog.ts. The read-only fields of the source
 * are constants; the signal's connections, the command buffer and the
 * history of emitted batches are the state its methods update. Each method
 * is proved against the matching function of LogState.
 */
module EventLogs {
  import opened Events
  import opened Signals
  import LogState

  class EventLog<H(==), B> {
    const handlers: seq<H>
    const allowedSchemas: seq<string>
    /** Whether the log subscribed to a command registry. */
    const commandEventsEnabled: bool
    /** Period in ms of the flush timer; None when no timer was started. */
    const flushIntervalMs: Option<real>

    /** Handlers connected to the event signal, in connection order. */
    var slots: seq<H>
    /** Admitted command events awaiting the next flush. */
    var commandLog: seq<Event<B>>
    /** Every batch emitted on the event signal, in emission order. */
    var emitted: seq<seq<Event<B>>>

    function Model(): LogState.State<H, B>
      reads this
    {
      LogState.State(allowedSchemas, slots, commandEventsEnabled, commandLog, emitted)
    }

    ghost predicate Valid()
      reads this
    {
      && LogState.Inv(Model())
      && (forall h :: h in handlers ==> h in slots)
      && (forall h :: h in slots ==> h in handlers)
      && (commandEventsEnabled <==> flushIntervalMs.Some?)
    }

    /**
     * Connects every handler to the event signal; subscribes to command
     * executions and starts the flush timer only when a command registry
     * is given.
     */
    constructor (options: Options<H>)
      ensures Valid()
      ensures Model() == LogState.Init(options)
      ensures handlers == options.handlers
      ensures flushIntervalMs ==
                if options.hasCommandRegistry then Some(FlushIntervalMs(options.commandEmitIntervalSeconds)) else None
    {
      handlers := options.handlers;
      allowedSchemas := options.allowedSchemas;
      commandEventsEnabled := options.hasCommandRegistry;
      flushIntervalMs :=
        if options.hasCommandRegistry then Some(FlushIntervalMs(options.commandEmitIntervalSeconds)) else None;
      slots := [];
      commandLog := [];
      emitted := [];
      new;
      for i := 0 to |handlers|
        invariant slots == ConnectAll(handlers[..i])
        invariant commandLog == [] && emitted == []
      {
        ConnectAllPrefix(handlers, i);
        slots := Connect(slots, handlers[i]);
      }
      assert handlers[..|handlers|] == handlers;
      assert Model() == LogState.Init(options);
    }

    /** Emits `batch` on the event signal: every connected handler sees it. */
    method Emit(batch: seq<Event<B>>)
      modifies this`emitted
      ensures emitted == old(emitted) + [batch]
    {
      emitted := emitted + [batch];
    }

    /**
     * Emits an admitted event at once as a one-element batch; a rejected
     * event changes nothing.
     */
    method RecordEvent(event: Event<B>)
      requires Valid()
      modifies this
      ensures Valid()
      ensures Model() == LogState.RecordEvent(old(Model()), event)
    {
      if !IsSchemaWhitelisted(allowedSchemas, event.schema) {
        return;
      }
      if !IsSchemaValid(event) {
        return;
      }
      Emit([event]);
    }

    /**
     * The command registry's command-executed notification: buffers the
     * command's event when its schema is admitted. Without a registry
     * nothing listens and nothing changes.
     */
    method OnCommandExecuted(id: string, args: B)
      requires Valid()
      modifies this
      ensures Valid()
      ensures Model() == LogState.OnCommandExecuted(old(Model()), id, args)
    {
      if !commandEventsEnabled {
        return;
      }
      var commandEventSchema := CommandSchema(id);
      if IsSchemaWhitelisted(allowedSchemas, commandEventSchema) {
        CommandSchemaRoundTrip(id);
        commandLog := commandLog + [Event(CommandSchema(id), 1, args)];
      }
    }

    /**
     * One tick of the flush timer: drains the buffer and emits its events
     * as one batch, or does nothing when the buffer is empty.
     */
    method SaveLog()
      requires Valid()
      modifies this
      ensures Valid()
      ensures Model() == LogState.SaveLog(old(Model()))
    {
      if |commandLog| == 0 {
        return;
      }
      var outgoing := commandLog;
      commandLog := [];
      Emit(outgoing);
    }
  }
}
