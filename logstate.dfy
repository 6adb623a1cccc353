/**
 * The event log's state and its operations as values: what the log holds
 * (allow-list, signal connections, whether command events are enabled, the
 * buffered command log and the history of emitted batches) and what each of
 * recordEvent, the command-executed callback and the timer's saveLog does to
 * it. The class in eventlog.dfy is proved against these functions.
 */
module LogState {
  import opened Events
  import opened Signals

  datatype State<H, B> = State(
    allowedSchemas: seq<string>,
    slots: seq<H>,
    commandEvents: bool,
    commandLog: seq<Event<B>>,
    emitted: seq<seq<Event<B>>>)

  /** What reaches the log from outside: a producer, the command registry, the flush timer. */
  datatype Input<B> =
    | Recorded(event: Event<B>)
    | Executed(id: string, args: B)
    | Tick

  /**
   * The invariant of a log: no slot connected twice; nothing buffered
   * unless command events are enabled; the buffer holds only admitted
   * version-1 command events; every emitted batch is non-empty and holds
   * only admitted events.
   */
  ghost predicate Inv<H, B>(st: State<H, B>) {
    && NoDup(st.slots)
    && (!st.commandEvents ==> st.commandLog == [])
    && (forall e :: e in st.commandLog ==>
          e.schema in st.allowedSchemas && e.version == 1 && CommandIdOf(e.schema).Some?)
    && (forall b :: b in st.emitted ==> b != [] && forall e :: e in b ==> e.schema in st.allowedSchemas)
  }

  /** The log right after construction. */
  function Init<H(==), B>(options: Options<H>): (st: State<H, B>)
    ensures Inv(st)
    ensures st.allowedSchemas == options.allowedSchemas
    ensures forall h :: h in options.handlers ==> h in st.slots
    ensures forall h :: h in st.slots ==> h in options.handlers
    ensures st.commandEvents == options.hasCommandRegistry
    ensures st.commandLog == [] && st.emitted == []
  {
    State(options.allowedSchemas, ConnectAll(options.handlers), options.hasCommandRegistry, [], [])
  }

  /** True when the configuration part of the state is the same. */
  ghost predicate SameConfig<H, B>(a: State<H, B>, b: State<H, B>) {
    a.allowedSchemas == b.allowedSchemas && a.slots == b.slots && a.commandEvents == b.commandEvents
  }

  /**
   * recordEvent: an admitted event is emitted at once as a one-element
   * batch; a rejected one changes nothing; the buffer is never touched.
   */
  function RecordEvent<H, B>(st: State<H, B>, event: Event<B>): (r: State<H, B>)
    ensures SameConfig(r, st) && r.commandLog == st.commandLog
    ensures event.schema in st.allowedSchemas ==> r.emitted == st.emitted + [[event]]
    ensures event.schema !in st.allowedSchemas ==> r == st
  {
    if IsSchemaWhitelisted(st.allowedSchemas, event.schema) && IsSchemaValid(event)
    then st.(emitted := st.emitted + [[event]])
    else st
  }

  /**
   * The command-executed callback: the command's event is appended to the
   * buffer when its schema is admitted; nothing is emitted. Without a
   * command registry no callback is connected and nothing changes.
   */
  function OnCommandExecuted<H, B>(st: State<H, B>, id: string, args: B): (r: State<H, B>)
    ensures SameConfig(r, st) && r.emitted == st.emitted
    ensures st.commandEvents && CommandSchema(id) in st.allowedSchemas ==>
              r.commandLog == st.commandLog + [CommandEvent(id, args)]
    ensures !(st.commandEvents && CommandSchema(id) in st.allowedSchemas) ==> r == st
  {
    if !st.commandEvents then st
    else if IsSchemaWhitelisted(st.allowedSchemas, CommandSchema(id))
    then st.(commandLog := st.commandLog + [Event(CommandSchema(id), 1, args)])
    else st
  }

  /**
   * saveLog: drains the whole buffer and emits it as one batch in append
   * order; with an empty buffer nothing happens.
   */
  function SaveLog<H, B>(st: State<H, B>): (r: State<H, B>)
    ensures SameConfig(r, st) && r.commandLog == []
    ensures st.commandLog == [] ==> r == st
    ensures st.commandLog != [] ==> r.emitted == st.emitted + [st.commandLog]
  {
    if |st.commandLog| == 0 then st
    else st.(commandLog := [], emitted := st.emitted + [st.commandLog])
  }

  /** A second flush right after a flush does nothing. */
  lemma SaveLogTwice<H, B>(st: State<H, B>)
    ensures SaveLog(SaveLog(st)) == SaveLog(st)
  {
  }

  /** One input. The timer exists only when command events are enabled. */
  function Step<H, B>(st: State<H, B>, input: Input<B>): State<H, B>
  {
    match input
    case Recorded(e) => RecordEvent(st, e)
    case Executed(id, args) => OnCommandExecuted(st, id, args)
    case Tick => if st.commandEvents then SaveLog(st) else st
  }

  /** Inputs processed one after another. */
  function Run<H, B>(st: State<H, B>, inputs: seq<Input<B>>): State<H, B>
    decreases |inputs|
  {
    if inputs == [] then st else Run(Step(st, inputs[0]), inputs[1..])
  }

  lemma StepKeepsInv<H, B>(st: State<H, B>, input: Input<B>)
    requires Inv(st)
    ensures Inv(Step(st, input)) && SameConfig(Step(st, input), st)
  {
    match input
    case Recorded(e) =>
    case Executed(id, args) =>
      CommandSchemaRoundTrip(id);
    case Tick =>
  }

  /**
   * Whatever the inputs, the invariant holds throughout: in particular no
   * event whose schema is not admitted is ever buffered or emitted.
   */
  lemma {:induction false} RunKeepsInv<H, B>(st: State<H, B>, inputs: seq<Input<B>>)
    requires Inv(st)
    ensures Inv(Run(st, inputs)) && SameConfig(Run(st, inputs), st)
    decreases |inputs|
  {
    if inputs != [] {
      StepKeepsInv(st, inputs[0]);
      RunKeepsInv(Step(st, inputs[0]), inputs[1..]);
    }
  }

  /** The events an input lets through the gate, independently of the buffer. */
  function Admitted<B>(allowedSchemas: seq<string>, commandEvents: bool, input: Input<B>): seq<Event<B>>
  {
    match input
    case Recorded(e) => if e.schema in allowedSchemas then [e] else []
    case Executed(id, args) =>
      if commandEvents && CommandSchema(id) in allowedSchemas then [CommandEvent(id, args)] else []
    case Tick => []
  }

  function AllAdmitted<B>(allowedSchemas: seq<string>, commandEvents: bool, inputs: seq<Input<B>>): seq<Event<B>>
  {
    if inputs == [] then []
    else Admitted(allowedSchemas, commandEvents, inputs[0]) + AllAdmitted(allowedSchemas, commandEvents, inputs[1..])
  }

  /** All events of a batch history, in emission order. */
  function Flatten<E>(batches: seq<seq<E>>): seq<E>
  {
    if batches == [] then [] else Flatten(batches[..|batches| - 1]) + batches[|batches| - 1]
  }

  lemma FlattenSnoc<E>(batches: seq<seq<E>>, b: seq<E>)
    ensures Flatten(batches + [b]) == Flatten(batches) + b
  {
    assert (batches + [b])[..|batches|] == batches;
  }

  /** Every event the log has accepted and not lost: emitted or still buffered. */
  ghost function Held<H, B>(st: State<H, B>): multiset<Event<B>>
  {
    multiset(Flatten(st.emitted)) + multiset(st.commandLog)
  }

  lemma StepConservesEvents<H, B>(st: State<H, B>, input: Input<B>)
    ensures st.emitted <= Step(st, input).emitted
    ensures Held(Step(st, input)) == Held(st) + multiset(Admitted(st.allowedSchemas, st.commandEvents, input))
  {
    match input
    case Recorded(e) =>
      FlattenSnoc(st.emitted, [e]);
    case Executed(id, args) =>
    case Tick =>
      FlattenSnoc(st.emitted, st.commandLog);
  }

  /**
   * Nothing is lost and nothing is duplicated: after any inputs, the
   * emitted events plus the buffered ones are exactly those held before
   * plus every event the gate admitted, and emitted batches are never
   * withdrawn.
   */
  lemma {:induction false} RunConservesEvents<H, B>(st: State<H, B>, inputs: seq<Input<B>>)
    ensures SameConfig(Run(st, inputs), st)
    ensures st.emitted <= Run(st, inputs).emitted
    ensures Held(Run(st, inputs)) == Held(st) + multiset(AllAdmitted(st.allowedSchemas, st.commandEvents, inputs))
    decreases |inputs|
  {
    if inputs != [] {
      var next := Step(st, inputs[0]);
      StepConservesEvents(st, inputs[0]);
      assert SameConfig(next, st) by {
        match inputs[0]
        case Recorded(e) =>
        case Executed(id, args) =>
        case Tick =>
      }
      RunConservesEvents(next, inputs[1..]);
    }
  }

  lemma {:induction false} RunAppend<H, B>(st: State<H, B>, a: seq<Input<B>>, b: seq<Input<B>>)
    ensures Run(st, a + b) == Run(Run(st, a), b)
    decreases |a|
  {
    if a != [] {
      assert (a + b)[0] == a[0] && (a + b)[1..] == a[1..] + b;
      RunAppend(Step(st, a[0]), a[1..], b);
    } else {
      assert a + b == b;
    }
  }

  /**
   * Command executions alone never emit: each admitted one lands at the
   * tail of the buffer, in execution order.
   */
  lemma {:induction false} CommandsAreBuffered<H, B>(st: State<H, B>, inputs: seq<Input<B>>)
    requires forall k :: 0 <= k < |inputs| ==> inputs[k].Executed?
    ensures SameConfig(Run(st, inputs), st)
    ensures Run(st, inputs).emitted == st.emitted
    ensures Run(st, inputs).commandLog == st.commandLog + AllAdmitted(st.allowedSchemas, st.commandEvents, inputs)
    decreases |inputs|
  {
    if inputs != [] {
      var next := Step(st, inputs[0]);
      CommandsAreBuffered(next, inputs[1..]);
    }
  }

  /**
   * A flush after a run of command executions emits one batch holding what
   * was buffered followed by every admitted command event in execution
   * order, and leaves the buffer empty; it emits nothing when there is
   * nothing to drain.
   */
  lemma FlushDrainsInOrder<H, B>(st: State<H, B>, inputs: seq<Input<B>>)
    requires st.commandEvents
    requires forall k :: 0 <= k < |inputs| ==> inputs[k].Executed?
    ensures var pending := st.commandLog + AllAdmitted(st.allowedSchemas, st.commandEvents, inputs);
            && Run(st, inputs + [Tick]).commandLog == []
            && Run(st, inputs + [Tick]).emitted == st.emitted + (if pending == [] then [] else [pending])
  {
    RunAppend(st, inputs, [Tick]);
    CommandsAreBuffered(st, inputs);
  }

  /**
   * With an empty allow-list and nothing buffered, no input ever leads to
   * an emission or a buffered event.
   */
  lemma {:induction false} EmptyAllowListEmitsNothing<H, B>(st: State<H, B>, inputs: seq<Input<B>>)
    requires st.allowedSchemas == [] && st.commandLog == []
    ensures Run(st, inputs).emitted == st.emitted
    ensures Run(st, inputs).commandLog == []
    decreases |inputs|
  {
    if inputs != [] {
      var next := Step(st, inputs[0]);
      assert next == st;
      EmptyAllowListEmitsNothing(next, inputs[1..]);
    }
  }

  /**
   * After construction and any inputs, every handler given at construction
   * is called exactly once with each emitted batch, in emission order,
   * provided no handler calls back into the log during an emission.
   */
  lemma EveryHandlerReceivesEveryBatch<H, B>(options: Options<H>, inputs: seq<Input<B>>, h: H)
    requires h in options.handlers
    ensures var st := Run(Init(options), inputs);
            ReceivedBy(Deliveries(st.slots, st.emitted), h) == st.emitted
  {
    var st0: State<H, B> := Init(options);
    RunKeepsInv(st0, inputs);
    var st := Run(st0, inputs);
    EverySlotReceivesEveryBatch(st.slots, st.emitted, h);
  }

  /**
   * The configuration the extension starts the log with: three executions
   * of the allowed command docmanager:open followed by one timer tick
   * produce exactly one batch holding the three command events in order.
   */
  lemma DocumentOpenedThriceFlushedOnce<H, B>(h1: H, h2: H, a1: B, a2: B, a3: B)
    ensures var options := Options(["org.jupyter.foo", "org.jupyterlab.commands.docmanager:open"],
                                   [h1, h2], true, Some(2.0));
            var inputs := [Executed("docmanager:open", a1), Executed("docmanager:open", a2),
                           Executed("docmanager:open", a3), Tick];
            Run(Init(options), inputs).emitted ==
              [[CommandEvent("docmanager:open", a1), CommandEvent("docmanager:open", a2),
                CommandEvent("docmanager:open", a3)]]
  {
    var options := Options(["org.jupyter.foo", "org.jupyterlab.commands.docmanager:open"],
                           [h1, h2], true, Some(2.0));
    var st: State<H, B> := Init(options);
    var commands := [Executed("docmanager:open", a1), Executed("docmanager:open", a2),
                     Executed("docmanager:open", a3)];
    assert CommandSchema("docmanager:open") == "org.jupyterlab.commands.docmanager:open";
    assert CommandSchema("docmanager:open") in st.allowedSchemas;
    assert commands + [Tick] == [Executed("docmanager:open", a1), Executed("docmanager:open", a2),
                                 Executed("docmanager:open", a3), Tick];
    var allowed := st.allowedSchemas;
    assert commands[1..] == [Executed("docmanager:open", a2), Executed("docmanager:open", a3)];
    assert commands[1..][1..] == [Executed("docmanager:open", a3)];
    assert AllAdmitted(allowed, true, commands[1..][1..]) == [CommandEvent("docmanager:open", a3)];
    assert AllAdmitted(allowed, true, commands[1..]) ==
      [CommandEvent("docmanager:open", a2), CommandEvent("docmanager:open", a3)];
    assert AllAdmitted(st.allowedSchemas, true, commands) ==
      [CommandEvent("docmanager:open", a1), CommandEvent("docmanager:open", a2),
       CommandEvent("docmanager:open", a3)];
    FlushDrainsInOrder(st, commands);
    assert st.commandLog + AllAdmitted(allowed, st.commandEvents, commands) ==
      [CommandEvent("docmanager:open", a1), CommandEvent("docmanager:open", a2),
       CommandEvent("docmanager:open", a3)];
    assert Run(st, commands + [Tick]).emitted ==
      [[CommandEvent("docmanager:open", a1), CommandEvent("docmanager:open", a2),
        CommandEvent("docmanager:open", a3)]];
  }
}
