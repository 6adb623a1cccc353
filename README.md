# EventLog telemetry log — a Dafny model

This project models the `EventLog` class of the jupyterlab-telemetry
extension (`src/eventlog.ts`). It is a small, sequential telemetry log with
four parts:

- an **admission gate**: an event passes only when its schema id is in the
  allow-list given at construction; the structural validation hook accepts
  every event;
- an **immediate path**: `recordEvent` emits an admitted event on the log's
  signal at once, as a one-element batch;
- a **buffered path**: each execution of a JupyterLab command produces an event
  with schema `org.jupyterlab.commands.<id>`, version 1 and the command's
  arguments as body, which is appended to `commandLog` when admitted;
- a **flush**: `saveLog`, run by a timer, drains `commandLog` in append order
  and emits it as one batch, and does nothing when there is nothing to drain.

Files and modules:

- `events.dfy` (module `Events`): the `Event` and `Options` shapes, the
  command schema, the allow-list gate (`IsSchemaWhitelisted`, built on
  `IndexOf`, the `indexOf` the source uses), the always-true `IsSchemaValid`
  hook and the flush-period arithmetic.
- `signals.dfy` (module `Signals`): the event signal as values. Connecting a
  handler that is already connected changes nothing, which is how the
  `@phosphor/signaling` `connect` the constructor calls behaves. An emission
  calls every connected handler once, in connection order (`Fanout`,
  `Deliveries`, `ReceivedBy`), and is treated as one atomic step (see
  "Left out" on handlers that call back into the log).
- `logstate.dfy` (module `LogState`): the log's state as a value (allow-list,
  connections, whether command events are on, `commandLog`, the history of
  emitted batches), the three operations as functions of it, the invariant
  `Inv`, and the lemmas that relate several operations: a run of inputs
  (`Run` over `Recorded`, `Executed`, `Tick`) keeps the invariant, loses and
  duplicates no event, buffers command events in order, and flushes them as
  one batch.
- `eventlog.dfy` (module `EventLogs`): the class `EventLog`. Its read-only
  fields are constants. The signal's connections (`slots`), `commandLog` and
  the emitted-batch history (`emitted`) are the fields its methods update.
  Each method's `ensures` ties the new state to the matching `LogState`
  function of the old state and keeps `Valid()`.

Emission on the signal is modelled as appending the batch to `emitted`; which
handler saw which batch is `ReceivedBy(Deliveries(slots, emitted), h)`. The
command registry's `commandExecuted` notification is the method
`OnCommandExecuted(id, args)`. The timer's callback is the method `SaveLog`,
which the environment may call at any time. The timer period is computed and
kept in `flushIntervalMs`.

`recordEvent` returns no result value. The code has no `dispose`, no
unsubscription, no method to change the allow-list, and no validation of the
interval.

## Model

| member | source | states |
|---|---|---|
| `Events.CommandEvent` | src/eventlog.ts:73-79 | the event built for a command execution carries the schema of that command id (the id is recovered from it), version 1, and the command's arguments as body |
| `Events.CommandIdOf` | src/eventlog.ts:73 | a schema is a command schema exactly when it starts with `org.jupyterlab.commands.`, and then it is the command schema of the id that follows the prefix |
| `Events.CommandSchemaInjective` | src/eventlog.ts:73 | two commands with the same schema are the same command |
| `Events.IndexOf` | src/eventlog.ts:59 | the result is -1 exactly when the schema is absent; otherwise it is the position of its first occurrence |
| `Events.IsSchemaWhitelisted` | src/eventlog.ts:58-62 | true exactly when the schema occurs in the allow-list; an empty allow-list admits nothing |
| `Events.IsSchemaValid` | src/eventlog.ts:51-53 | every event passes the structural check |
| `Events.FlushIntervalMs` | src/eventlog.ts:89 | the timer period is the configured number of seconds times 1000 (dividing it by 1000 gives the seconds back), and 120000 ms when none is configured |
| `Signals.Connect` | src/eventlog.ts:16-18 | connecting keeps the earlier connections in order, adds the handler when it is new, and never connects a handler twice |
| `Signals.ConnectAll` | src/eventlog.ts:16-18 | after connecting every handler, exactly the given handlers are connected, each once |
| `Signals.FanoutReachesEachSlotOnce` | src/eventlog.ts:45 | one emission calls each connected handler exactly once with the batch, and no other handler |
| `Signals.EverySlotReceivesEveryBatch` | src/eventlog.ts:87 | each connected handler receives every emitted batch exactly once and, when no handler calls back into the log during an emission, in emission order; a handler that is not connected receives nothing |
| `LogState.Init` | src/eventlog.ts:10-24 | a new log keeps the allow-list, connects exactly the given handlers, enables command events exactly when a registry is given, and starts with nothing buffered and nothing emitted |
| `LogState.RecordEvent` | src/eventlog.ts:35-46 | an event whose schema is in the allow-list is emitted as the batch `[event]`, unmodified; any other event changes nothing; the buffer is never touched |
| `LogState.OnCommandExecuted` | src/eventlog.ts:72-81 | with a registry, an admitted command's event is appended at the tail of the buffer; otherwise nothing changes; nothing is emitted |
| `LogState.SaveLog` | src/eventlog.ts:82-88 | the buffer is left empty; an empty buffer emits nothing and changes nothing; a non-empty one is emitted as one batch equal to the buffer in append order |
| `LogState.SaveLogTwice` | src/eventlog.ts:83-86 | a second flush right after a flush emits nothing and changes nothing |
| `LogState.RunKeepsInv` | src/eventlog.ts:35-88 | under any inputs, no handler is connected twice, the buffer holds only admitted version-1 command events, and every emitted batch is non-empty and holds only admitted events |
| `LogState.RunConservesEvents` | src/eventlog.ts:35-88 | under any inputs, the emitted plus buffered events are exactly those held before plus every admitted event, with none lost or duplicated, and emitted batches are never withdrawn |
| `LogState.CommandsAreBuffered` | src/eventlog.ts:72-81 | command executions alone emit nothing and append the admitted command events to the buffer in execution order |
| `LogState.FlushDrainsInOrder` | src/eventlog.ts:82-88 | a flush after command executions emits one batch equal to the earlier buffer followed by the admitted command events in order, or nothing when that is empty, and leaves the buffer empty |
| `LogState.EmptyAllowListEmitsNothing` | src/eventlog.ts:35-38 | with an empty allow-list and an empty buffer, no input leads to any emission or buffered event |
| `LogState.EveryHandlerReceivesEveryBatch` | src/eventlog.ts:16-18 | after construction and any inputs, every handler given at construction receives each emitted batch exactly once, in emission order when no handler calls back into the log during an emission |
| `LogState.DocumentOpenedThriceFlushedOnce` | src/eventlog.ts:72-89 | with `org.jupyterlab.commands.docmanager:open` allowed, three executions of that command followed by one tick emit exactly one batch of the three command events in order |
| `EventLogs.EventLog.constructor` | src/eventlog.ts:10-25 | the new object is valid, its state is `LogState.Init(options)`, and a flush timer period is recorded exactly when a command registry is given |
| `EventLogs.EventLog.Emit` | src/eventlog.ts:45 | an emission appends the batch to the emitted history and changes nothing else |
| `EventLogs.EventLog.RecordEvent` | src/eventlog.ts:35-46 | the new state is `LogState.RecordEvent` of the old one, and validity is kept |
| `EventLogs.EventLog.OnCommandExecuted` | src/eventlog.ts:72-81 | the new state is `LogState.OnCommandExecuted` of the old one, and validity is kept |
| `EventLogs.EventLog.SaveLog` | src/eventlog.ts:82-88 | the new state is `LogState.SaveLog` of the old one, and validity is kept |

## Left out

- The real timer (`setInterval`): flushing is the method `SaveLog` (and the input `Tick`), which the environment may call at any time. Only the period arithmetic is modelled.
- The `@phosphor/signaling` `Signal` and `Slot` types: emission is an append to a history of batches, and a handler's calls are derived from that history. Exceptions raised inside a handler are not modelled.
- The `@phosphor/commands` `CommandRegistry`: only whether one was given is kept. Its `commandExecuted` notification is the method `OnCommandExecuted(id, args)`.
- `console.log` calls in the constructor and in `isSchemaWhitelisted`: they are output only and change no state.
- `recordEvent` is declared to return `Promise<void>` but returns nothing. The model has no asynchronous behaviour and no result value.
- `Event.version` is a JavaScript number. It is modelled as an unbounded integer; non-integer versions are not represented.
- `Events.FlushIntervalMs`: the seconds value is a JavaScript floating-point number. It is modelled as an exact real, so rounding of the multiplication is not captured.
- The event body and the command arguments are opaque values of a type parameter and are never inspected.
- `src/index.ts` is the extension's start-up glue and console handlers. It is not part of this model. It also calls `dispose` and names `EventLog.RecordedEvent`, and neither exists in `src/eventlog.ts`.
- Disposal, unsubscription, a method to change the allow-list, and concurrency are not present in the code and are not modelled.
- The allow-list is held by reference (src/eventlog.ts:12). A caller that mutates the array it passed changes later admission. The model copies the list at construction.
- Re-entrant handlers: each emission is modelled as one atomic step, and handlers are assumed not to call back into the log while an emission is in progress. A handler receives the `EventLog` as sender (src/eventlog.ts:5) and `recordEvent` is public (src/eventlog.ts:35), so a handler that calls `recordEvent` during an emission makes the handlers after it receive that nested batch before the batch that encloses it. Each batch still reaches each handler exactly once, but "in emission order" in `Signals.EverySlotReceivesEveryBatch` and `LogState.EveryHandlerReceivesEveryBatch` holds only for handlers that do not call back.
