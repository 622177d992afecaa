# RaspberryIoT sensor core in Dafny

A model of the core of the RaspberryIoT demo: a Raspberry Pi sensor whose state
changes are recorded in two SQLite tables, one for status rows and one for events,
and served back over HTTP. Inserts append. Only the status table has an update,
which overwrites a row in place. Every row has an AUTOINCREMENT `RowId`
that clients use as a poll cursor. It also has a unique GUID `Id`.

The model covers these parts:

- **Domain** (`domain.dfy`): the status, LED colour and event type enumerations.
  Each has its stored text name and an exact-name parser. `Fault` covers the three
  ways a call can end in an exception: an unknown enum name, a duplicate `Id`, and
  an unreachable store.
- **Status and event repositories** (`status_repository.dfy`,
  `event_repository.dfy`). Each table is a sequence of rows in insertion order,
  with the next `RowId`. Every operation is a pure function:
  - insert;
  - lookup by id;
  - listing newest first (the event listing takes an optional type filter);
  - the poll "RowId greater than the cursor, newest first";
  - the current status of a sensor (greatest `Timestamp`);
  - the status update.

  `Valid` is the table invariant:
  - names parse. The schema declares these columns as plain `TEXT NOT NULL`; the
    names stay parseable only because every writer stores the enumeration's name;
  - RowIds strictly increase and stay below the next RowId (AUTOINCREMENT);
  - ids are unique (the `UNIQUE` constraint).
- **Orchestrator** (`orchestrator.dfy`): the three transition handlers. Each one
  inserts a status row and then an event row, with a fixed status, colour and event
  label. It never reads prior state. An exception in the first insert stops the
  handler. An exception in the second leaves the status row behind.
- **Services** (`status_service.dfy`, `event_service.dfy`):
  - request validation by enum parsing, which fails before any write;
  - force-error and force-reboot, which write a status row only;
  - the event filter, where a blank or unknown filter means no filter;
  - responses. A create response carries RowId 0: the store assigns the RowId,
    but the repository never copies it back into the entity that is mapped.
- **Worker** (`worker.dfy`):
  - the simulated GPIO reading, with thresholds 80 and 95;
  - the change detector, which starts from Green and calls the orchestrator only
    on a change to Red or Off;
  - retry semantics: the previous colour is replaced only after a call that does
    not throw.
- **Hardware** (`button_monitor.dfy`, `rgb_led.dfy`, `led_controller.dfy`):
  - the button's falling-edge detector;
  - the RGB colour table and `SetColorForSensor`;
  - the two-LED controller.

`seqs.dfy` holds generic sequence facts: filtering, reversal, and ordering by a
key. `wrappers.dfy` holds `Option` and `Result`.

Some inputs become parameters of the pure functions:

- the clock (`now`, and two readings for the update);
- fresh GUIDs;
- the random draw;
- whether each store call reaches the database (`storeUp`).

## Model

| member | source | states |
|---|---|---|
| Domain.ParseStatus | RaspberryIoT/RaspberryIoT.Infrastructure/Repositories/SensorStatusRepository.cs:122-136 | a stored status name parses to the status it names, and a name no status carries does not parse |
| Domain.ParseLedColor | RaspberryIoT/RaspberryIoT.Infrastructure/Repositories/SensorStatusRepository.cs:122-136 | a stored colour name parses to the colour it names, and a name no colour carries does not parse |
| Domain.ParseEventType | RaspberryIoT/RaspberryIoT.Infrastructure/Repositories/SensorEventRepository.cs:84-96 | a stored event type name parses to the type it names, and an unknown name does not parse |
| Domain.StatusNameRoundTrip | RaspberryIoT/RaspberryIoT.Infrastructure/Repositories/SensorStatusRepository.cs:30 | a status name written by an insert (line 30) and parsed by the row mapping (line 129) gives back the status written |
| Domain.LedColorNameRoundTrip | RaspberryIoT/RaspberryIoT.Infrastructure/Repositories/SensorStatusRepository.cs:31 | a colour name written by an insert (line 31) and parsed by the row mapping (line 130) gives back the colour written |
| Domain.EventTypeNameRoundTrip | RaspberryIoT/RaspberryIoT.Infrastructure/Repositories/SensorEventRepository.cs:29 | an event type name written by an insert (line 29) and parsed by the row mapping (line 90) gives back the type written |
| StatusRepository.Create | RaspberryIoT/RaspberryIoT.Infrastructure/Repositories/SensorStatusRepository.cs:17-39 | insert keeps the table valid and appends exactly one row; the row reads back as the entity with the assigned RowId, which exceeds every earlier RowId; a duplicate Id or unreachable store is an error that changes nothing |
| StatusRepository.StoredRowRoundTrip | RaspberryIoT/RaspberryIoT.Infrastructure/Repositories/SensorStatusRepository.cs:122-136 | reading back a stored row gives the entity that was stored |
| StatusRepository.GetById | RaspberryIoT/RaspberryIoT.Infrastructure/Repositories/SensorStatusRepository.cs:41-50 | absent exactly when no row has the id; otherwise the unique row with that id |
| StatusRepository.GetAll | RaspberryIoT/RaspberryIoT.Infrastructure/Repositories/SensorStatusRepository.cs:52-60 | every stored row exactly once, in strictly decreasing RowId order |
| StatusRepository.GetCurrentBySensorId | RaspberryIoT/RaspberryIoT.Infrastructure/Repositories/SensorStatusRepository.cs:62-76 | absent exactly when the sensor has no row; otherwise a row of that sensor whose Timestamp no row of the sensor exceeds |
| StatusRepository.GetNewSince | RaspberryIoT/RaspberryIoT.Infrastructure/Repositories/SensorStatusRepository.cs:78-91 | exactly the stored rows with RowId above the cursor, newest first |
| StatusRepository.Update | RaspberryIoT/RaspberryIoT.Infrastructure/Repositories/SensorStatusRepository.cs:93-120 | reports a change exactly when the id exists; that row takes the new fields but keeps its RowId, Id and CreatedAt; every other row is unchanged, and an unknown id changes nothing |
| StatusRepository.PollFromZeroIsAll | RaspberryIoT/RaspberryIoT.Infrastructure/Repositories/SensorStatusRepository.cs:78-91 | polling from cursor 0 returns the whole newest-first listing |
| StatusRepository.PollPrefix | RaspberryIoT/RaspberryIoT.Infrastructure/Repositories/SensorStatusRepository.cs:78-91 | a poll from a later cursor returns a prefix of a poll from an earlier one |
| StatusRepository.PollAfterCreate | RaspberryIoT/RaspberryIoT.Infrastructure/Repositories/SensorStatusRepository.cs:78-91 | after an insert, a poll returns the new row first (when it is past the cursor), followed by the earlier poll |
| EventRepository.Create | RaspberryIoT/RaspberryIoT.Infrastructure/Repositories/SensorEventRepository.cs:17-37 | insert keeps the table valid and appends exactly the event with the assigned RowId; a duplicate Id or unreachable store changes nothing |
| EventRepository.StoredRowRoundTrip | RaspberryIoT/RaspberryIoT.Infrastructure/Repositories/SensorEventRepository.cs:84-96 | reading back a stored event row gives the event that was stored |
| EventRepository.GetById | RaspberryIoT/RaspberryIoT.Infrastructure/Repositories/SensorEventRepository.cs:39-48 | absent exactly when no event has the id; otherwise the unique event with that id |
| EventRepository.GetAll | RaspberryIoT/RaspberryIoT.Infrastructure/Repositories/SensorEventRepository.cs:50-67 | exactly the stored events that pass the optional type filter (all of them without one), newest first |
| EventRepository.FilteredIsSubsequence | RaspberryIoT/RaspberryIoT.Infrastructure/Repositories/SensorEventRepository.cs:57-63 | the filtered listing is the unfiltered listing with the other types removed, order kept |
| EventRepository.GetNewSince | RaspberryIoT/RaspberryIoT.Infrastructure/Repositories/SensorEventRepository.cs:69-82 | exactly the stored events with RowId above the cursor, newest first |
| EventRepository.PollFromZeroIsAll | RaspberryIoT/RaspberryIoT.Infrastructure/Repositories/SensorEventRepository.cs:69-82 | polling from cursor 0 returns the whole newest-first listing |
| EventRepository.PollPrefix | RaspberryIoT/RaspberryIoT.Infrastructure/Repositories/SensorEventRepository.cs:69-82 | a poll from a later cursor returns a prefix of a poll from an earlier one |
| EventRepository.PollAfterCreate | RaspberryIoT/RaspberryIoT.Infrastructure/Repositories/SensorEventRepository.cs:69-82 | after an insert, a poll returns the new event first (when it is past the cursor), followed by the earlier poll |
| Orchestrator.Handle | RaspberryIoT/RaspberryIoT.Application/Services/SensorOrchestrator.cs:19-50 | succeeds exactly when both inserts succeed; a failed status insert changes nothing; otherwise the status row is appended, and the event row only when its insert succeeds; the event's status text parses to the status written |
| Orchestrator.HandleErrorDetected | RaspberryIoT/RaspberryIoT.Application/Services/SensorOrchestrator.cs:19-50 | writes an Error/Red status row changed by the caller, and an ErrorDetected event labelled "Error", each carrying the fresh Id, the next RowId and one clock reading in every stamp; a failed status insert writes nothing, and a failure leaves the event table as it was |
| Orchestrator.HandleRebootStarted | RaspberryIoT/RaspberryIoT.Application/Services/SensorOrchestrator.cs:52-83 | writes a Rebooting/Off status row and a RebootStarted event labelled "Rebooting", each carrying the fresh Id, the next RowId and one clock reading in every stamp; a failed status insert writes nothing, and a failure leaves the event table as it was |
| Orchestrator.HandleRebootCompleted | RaspberryIoT/RaspberryIoT.Application/Services/SensorOrchestrator.cs:85-116 | writes an Online/Green status row and a RebootCompleted event labelled "Online", each carrying the fresh Id, the next RowId and one clock reading in every stamp; a failed status insert writes nothing, and a failure leaves the event table as it was |
| Orchestrator.WrittenRowsIgnorePriorState | RaspberryIoT/RaspberryIoT.Application/Services/SensorOrchestrator.cs:19-116 | the rows a handler writes are the same whatever the store held, apart from RowIds |
| Orchestrator.RepeatedTransitionAccepted | RaspberryIoT/RaspberryIoT.Application/Services/SensorOrchestrator.cs:85-116 | a handler repeated with fresh ids is accepted again and records the same status a second time |
| Orchestrator.EmptyDbValid | RaspberryIoT/RaspberryIoT.Infrastructure/Database/DbInitializer.cs:19-43 | the newly created schema, with both tables empty, is a valid store |
| StatusService.MapToResponse | RaspberryIoT/RaspberryIoT.Application/Services/SensorStatusService.cs:104-118 | the response's status and colour names parse back to the entity's values; RowId, Id, SensorId, ChangedOn, Timestamp, CreatedAt and UpdatedAt are copied |
| StatusService.ResponsesDecreasing | RaspberryIoT/RaspberryIoT.Application/Services/SensorStatusService.cs:23-27 | mapping a newest-first listing to responses keeps it newest first |
| StatusService.GetById | RaspberryIoT/RaspberryIoT.Application/Services/SensorStatusService.cs:17-21 | absent exactly when no row has the id; otherwise that row as a response |
| StatusService.GetAll | RaspberryIoT/RaspberryIoT.Application/Services/SensorStatusService.cs:23-27 | one response per stored row, newest first |
| StatusService.GetCurrentBySensorId | RaspberryIoT/RaspberryIoT.Application/Services/SensorStatusService.cs:29-33 | absent exactly when the sensor has no row; otherwise the response of a latest-Timestamp row of that sensor |
| StatusService.GetNewSince | RaspberryIoT/RaspberryIoT.Application/Services/SensorStatusService.cs:35-42 | the poll data are exactly the rows past the cursor, as responses, newest first |
| StatusService.Create | RaspberryIoT/RaspberryIoT.Application/Services/SensorStatusService.cs:44-61 | an unknown status name, then an unknown colour name, fails before any write; otherwise the row written carries the request's fields stamped with one clock reading; the response carries RowId 0, not the stored RowId |
| StatusService.Update | RaspberryIoT/RaspberryIoT.Application/Services/SensorStatusService.cs:63-76 | unknown names fail before any write; with both names valid it succeeds exactly when the store is reachable; the row with the id takes the request's fields and the two clock readings, and the result says whether the id existed |
| StatusService.ForceError | RaspberryIoT/RaspberryIoT.Application/Services/SensorStatusService.cs:78-89 | writes exactly one status row, Error/Red, changed by the requester, with the fresh Id and the current time in every stamp; on success the response carries those values with row id 0; the store assigns the RowId, but the repository never copies it back into the entity that is mapped |
| StatusService.ForceReboot | RaspberryIoT/RaspberryIoT.Application/Services/SensorStatusService.cs:91-102 | writes exactly one status row, Rebooting/Off, changed by the requester, with the fresh Id and the current time in every stamp; on success the response carries those values with row id 0 |
| StatusService.NewestRowIsCurrent | RaspberryIoT/RaspberryIoT.Application/Services/SensorStatusService.cs:44-61 | a created row whose timestamp exceeds every earlier one of its sensor becomes the sensor's current status |
| StatusService.ForceErrorThenCurrent | RaspberryIoT/RaspberryIoT.Application/Services/SensorStatusService.cs:78-89 | after a force-error at a new latest time, the sensor's current status reads "Error" with colour "Red" |
| StatusService.ForceRebootThenCurrent | RaspberryIoT/RaspberryIoT.Application/Services/SensorStatusService.cs:91-102 | after a force-reboot at a new latest time, the sensor's current status reads "Rebooting" with colour "Off" |
| EventService.MapToResponse | RaspberryIoT/RaspberryIoT.Application/Services/SensorEventService.cs:61-73 | the response's type name parses back to the event's type; RowId, Id, Status, TriggeredBy, Timestamp and CreatedAt are copied |
| EventService.ResponsesDecreasing | RaspberryIoT/RaspberryIoT.Application/Services/SensorEventService.cs:23-33 | mapping a newest-first listing to responses keeps it newest first |
| EventService.ParseFilter | RaspberryIoT/RaspberryIoT.Application/Services/SensorEventService.cs:25-29 | a filter exactly when the text is present, not white space only, and names an event type, which it then is |
| EventService.GetById | RaspberryIoT/RaspberryIoT.Application/Services/SensorEventService.cs:17-21 | absent exactly when no event has the id; otherwise that event as a response |
| EventService.GetAll | RaspberryIoT/RaspberryIoT.Application/Services/SensorEventService.cs:23-33 | with a usable filter only events of that type; every stored event the filter selects is present (every event when it selects all); each response is a stored event's; newest first |
| EventService.UnusableFilterMeansAll | RaspberryIoT/RaspberryIoT.Application/Services/SensorEventService.cs:25-29 | an absent, blank or unknown filter lists exactly what no filter lists |
| EventService.KnownFilterSelectsType | RaspberryIoT/RaspberryIoT.Application/Services/SensorEventService.cs:23-33 | a known type name lists the unfiltered events of that type, in the same order |
| EventService.GetNewSince | RaspberryIoT/RaspberryIoT.Application/Services/SensorEventService.cs:35-42 | the poll data are exactly the events past the cursor, as responses, newest first |
| EventService.Create | RaspberryIoT/RaspberryIoT.Application/Services/SensorEventService.cs:44-59 | an unknown type name fails before any write; otherwise the event written carries the request's fields and the clock reading; the response carries RowId 0 |
| Worker.ConfiguredSensorId | RaspberryIoT/RaspberryIoT.Worker/Worker.cs:26 | the configured sensor id when present, otherwise RASPBERRY-DEMO-001 |
| Worker.SimulateGpioRead | RaspberryIoT/RaspberryIoT.Worker/Worker.cs:74-86 | Green exactly for draws below 80, Red exactly for 80 to 94, Off exactly from 95 |
| Worker.Decide | RaspberryIoT/RaspberryIoT.Worker/Worker.cs:38-59 | a call exactly when the colour changed to Red (ErrorDetected) or to Off (RebootStarted) |
| Worker.Iterate | RaspberryIoT/RaspberryIoT.Worker/Worker.cs:31-71 | an unchanged colour, or a change back to Green, touches nothing; a change to Red or Off runs that handler with trigger "worker"; the previous colour becomes the sample unless the call threw, in which case it stays |
| Worker.FailedCallIsRetried | RaspberryIoT/RaspberryIoT.Worker/Worker.cs:33-70 | after a call that threw, the same sample again makes the same call |
| Worker.ErrorCallsCountEntriesIntoRed | RaspberryIoT/RaspberryIoT.Worker/Worker.cs:38-62 | without failures, the number of ErrorDetected calls equals the number of entries into Red |
| Worker.RedRunCallsOnce | RaspberryIoT/RaspberryIoT.Worker/Worker.cs:38-62 | a run of Red samples makes one ErrorDetected call when the colour before it was not Red, and none when it was |
| Worker.Loop | RaspberryIoT/RaspberryIoT.Worker/Worker.cs:31-71 | the worker loop over a sequence of draws keeps the store valid |
| Worker.LoopMatchesCalls | RaspberryIoT/RaspberryIoT.Worker/Worker.cs:31-71 | when no call throws, the loop makes exactly the calls the change detector decides on the colours read |
| Worker.LoopEndsOnLastSample | RaspberryIoT/RaspberryIoT.Worker/Worker.cs:61 | when no call throws, the loop's previous colour ends as the last colour read |
| Worker.WorkerRunErrorCalls | RaspberryIoT/RaspberryIoT.Worker/Worker.cs:11 | from the start state (Green, empty store), a run in which no call throws makes one ErrorDetected call per entry into Red |
| ButtonMonitor.CheckState | RaspberryIoT/RaspberryIoT.Worker/Hardware/ButtonMonitor.cs:27-39 | a press exactly on a high-to-low change; the sampled level is remembered |
| ButtonMonitor.CheckStateRaising | RaspberryIoT/RaspberryIoT.Worker/Hardware/ButtonMonitor.cs:27-39 | a press exactly on a high-to-low change; the check throws exactly when it presses and the subscriber throws, and then the level is not remembered |
| ButtonMonitor.QuietHandlerIsCheckState | RaspberryIoT/RaspberryIoT.Worker/Hardware/ButtonMonitor.cs:32-38 | with a subscriber that returns, the check is CheckState |
| ButtonMonitor.ThrowingHandlerPressesAgain | RaspberryIoT/RaspberryIoT.Worker/Hardware/ButtonMonitor.cs:32-38 | after a subscriber throws on a press, the next low sample raises the press again |
| ButtonMonitor.PressesCountFallingEdges | RaspberryIoT/RaspberryIoT.Worker/Hardware/ButtonMonitor.cs:27-39 | the presses over a run equal the falling edges of the levels seen, counting the remembered level first |
| ButtonMonitor.CountPresses | RaspberryIoT/RaspberryIoT.Worker/Hardware/ButtonMonitor.cs:9-39 | from the released start state, a run of checks raises one press per falling edge and remembers the last level |
| ButtonMonitor.ConstantHighNeverPresses | RaspberryIoT/RaspberryIoT.Worker/Hardware/ButtonMonitor.cs:9 | a button that stays released never raises a press |
| ButtonMonitor.HeldLowNeverPresses | RaspberryIoT/RaspberryIoT.Worker/Hardware/ButtonMonitor.cs:32 | a button held down raises no further press |
| ButtonMonitor.HeldLowPressesOnce | RaspberryIoT/RaspberryIoT.Worker/Hardware/ButtonMonitor.cs:27-39 | pressing and holding for any number of samples raises exactly one press |
| RgbLed.ColorTableRoundTrip | RaspberryIoT/RaspberryIoT.Worker/Hardware/RgbLedController.cs:39-100 | the six colours have distinct pin triples, and each triple reads back as its colour |
| RgbLed.Show | RaspberryIoT/RaspberryIoT.Worker/Hardware/RgbLedController.cs:39-100 | a setter leaves the three pins showing its colour and every other pin as it was |
| RgbLed.LastSetterWins | RaspberryIoT/RaspberryIoT.Worker/Hardware/RgbLedController.cs:39-100 | the last setter decides the colour, whatever came before |
| RgbLed.SetterIdempotent | RaspberryIoT/RaspberryIoT.Worker/Hardware/RgbLedController.cs:39-100 | calling a setter twice equals calling it once |
| RgbLed.Init | RaspberryIoT/RaspberryIoT.Worker/Hardware/RgbLedController.cs:24-34 | construction shows green: red low, green high, blue low |
| RgbLed.SetColorForSensor | RaspberryIoT/RaspberryIoT.Worker/Hardware/RgbLedController.cs:105-119 | SENSOR-001 shows red, SENSOR-002 shows blue, any other id shows yellow |
| RgbLed.Dispose | RaspberryIoT/RaspberryIoT.Worker/Hardware/RgbLedController.cs:121-127 | disposal leaves all three pins low |
| LedController.Apply | RaspberryIoT/RaspberryIoT.Worker/Hardware/LedController.cs:28-47 | normal lights only green, error lights only red, turn-off lights neither; other pins are unchanged |
| LedController.Init | RaspberryIoT/RaspberryIoT.Worker/Hardware/LedController.cs:17-26 | construction lights green and not red |
| LedController.Dispose | RaspberryIoT/RaspberryIoT.Worker/Hardware/LedController.cs:49-54 | disposal leaves both LEDs off |
| LedController.NeverBothLit | RaspberryIoT/RaspberryIoT.Worker/Hardware/LedController.cs:17-54 | after construction and any sequence of operations, the two LEDs are never lit together, and the last operation decides the state |
| LedController.RunFrom | RaspberryIoT/RaspberryIoT.Worker/Hardware/LedController.cs:28-47 | any sequence of operations preserves "not both lit" |

## Left out

- SQLite, Dapper and connections. Tables are sequences, and a query is a pure function of the table.
- ButtonMonitor.PressesCountFallingEdges, ButtonMonitor.CountPresses and the other run lemmas for the button assume that no `ButtonPressed` subscriber throws. ButtonMonitor.CheckStateRaising models a subscriber that throws, for one check.
- Worker.ErrorCallsCountEntriesIntoRed and Worker.LoopMatchesCalls cover runs in which no call throws. Worker.FailedCallIsRetried covers a call that throws.
- Rows written to the tables by anything other than the repositories: the schema does not constrain the name columns, so such rows could hold names that do not parse. `Valid` covers only tables written through the repositories.
- Async and cancellation tokens: every operation is one atomic step.
- Logging is not modelled, because it has no effect on state.
- Query failures: only inserts and updates are modelled as able to fail (the `storeUp` flag). A read is assumed to reach the store.
- The "insert returns false" path of `CreateAsync` is not modelled. An SQLite INSERT that does not throw affects one row, so that path is unreachable. The services ignore the result anyway.
- Some inputs that the generic `Enum.Parse` / `Enum.TryParse` overloads accept are not modelled: numeric strings, comma-separated lists of names, and names with surrounding white space. The model accepts exactly the declared names. This matches the case-sensitive matching of those overloads.
- `char.IsWhiteSpace` is modelled for the ASCII and Latin-1 white space characters only, not for all Unicode spaces.
- RowId and the poll cursor are unbounded integers, so a 32-bit overflow of `int RowId` is not modelled.
- `DateTime` is an integer instant, and GUIDs are integers supplied by the caller.
- StatusRepository.GetCurrentBySensorId: ties between equal Timestamps are not specified. SQLite leaves that order undefined, so the contract promises only a row with maximal Timestamp. The model picks the later row.
- The Worker's delay between iterations is not modelled, and the loop is modelled one iteration at a time. Worker's `PollingIntervalMs` setting is not modelled either.
- BuzzerController, the HTTP controllers, `Program.cs` and dependency injection are not modelled, because they sit outside the core.
- GPIO open, close and pin modes are not modelled; pins are a map from pin number to level.
- `ButtonMonitor.cs` and `LedController.cs` read pin constants (`Button`, `LedGreen`, `LedRed`) that `GpioPins.cs` does not declare. The button pin is irrelevant to the detector, and the two LED pins are a `Wiring` parameter required to be distinct.
- The purple colour ("both sensors in error") has a setter but no caller, so it appears only in the colour table.
- Orchestrator.HandleRebootCompleted is modelled, but `ISensorOrchestrator` declares only the error-detected and reboot-started handlers. No code in the repository calls it: both hosts resolve the orchestrator through `ISensorOrchestrator`, which does not declare it, and the Worker never causes a reboot-completed transition.
