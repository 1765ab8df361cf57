# radio-tui application dispatch loop, modelled in Dafny

This project models the application loop of the `radio-tui` terminal
application (`src/app.rs`). The loop pulls one event at a time from the
terminal source and maps it to at most one action. It sends that action on
the application's own action channel and then drains the channel. Draining
applies each action, forwards any follow-up action back onto the channel,
and asks the terminal to draw once for every applied `Quit`. After each
iteration the loop stops if `should_quit` is set.

Files:

- `options.dfy`, module `Options`: the `Option` type and `ToSeq`, which views an option as a sequence of zero or one elements.
- `action.dfy`, module `Actions`: the `Action` type (`Tick | Render | Quit`), plus `CountQuit` and its additivity lemma.
- `event.dfy`, module `Events`: the terminal source's `Event` type, its key events, mouse events and key codes (`Esc | Other(n)`).
- `app.dfy`, module `AppLoop`:
  - the pure mapping policy (`HandleEvent`, `HandleKeyEvent`) and the specification functions `Enqueued` and `FirstEscape`;
  - the `App` class, which holds the `shouldQuit` flag and the action channel as a `seq<Action>` field;
  - the class's methods for the channel ends, the apply step, one loop iteration (`Step`) and the loop (`Run`);
  - a client scenario that runs the loop from a fresh `App`.

Decisions:

- The tokio channel has both ends owned by `App`, and only the one loop uses it. It is modelled as one FIFO sequence. `Send` appends to it and `TryRecv` pops from its front, or returns `None` when it is empty.
- `handle_event` and `handle_key_event` take `&self` but read nothing from it. They are modelled as module-level functions.
- The terminal source is not part of this model. Each result of `tui.next().await` is one element of the input sequence given to `Run`. The source returns `None` only once its event channel is closed, and from then on it returns `None` every time. The model's inputs may instead hold an event after a `None`; every contract here holds for that wider set of inputs. A call to `tui.draw` is counted, and `Step` and `Run` return the count.
- `Run` works on a finite input sequence. It reports the index of the iteration after which the loop broke, or `None` when the inputs run out first.
- Only an applied `Quit` causes a draw (src/app.rs:42-46). A `Render` action changes nothing and never draws (src/app.rs:84), so `Step` on a `Render` event draws zero times.
- `Idle()` says that the channel is empty. `App::new` establishes it, every iteration that receives an event restores it, and `Run` requires it.

## Model

| member | source | states |
|---|---|---|
| `AppLoop.App.constructor` | src/app.rs:19-26 | a new application has `shouldQuit` false and an empty action channel |
| `AppLoop.HandleKeyEvent` | src/app.rs:73-78 | a key event yields an action exactly when its code is `Esc`, and that action is `Quit`; modifiers and key kind play no part |
| `AppLoop.HandleEvent` | src/app.rs:64-71 | `Some(Tick)` exactly for the `Tick` event, `Some(Render)` exactly for `Render`, `Some(Quit)` exactly for an `Esc` key event, and `None` for every other event |
| `AppLoop.UnmappedEventsAreIgnored` | src/app.rs:69 | `Init`, `Quit`, `Error`, `Closed`, focus, paste, mouse and resize events all map to no action; the `Quit` event does not produce the `Quit` action |
| `AppLoop.KeyPolicyIgnoresModifiers` | src/app.rs:73-77 | two key events with the same code map to the same result whatever their modifiers and kind |
| `AppLoop.Enqueued` | src/app.rs:36-37 | one polled input puts at most one action on the channel, nothing when there was no event, and a `Quit` exactly when the input is an `Esc` key event |
| `Options.ToSeq` | src/app.rs:37 | an optional result contributes zero or one elements, its value when present, to what is sent |
| `AppLoop.App.Send` | src/app.rs:37 | sending appends the action at the back of the channel and leaves `shouldQuit` alone |
| `AppLoop.App.Forward` | src/app.rs:40 | forwarding an optional follow-up appends exactly its `ToSeq` to the channel |
| `AppLoop.App.TryRecv` | src/app.rs:38 | receiving on an empty channel yields `None` and changes nothing; otherwise it yields the oldest action and removes it |
| `AppLoop.App.Tick` | src/app.rs:60 | per-tick bookkeeping leaves the whole application state unchanged |
| `AppLoop.App.HandleAction` | src/app.rs:80-87 | applying an action never yields a follow-up; `shouldQuit` becomes `old(shouldQuit) \|\| action == Quit`, so `Quit` sets it, `Tick` and `Render` change nothing, and it is never reset; the channel is untouched |
| `Actions.CountQuit` | src/app.rs:42-46 | the number of draws for a list of applied actions is at most its length and is zero exactly when it holds no `Quit` |
| `Actions.CountQuitAppend` | src/app.rs:38-47 | draw counts over consecutive runs of applied actions add up |
| `AppLoop.App.Apply` | src/app.rs:39-46 | handling one received action leaves the channel as it was, sets `shouldQuit` exactly when it was set or the action is `Quit`, and draws once for `Quit` and never for `Tick` or `Render` |
| `AppLoop.App.Drain` | src/app.rs:38-47 | the drain applies exactly the actions that were on the channel, in FIFO order, adds no follow-ups, and leaves the channel empty; it draws once per applied `Quit`; `shouldQuit` is set iff it was set or a `Quit` was applied |
| `AppLoop.App.Step` | src/app.rs:36-48 | a `None` from the source changes nothing and draws nothing; an event is mapped, sent and drained; from an empty channel at most one action is applied (every chain has length at most one), the channel is empty again, and there is one draw and `shouldQuit` becomes set exactly when the event is an `Esc` key event |
| `AppLoop.App.StepIdle` | src/app.rs:36-48 | an iteration that starts with no action in flight ends with none; it draws once and sets `shouldQuit` exactly when its input is an `Esc` key event, and otherwise draws nothing and keeps `shouldQuit` |
| `AppLoop.FirstEscape` | src/app.rs:50-52 | the index it returns holds an `Esc` key event with none before it; `None` means no input is an `Esc` key event |
| `AppLoop.App.Run` | src/app.rs:35-53 | from an idle application, the loop breaks after iteration 0 if `shouldQuit` was already set; otherwise it breaks after the first `Esc` key event and processes no later input, and it runs through all inputs when there is none; at most one draw happens, exactly when the iteration it stops on received `Esc`; `shouldQuit` is set iff it was set before or the loop stopped; the channel ends empty |
| `AppLoop.EscapeScenario` | src/main.rs:14 | a fresh application fed a tick, an empty poll, `Esc` and a render stops after the third input, with one draw and `shouldQuit` set |

## Left out

- `Tui` (`new`, `tick_rate`, `frame_rate`, `enter`, `next`, `draw`, `exit`) is not part of this model. It does raw-mode terminal I/O and runs an async background task. `next()` becomes the input sequence of `Run` and `draw` becomes a counter.
- The tick and frame rates `4.0` and `30.0` (src/app.rs:30-31) are floating-point timer settings. They are left out.
- `ui` (src/app.rs:62) is an empty rendering callback over a terminal frame. A draw is modelled only as a count.
- Failures are left out: `Tui::new`, `enter`, `draw` and `exit` can fail and propagate an error with `?`, and the results of `send` are ignored. These are failures of foreign libraries; every operation in the model succeeds.
- The unbounded channel is not modelled as a concurrency primitive. Only the single-threaded loop uses it, so it is a plain FIFO sequence.
- `src/main.rs`: logging initialisation and the async runtime entry point are left out. Only its `App::new().run()` call appears, as the client scenario.
- AppLoop.App.Run: its input is finite. After its event channel closes, the real source returns `None` forever and the loop spins on it without stopping, unless `shouldQuit` is already set. The model does not follow the loop past the end of its inputs.
- Key events keep only the code (`Esc` or another code numbered `n`), the modifier bits and the key kind. Key state, and the mouse event's kind, are dropped; the policy ignores them.
