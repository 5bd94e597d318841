# RTKS task set: activation log, activation rules, slack analysis

A Dafny model of the sequential logic around the RTIC task set of the
RTKS project (a Ravenscar-style benchmark on a Cortex-M board), with proofs
of what that logic promises. It covers the following parts:

- **The activation log** (`src/types/activation_log.rs`). This is the single
  shared cell that the external event server writes. It starts in a "no
  external event server activation logged" error state. Every write sets it
  to `Ok((counter, now))`. The counter is 1 after the first write and
  `(c + 1) % 100` after each later one. The model is the class
  `ActivationLog.ActivationLog`. Its ghost history of write instants ties
  the cell to the pure specification `WriteAll`.
- **The activation rules** (`src/utils.rs`, module `activation_condition`).
  Two static request counters, each bumped by its own predicate. The
  on-call producer activates when the new count is 2 mod 5. The activation
  log reader activates when the new count, mod 1000, is a multiple of 3.
  The model is the class `ActivationCondition.ActivationCounters`, together
  with counting lemmas.
- **The slack analysis** (`slack_calc.py`). The class
  `SlackCalc.BenchmarkTask` holds the task objects, and an array holds the
  task list. The nested loop is `ComputeSlacks`, with its inner loop in
  `InterferenceOf`. Both are proved against the recursive sum
  `Interference` and the function `Slack`. The script's four-task benchmark
  is `BenchmarkSlacks`.
- **The early activation log** (`src/bin/minimal.rs`). A plain
  `(counter, time)` struct whose `write` only does `counter += 1` on a
  `u8`. The model is the class `Minimal.ActivationLog`, with the finding
  below.
- **The sporadic tasks** (`src/tasks/sporadic.rs`). There is one class per
  task (`OnCallProducer`, `ExternalEventServer`, `ActivationLogReader`).
  Each has a `Step` method for one iteration of the task's loop: delayed,
  blocked on its trigger channel, or one activation. Each task keeps a
  ghost history of start instants. The invariant `Separated` says that
  consecutive starts are at least the task's minimum separation apart,
  measured from the start instant.
- **The channels** of `rtic_sync`, as the tasks see them. The class
  `Channels.Channel` is a bounded FIFO queue. Its ghost histories of sent
  and received items keep the invariant `received + queue == sent`.

Types come from `src/types/generic.rs` (module `Generic`). `u8` is a
newtype, so every `u8` addition is checked for overflow. Time is a `nat`
number of milliseconds. Clock readings are parameters (`now`, `sendNow`),
and the three WCETs the slack script reads from the user are parameters too.

The activation log that `src/tasks/sporadic.rs` uses is a capacity-1
channel (`Sender<'static, ActivationEntry, 1>`, line 36). The server's
`try_send` at line 46 fails silently when the slot is full, and the reader's
`try_recv` at lines 67-70 empties it. So a reader activation reports the
oldest entry not yet read, or "activation log is empty" when none is
waiting, not the latest write. Take the event server at 0 and 5000 ms and
the reader at 1000, 4000 and 7000 ms. The reader reports `(1, 0)`, then
empty, then `(2, 5000)` (`Sporadic.LogReaderScenario`). The counters of
`activation_log.rs` and `sporadic.rs` wrap modulo 100. The counter of
`src/bin/minimal.rs` does not (see Findings).

## Model

| member | source | states |
|---|---|---|
| ActivationLog.Written | src/types/activation_log.rs:20-23 | one write always yields `Ok`, its counter is below 100 and its timestamp is the supplied instant |
| ActivationLog.WriteAll | src/types/activation_log.rs:20-23 | after any sequence of writes the counter stays below 255, so the next `u8` addition `entry.0 + 1` cannot overflow |
| ActivationLog.CounterAfterWrites | src/types/activation_log.rs:20-23 | after k >= 1 writes to a fresh log the entry is `Ok((k mod 100, instant of the k-th write))` |
| ActivationLog.NeverUnwritten | src/types/activation_log.rs:20-23 | a log that is written, or that receives at least one write, holds `Ok` from then on; after a write its counter is in [0, 99] |
| ActivationLog.TimestampsMonotone | src/types/activation_log.rs:21-22 | with non-decreasing write instants, the logged timestamp never goes backwards |
| ActivationLog.ActivationLog.Build | src/types/activation_log.rs:31-35 | a fresh log holds the "no external event server activation logged" error, not a counter value |
| ActivationLog.ActivationLog.Write | src/types/activation_log.rs:18-25 | the first write gives `Ok((1, now))`; a later one gives `Ok(((c + 1) % 100, now))`; the counter equals the number of writes mod 100 |
| ActivationLog.ActivationLog.Read | src/types/activation_log.rs:27-29 | returns the stored value and changes nothing, so a read right after a write returns the written pair |
| ActivationCondition.ActivationCounters.constructor | src/utils.rs:15-16 | both request counters start at 0 |
| ActivationCondition.ActivationCounters.OnCallProdActivationCriterion | src/utils.rs:18-21 | bumps its counter by exactly 1, leaves the other counter alone, and returns true iff the new count is 2 mod 5 |
| ActivationCondition.ActivationCounters.ActivationLogReaderCriterion | src/utils.rs:23-27 | bumps its counter by exactly 1, leaves the other counter alone, and returns true iff (new count mod 1000) mod 3 == 0 |
| ActivationCondition.OneInFive | src/utils.rs:20 | among any five consecutive requests exactly one activates the on-call producer |
| ActivationCondition.ActivationsSplit | src/utils.rs:20 | activation counts over adjacent stretches of requests add up |
| ActivationCondition.OneInFiveOverPeriods | src/utils.rs:20 | over any 5k consecutive requests the on-call producer activates exactly k times |
| ActivationCondition.OnCallProdActivatesExactly | src/utils.rs:20 | a request activates the on-call producer iff its number is 5k + 2 (requests 2, 7, 12, ...) |
| ActivationCondition.LogReaderPeriodic | src/utils.rs:25-26 | the reader's decisions repeat with period 1000 |
| ActivationCondition.LogReaderAroundWrap | src/utils.rs:25-26 | requests 999 and 1000 activate the reader; 1001 and 1002 do not |
| SlackCalc.BenchmarkTask.constructor | slack_calc.py:4-9 | stores period, deadline, WCET (default 0), priority and name; the `slack` argument is not stored |
| SlackCalc.Specs | slack_calc.py:4-9 | the numbers of each listed task, position by position |
| SlackCalc.CeilDiv | slack_calc.py:31 | `math.ceil(a / b)` for a positive divisor: the least q with a <= q * b |
| SlackCalc.FirstIndex | slack_calc.py:30-32 | a position holding the task (the inner loop compares tasks by identity) |
| SlackCalc.FirstIndexIsFirst | slack_calc.py:30-32 | no earlier position holds the task, so the `break` fires there first |
| SlackCalc.FirstIndexUnique | slack_calc.py:30-32 | a position holding the task with none before it is the first index |
| SlackCalc.DistinctFirstIndex | slack_calc.py:24 | in a list without repeats every task's first index is its own position |
| SlackCalc.ComputeSlacks | slack_calc.py:26-33 | sets every listed task's slack to its deadline minus the interference of the tasks up to and including its first position; leaves every other field unchanged |
| SlackCalc.AnalyseTask | slack_calc.py:27-33 | one outer iteration: sets this task's slack and keeps the slacks already set for earlier positions |
| SlackCalc.InterferenceOf | slack_calc.py:28-32 | the inner loop sums `ceil(D / T_other) * C_other` over positions 0 to the task's first position, inclusive, and no further |
| SlackCalc.SlackOfSameTask | slack_calc.py:26-33 | two positions holding the same task object get the same slack |
| SlackCalc.InterferenceAppend | slack_calc.py:29-32 | tasks appended after position n do not change the interference from the first n |
| SlackCalc.SlackUnchangedByAppend | slack_calc.py:24-33 | appending tasks to the list never changes the slack of a task already in it |
| SlackCalc.InterferenceIgnoresPriority | slack_calc.py:29-31 | lists that agree on periods, deadlines and WCETs give the same interference |
| SlackCalc.SlackIgnoresPriority | slack_calc.py:4-33 | priorities are never read: only list order decides the slacks |
| SlackCalc.InterferenceMonotoneInWcet | slack_calc.py:31 | for a non-negative deadline, raising WCETs never lowers the interference |
| SlackCalc.SlackMonotoneInWcet | slack_calc.py:31-33 | for a non-negative deadline, raising any WCET never raises a slack |
| SlackCalc.PushButtonServerSlack | slack_calc.py:14-33 | a list headed by the push-button server gives it slack 99, whatever follows |
| SlackCalc.BenchmarkListSlacks | slack_calc.py:14-33 | closed forms of the four benchmark slacks: 99, 499 - w1, 799 - w1 - w2, 999 - w1 - w2 - w3 |
| SlackCalc.NewBenchmarkTasks | slack_calc.py:14-21 | four distinct fresh tasks with the script's periods, deadlines, priorities and the entered WCETs |
| SlackCalc.NewBenchmarkTaskList | slack_calc.py:24 | the list holds the four tasks in the script's order, each at its own first index |
| SlackCalc.SpecsPointwise | slack_calc.py:24 | tasks whose numbers match position by position have those numbers as their specs |
| SlackCalc.FourDistinct | slack_calc.py:24 | four different tasks each sit at their own first index |
| SlackCalc.BenchmarkSlacks | slack_calc.py:14-33 | running the script's analysis yields the closed-form slacks for any entered WCETs |
| Minimal.CounterAfterWrites | src/bin/minimal.rs:30-32 | the counter after k writes is exactly k for k <= 255 (no mod-100 reduction), and a write beyond that overflows |
| Minimal.CounterIsNotMod100 | src/bin/minimal.rs:25-31 | the 100th write leaves 100, not 0; the 256th write overflows |
| Minimal.CounterAfterWritesMod100 | src/bin/minimal.rs:25 | with the reduction the comment documents, the counter after k writes is k mod 100 |
| Minimal.ActivationLog.Init | src/bin/minimal.rs:73-76 | the initial log has counter 0 and the boot instant as its time |
| Minimal.ActivationLog.Write | src/bin/minimal.rs:30-32 | adds exactly 1 to the counter, requires it below 255, leaves the time unchanged; the counter equals the number of writes |
| Minimal.ActivationLog.Read | src/bin/minimal.rs:34-36 | returns `(counter, time)` and changes nothing |
| Channels.Channel.constructor | src/main.rs:56-58 | a new channel of positive capacity is empty |
| Channels.Channel.TrySend | src/tasks/sporadic.rs:46 | succeeds iff the queue is below capacity, then appends the item; otherwise nothing changes |
| Channels.Channel.TryRecv | src/tasks/sporadic.rs:67-70 | takes the oldest item, or returns None and changes nothing when empty; items leave in the order they were sent |
| Sporadic.SeparatedExtend | src/tasks/sporadic.rs:21-30 | starting at or after the release keeps consecutive starts MIN_SEP apart, with release = start + MIN_SEP |
| Sporadic.SeparationAccumulates | src/tasks/sporadic.rs:30 | the j-th start is at least (j - i) * MIN_SEP after the i-th |
| Sporadic.OnCallProducer.Step | src/tasks/sporadic.rs:12-32 | delayed before the release; blocked on an empty channel; else handles the oldest work item, so items are handled one per activation in send order, and the next release is start + 3000 |
| Sporadic.ExternalEventServer.Step | src/tasks/sporadic.rs:34-53 | each activation sets the counter to (old + 1) mod 100 and offers `(counter, now)` to the single-slot channel, which keeps its old entry when full; the channel's sent history grows by the entry only when it was accepted; the counter advances either way; next release is start + 5000 |
| Sporadic.ActivationLogReader.Step | src/tasks/sporadic.rs:55-77 | each activation consumes one trigger token, which is appended to the trigger's received history, then reports the waiting entry and empties the slot, or reports empty and changes nothing; next release is start + 3000 |
| Sporadic.LogReaderScenario | src/tasks/sporadic.rs:34-77 | server at 0 and 5000 ms, reader at 1000, 4000 and 7000 ms: the reader reports `(1, 0)`, empty, `(2, 5000)` |

## Left out

- `src/types/production_workload.rs` is not part of this model. It is a floating-point Whetstone kernel (libm sin, cos, exp, log, sqrt on `f64` state). Its index guards (lines 59-66, 86-90, 111-116) admit index 7 of the 7-element `e1` array; the model does not examine this.
- `src/main.rs` and `src/tasks/periodic.rs` are boot and async glue: the RTIC app, channel creation, spawning, `rtic::pend`, and `instant + period`. They are not modelled. The channel capacities from `src/main.rs:56-58` appear only as constructor arguments.
- Preemption, priority ceilings, `lock`, `cortex_m::interrupt::free` and the `UnsafeCell`/`Sync` sharing are concurrency. The model is sequential. The critical section is a token parameter of `ActivationLog.ActivationLog.Write`.
- The clock (`Mono::now`, `delay_until`): instants are `nat` parameters and never wrap. The 32-bit tick counter of the monotonic timer is not modelled. A step before the release instant returns `Delayed`, which stands for the suspension.
- `rtic_sync` internals: channel closure (the `while let Ok(..)` loops end when a sender is dropped) and the suspension inside `recv` (a step on an empty channel returns `Blocked`) are not modelled.
- The Whetstone call of the on-call producer and all `hprintln!` logging are left out.
- `ActivationCondition.ActivationCounters.OnCallProdActivationCriterion`: does not model the `AtomicI32` wrap after 2^31 - 1 calls; it requires the counter to be below `i32::MAX`. `ActivationLogReaderCriterion` has the same precondition.
- `Sporadic.ExternalEventServer.Step`: the initial `actv_counter` is declared outside `sporadic.rs`, so it is a constructor argument. The argument is required to be below 255, so the first `u8` increment cannot overflow.
- `SlackCalc.SlackMonotoneInWcet`: requires a non-negative deadline. For a deadline at or below minus a period the ceiling factor is not positive, and the property can fail.
- `SlackCalc.CeilDiv`: models `math.ceil(a / b)` exactly. Python's float division can round for very large operands; that rounding is not modelled.
- SlackCalc.BenchmarkSlacks: returns all four slacks for every entered WCET. The script prints each task right after setting its slack (`slack_calc.py:34`). `__str__` (line 12) divides the slack by the WCET. So an entered WCET of 0 raises `ZeroDivisionError` and aborts the script after that task's slack is set. The later tasks' slacks are then never computed or printed. The model does not capture this abort.
- The `input()` prompts of `slack_calc.py` (lines 19-21) become parameters. The `__str__` report (lines 11-12, 34) is left out: it prints a float percentage, and divides by zero for a task whose WCET is 0.
- The `isinstance(..., BenchmarkTask)` tests in `slack_calc.py` (lines 27 and 30) always hold for the list the script builds. The model's array has element type `BenchmarkTask`.
- The task bodies, `idle` and `emit_hardware_interrupt` of `src/bin/minimal.rs` are RTIC scheduling and semihosting output, and are not modelled.

## Findings

| source | as written | input that shows it | evidently intended | confidence | as-written member | corrected member |
|---|---|---|---|---|---|---|
| src/bin/minimal.rs:25-31 | `write` does `counter += 1` on a `u8` whose field comment says "is mod 100" | 100 writes from the initial 0 leave the counter at 100, not 0; the 256th write overflows the `u8` | the counter reduced modulo 100 on every write, as the comment and the later `activation_log.rs` do | high; not executed | Minimal.CounterIsNotMod100 | Minimal.CounterAfterWritesMod100 |
