/**
 * The response-time style slack estimate of slack_calc.py. For each task of
 * the list, in list order, the interference is the sum over the tasks up to
 * and including itself of `ceil(deadline / period_other) * wcet_other`, and
 * the slack is the deadline minus that interference.
 */
module SlackCalc {
  import opened Generic

  /** `BenchmarkTask`. `slack` is only assigned by the analysis: `__init__`
      accepts a `slack` argument but never stores it. */
  class BenchmarkTask {
    var period: int
    var deadline: int
    var wcet: int
    var priority: int
    var name: string
    var slack: Option<int>

    constructor (period: int, deadline: int, priority: int, name: string, wcet: int := 0, slack: int := 0)
      ensures this.period == period && this.deadline == deadline && this.wcet == wcet
      ensures this.priority == priority && this.name == name
      ensures this.slack == None
    {
      this.period := period;
      this.deadline := deadline;
      this.wcet := wcet;
      this.priority := priority;
      this.name := name;
      this.slack := None;
    }
  }

  /** The numbers of a task the analysis may look at. */
  datatype TaskSpec = TaskSpec(period: int, deadline: int, wcet: int, priority: int)

  function Spec(t: BenchmarkTask): TaskSpec
    reads t`period, t`deadline, t`wcet, t`priority
  {
    TaskSpec(t.period, t.deadline, t.wcet, t.priority)
  }

  function Specs(ts: seq<BenchmarkTask>): (r: seq<TaskSpec>)
    reads ts`period, ts`deadline, ts`wcet, ts`priority
    ensures |r| == |ts| && forall k :: 0 <= k < |ts| ==> r[k] == Spec(ts[k])
    decreases |ts|
  {
    if ts == [] then [] else [Spec(ts[0])] + Specs(ts[1..])
  }

  /** Dividing by a period raises `ZeroDivisionError` unless it is non-zero;
      the analysis is meant for positive periods. */
  ghost predicate PositivePeriods(ts: seq<TaskSpec>)
  {
    forall k :: 0 <= k < |ts| ==> ts[k].period > 0
  }

  /** `math.ceil(a / b)` for integers and a positive divisor: the least q
      with q * b >= a. */
  function CeilDiv(a: int, b: int): (q: int)
    requires b > 0
    ensures (q - 1) * b < a <= q * b
  {
    var f := (-a) / b;
    assert -a == f * b + (-a) % b;
    -f
  }

  /** The contribution of `other` to the interference suffered by a task
      with deadline `deadline`. */
  function Term(deadline: int, other: TaskSpec): int
    requires other.period > 0
  {
    CeilDiv(deadline, other.period) * other.wcet
  }

  /** The interference from the first `n` tasks of the list. */
  function Interference(deadline: int, ts: seq<TaskSpec>, n: nat): int
    requires n <= |ts| && PositivePeriods(ts)
  {
    if n == 0 then 0 else Interference(deadline, ts, n - 1) + Term(deadline, ts[n - 1])
  }

  /** The slack of the task at position i: every task at positions 0..i,
      itself included, interferes with it, and none after it. */
  function Slack(ts: seq<TaskSpec>, i: nat): int
    requires i < |ts| && PositivePeriods(ts)
  {
    ts[i].deadline - Interference(ts[i].deadline, ts, i + 1)
  }

  /** The first position holding `x` (Python compares tasks by identity). */
  function FirstIndex<T(==)>(s: seq<T>, x: T): (k: nat)
    requires x in s
    ensures k < |s| && s[k] == x
  {
    if s[0] == x then 0 else 1 + FirstIndex(s[1..], x)
  }

  /** No position before `FirstIndex(s, x)` holds `x`. */
  lemma {:induction false} FirstIndexIsFirst<T>(s: seq<T>, x: T)
    requires x in s
    ensures x !in s[..FirstIndex(s, x)]
  {
    if s[0] != x {
      FirstIndexIsFirst(s[1..], x);
      assert s[..FirstIndex(s, x)] == [s[0]] + s[1..][..FirstIndex(s[1..], x)];
    }
  }

  /** The analysis loop: set each listed task's `slack`. The inner loop stops
      at the first position holding the task itself, so a task listed once
      at position i gets `Slack(_, i)` (see `DistinctFirstIndex`). */
  method ComputeSlacks(taskList: array<BenchmarkTask>)
    requires PositivePeriods(Specs(taskList[..]))
    modifies set k | 0 <= k < taskList.Length :: taskList[k]`slack
    ensures Specs(taskList[..]) == old(Specs(taskList[..]))
    ensures forall k :: 0 <= k < taskList.Length ==>
      taskList[k].slack == Some(Slack(Specs(taskList[..]), FirstIndex(taskList[..], taskList[k])))
  {
    ghost var tasks := taskList[..];
    ghost var ts := Specs(tasks);
    var i := 0;
    while i < taskList.Length
      invariant 0 <= i <= taskList.Length
      invariant forall k :: 0 <= k < |tasks| ==> SpecOf(tasks[k], ts[k])
      invariant forall k :: 0 <= k < i ==> tasks[k].slack == Some(SlackOfTask(tasks, ts, k))
    {
      AnalyseTask(taskList, i, taskList[i], tasks, ts);
      i := i + 1;
    }
    assert Specs(tasks) == ts;
    forall k | 0 <= k < taskList.Length
      ensures taskList[k].slack == Some(Slack(Specs(taskList[..]), FirstIndex(taskList[..], taskList[k])))
    {
      assert tasks[k].slack == Some(SlackOfTask(tasks, ts, k));
    }
  }

  /** One iteration of the analysis loop: set the slack of the task at
      position i, keeping the slacks already set for positions before it
      (the same task may sit at an earlier position too). */
  method AnalyseTask(taskList: array<BenchmarkTask>, i: nat, task: BenchmarkTask, ghost tasks: seq<BenchmarkTask>, ghost ts: seq<TaskSpec>)
    requires i < taskList.Length && task == taskList[i]
    requires tasks == taskList[..] && |ts| == |tasks| && PositivePeriods(ts)
    requires forall k :: 0 <= k < |tasks| ==> SpecOf(tasks[k], ts[k])
    requires forall k :: 0 <= k < i ==> tasks[k].slack == Some(SlackOfTask(tasks, ts, k))
    modifies task`slack
    ensures forall k :: 0 <= k <= i ==> tasks[k].slack == Some(SlackOfTask(tasks, ts, k))
  {
    var interference := InterferenceOf(taskList, i, ts);
    label Before:
    task.slack := Some(task.deadline - interference);
    forall k | 0 <= k <= i ensures tasks[k].slack == Some(SlackOfTask(tasks, ts, k)) {
      if tasks[k] != task {
        assert tasks[k].slack == old@Before(tasks[k].slack);
      } else {
        SlackOfSameTask(tasks, ts, k, i);
      }
    }
  }

  /** The task's numbers are those of `t`, field by field. */
  ghost predicate SpecOf(task: BenchmarkTask, t: TaskSpec)
    reads task`period, task`deadline, task`wcet, task`priority
  {
    task.period == t.period && task.deadline == t.deadline && task.wcet == t.wcet && task.priority == t.priority
  }

  /** Two positions holding the same task get the same slack. */
  lemma SlackOfSameTask(tasks: seq<BenchmarkTask>, ts: seq<TaskSpec>, k: nat, i: nat)
    requires k < |tasks| == |ts| && i < |tasks| && PositivePeriods(ts)
    requires tasks[k] == tasks[i]
    ensures SlackOfTask(tasks, ts, k) == SlackOfTask(tasks, ts, i)
  {
  }

  /** The slack the analysis gives the task at position k: that of the
      first position holding the same task. */
  function SlackOfTask(tasks: seq<BenchmarkTask>, ts: seq<TaskSpec>, k: nat): int
    requires k < |tasks| == |ts| && PositivePeriods(ts)
  {
    Slack(ts, FirstIndex(tasks, tasks[k]))
  }

  /** The inner loop of the analysis, for the task at position i: the
      interference from every task up to the first position holding the
      task itself. */
  method InterferenceOf(taskList: array<BenchmarkTask>, i: nat, ghost ts: seq<TaskSpec>) returns (interference: int)
    requires i < taskList.Length && |ts| == taskList.Length && PositivePeriods(ts)
    requires forall k :: 0 <= k < taskList.Length ==> SpecOf(taskList[k], ts[k])
    ensures interference == Interference(ts[i].deadline, ts, FirstIndex(taskList[..], taskList[i]) + 1)
    ensures taskList[i].deadline - interference == SlackOfTask(taskList[..], ts, i)
  {
    var task := taskList[i];
    ghost var tasks := taskList[..];
    assert task in tasks;
    interference := 0;
    var j := 0;
    while j < taskList.Length
      invariant 0 <= j <= i
      invariant task !in tasks[..j]
      invariant interference == Interference(task.deadline, ts, j)
    {
      var otherTask := taskList[j];
      assert SpecOf(otherTask, ts[j]);
      interference := interference + CeilDiv(task.deadline, otherTask.period) * otherTask.wcet;
      if otherTask == task {
        break;
      }
      assert tasks[..j + 1] == tasks[..j] + [otherTask];
      j := j + 1;
    }
    FirstIndexUnique(tasks, task, j);
    assert SpecOf(tasks[j], ts[j]) && SpecOf(tasks[i], ts[i]);
  }

  /** A position holding x with no earlier x is the first index of x. */
  lemma {:induction false} FirstIndexUnique<T>(s: seq<T>, x: T, j: nat)
    requires j < |s| && s[j] == x && x !in s[..j]
    ensures FirstIndex(s, x) == j
  {
    if j > 0 {
      assert s[0] in s[..j];
      assert s[1..][..j - 1] == s[..j][1..];
      FirstIndexUnique(s[1..], x, j - 1);
    }
  }

  /** In a list without repeated tasks the first index of each task is its
      own position, so the task at position i gets `Slack(_, i)`. */
  lemma DistinctFirstIndex<T>(s: seq<T>, k: nat)
    requires forall a, b :: 0 <= a < b < |s| ==> s[a] != s[b]
    requires k < |s|
    ensures FirstIndex(s, s[k]) == k
  {
    assert s[k] !in s[..k] by {
      forall a | 0 <= a < k ensures s[..k][a] != s[k] {
        assert s[..k][a] == s[a];
      }
    }
    FirstIndexUnique(s, s[k], k);
  }

  /** Appending tasks after position n leaves the interference from the
      first n tasks unchanged. */
  lemma {:induction false} InterferenceAppend(deadline: int, ts: seq<TaskSpec>, more: seq<TaskSpec>, n: nat)
    requires n <= |ts| && PositivePeriods(ts + more)
    ensures PositivePeriods(ts)
    ensures Interference(deadline, ts + more, n) == Interference(deadline, ts, n)
  {
    assert forall k :: 0 <= k < |ts| ==> ts[k] == (ts + more)[k];
    if n > 0 {
      InterferenceAppend(deadline, ts, more, n - 1);
    }
  }

  /** Appending tasks to the list never changes the slack of a task already
      in it. */
  lemma SlackUnchangedByAppend(ts: seq<TaskSpec>, more: seq<TaskSpec>, i: nat)
    requires i < |ts| && PositivePeriods(ts + more)
    ensures PositivePeriods(ts)
    ensures Slack(ts + more, i) == Slack(ts, i)
  {
    InterferenceAppend(ts[i].deadline, ts, more, i + 1);
  }

  /** Two lists that agree on every period, deadline and WCET, position by
      position, give the same interference: priorities are never read. */
  lemma {:induction false} InterferenceIgnoresPriority(deadline: int, ts: seq<TaskSpec>, us: seq<TaskSpec>, n: nat)
    requires |ts| == |us| && n <= |ts| && PositivePeriods(ts)
    requires forall k :: 0 <= k < |ts| ==>
      ts[k].period == us[k].period && ts[k].deadline == us[k].deadline && ts[k].wcet == us[k].wcet
    ensures PositivePeriods(us)
    ensures Interference(deadline, ts, n) == Interference(deadline, us, n)
  {
    if n > 0 {
      InterferenceIgnoresPriority(deadline, ts, us, n - 1);
    }
  }

  /** Only list order matters: relabelling priorities leaves every slack as
      it was. */
  lemma SlackIgnoresPriority(ts: seq<TaskSpec>, us: seq<TaskSpec>, i: nat)
    requires |ts| == |us| && i < |ts| && PositivePeriods(ts)
    requires forall k :: 0 <= k < |ts| ==>
      ts[k].period == us[k].period && ts[k].deadline == us[k].deadline && ts[k].wcet == us[k].wcet
    ensures PositivePeriods(us)
    ensures Slack(ts, i) == Slack(us, i)
  {
    InterferenceIgnoresPriority(ts[i].deadline, ts, us, i + 1);
  }

  /** For a non-negative deadline every ceiling factor is non-negative, so
      raising any WCET can only raise the interference. */
  lemma {:induction false} InterferenceMonotoneInWcet(deadline: int, ts: seq<TaskSpec>, us: seq<TaskSpec>, n: nat)
    requires deadline >= 0
    requires |ts| == |us| && n <= |ts| && PositivePeriods(ts)
    requires forall k :: 0 <= k < |ts| ==>
      us[k] == ts[k].(wcet := us[k].wcet) && us[k].wcet >= ts[k].wcet
    ensures PositivePeriods(us)
    ensures Interference(deadline, ts, n) <= Interference(deadline, us, n)
  {
    if n > 0 {
      InterferenceMonotoneInWcet(deadline, ts, us, n - 1);
      var p, c := ts[n - 1].period, CeilDiv(deadline, ts[n - 1].period);
      assert c >= 0 by {
        assert (c - 1) * p < deadline <= c * p;
      }
      MulMonotone(c, ts[n - 1].wcet, us[n - 1].wcet);
    }
  }

  lemma MulMonotone(c: int, a: int, b: int)
    requires c >= 0 && a <= b
    ensures c * a <= c * b
  {
  }

  /** Slack is non-increasing in every listed task's WCET (for tasks whose
      deadline is not negative). */
  lemma SlackMonotoneInWcet(ts: seq<TaskSpec>, us: seq<TaskSpec>, i: nat)
    requires |ts| == |us| && i < |ts| && PositivePeriods(ts)
    requires ts[i].deadline >= 0
    requires forall k :: 0 <= k < |ts| ==>
      us[k] == ts[k].(wcet := us[k].wcet) && us[k].wcet >= ts[k].wcet
    ensures PositivePeriods(us)
    ensures Slack(us, i) <= Slack(ts, i)
  {
    InterferenceMonotoneInWcet(ts[i].deadline, ts, us, i + 1);
  }

  /** The push-button server (period 5000, deadline 100, WCET 1) heads the
      list, so its slack is 100 - ceil(100 / 5000) * 1 = 99 whatever follows. */
  lemma PushButtonServerSlack(ts: seq<TaskSpec>)
    requires |ts| >= 1 && PositivePeriods(ts)
    requires ts[0].period == 5000 && ts[0].deadline == 100 && ts[0].wcet == 1
    ensures Slack(ts, 0) == 99
  {
    assert Interference(100, ts, 1) == Term(100, ts[0]);
    assert CeilDiv(100, 5000) == 1;
  }

  /** The benchmark's task list, in the script's order, with the three WCETs
      the user types in. */
  function BenchmarkList(regularProducerWcet: int, onCallProducerWcet: int, activationLogReaderWcet: int): seq<TaskSpec>
  {
    [ TaskSpec(5000, 100, 1, 7),
      TaskSpec(1000, 500, regularProducerWcet, 6),
      TaskSpec(3000, 800, onCallProducerWcet, 4),
      TaskSpec(3000, 1000, activationLogReaderWcet, 2) ]
  }

  /** The slacks the script prints, in closed form: every ceiling factor of
      the benchmark is 1. */
  lemma BenchmarkListSlacks(w1: int, w2: int, w3: int)
    ensures PositivePeriods(BenchmarkList(w1, w2, w3))
    ensures Slack(BenchmarkList(w1, w2, w3), 0) == 99
    ensures Slack(BenchmarkList(w1, w2, w3), 1) == 499 - w1
    ensures Slack(BenchmarkList(w1, w2, w3), 2) == 799 - w1 - w2
    ensures Slack(BenchmarkList(w1, w2, w3), 3) == 999 - w1 - w2 - w3
  {
    var ts := BenchmarkList(w1, w2, w3);
    assert CeilDiv(100, 5000) == 1;
    assert CeilDiv(500, 5000) == 1 && CeilDiv(500, 1000) == 1;
    assert CeilDiv(800, 5000) == 1 && CeilDiv(800, 1000) == 1 && CeilDiv(800, 3000) == 1;
    assert CeilDiv(1000, 5000) == 1 && CeilDiv(1000, 1000) == 1 && CeilDiv(1000, 3000) == 1;
    assert Interference(100, ts, 1) == 1;
    assert Interference(500, ts, 1) == 1;
    assert Interference(500, ts, 2) == 1 + w1;
    assert Interference(800, ts, 1) == 1;
    assert Interference(800, ts, 2) == 1 + w1;
    assert Interference(800, ts, 3) == 1 + w1 + w2;
    assert Interference(1000, ts, 1) == 1;
    assert Interference(1000, ts, 2) == 1 + w1;
    assert Interference(1000, ts, 3) == 1 + w1 + w2;
    assert Interference(1000, ts, 4) == 1 + w1 + w2 + w3;
  }

  /** The script's four task objects, with the three WCETs the user types
      in assigned after construction. */
  method NewBenchmarkTasks(regularProducerWcet: int, onCallProducerWcet: int, activationLogReaderWcet: int)
    returns (pushButtonServer: BenchmarkTask, regularProducer: BenchmarkTask,
             onCallProducer: BenchmarkTask, activationLogReader: BenchmarkTask)
    ensures fresh(pushButtonServer) && fresh(regularProducer) && fresh(onCallProducer) && fresh(activationLogReader)
    ensures pushButtonServer != regularProducer && pushButtonServer != onCallProducer
    ensures pushButtonServer != activationLogReader && regularProducer != onCallProducer
    ensures regularProducer != activationLogReader && onCallProducer != activationLogReader
    ensures SpecOf(pushButtonServer, BenchmarkList(regularProducerWcet, onCallProducerWcet, activationLogReaderWcet)[0])
    ensures SpecOf(regularProducer, BenchmarkList(regularProducerWcet, onCallProducerWcet, activationLogReaderWcet)[1])
    ensures SpecOf(onCallProducer, BenchmarkList(regularProducerWcet, onCallProducerWcet, activationLogReaderWcet)[2])
    ensures SpecOf(activationLogReader, BenchmarkList(regularProducerWcet, onCallProducerWcet, activationLogReaderWcet)[3])
  {
    pushButtonServer := new BenchmarkTask(5000, 100, 7, "Push button server", 1);
    regularProducer := new BenchmarkTask(1000, 500, 6, "Regular producer");
    onCallProducer := new BenchmarkTask(3000, 800, 4, "On call producer");
    activationLogReader := new BenchmarkTask(3000, 1000, 2, "Activation log reader");

    regularProducer.wcet := regularProducerWcet;
    onCallProducer.wcet := onCallProducerWcet;
    activationLogReader.wcet := activationLogReaderWcet;
  }

  /** The script's set-up: the four tasks of the benchmark listed in the
      script's order. */
  method NewBenchmarkTaskList(regularProducerWcet: int, onCallProducerWcet: int, activationLogReaderWcet: int)
    returns (taskList: array<BenchmarkTask>)
    ensures fresh(taskList) && taskList.Length == 4
    ensures forall k :: 0 <= k < 4 ==> fresh(taskList[k])
    ensures Specs(taskList[..]) == BenchmarkList(regularProducerWcet, onCallProducerWcet, activationLogReaderWcet)
    ensures forall k :: 0 <= k < 4 ==> FirstIndex(taskList[..], taskList[k]) == k
  {
    var pushButtonServer, regularProducer, onCallProducer, activationLogReader :=
      NewBenchmarkTasks(regularProducerWcet, onCallProducerWcet, activationLogReaderWcet);
    taskList := new BenchmarkTask[4] [pushButtonServer, regularProducer, onCallProducer, activationLogReader];
    ghost var tasks := taskList[..];
    assert tasks == [pushButtonServer, regularProducer, onCallProducer, activationLogReader];
    SpecsPointwise(tasks, BenchmarkList(regularProducerWcet, onCallProducerWcet, activationLogReaderWcet));
    FourDistinct(tasks);
  }

  /** Tasks whose numbers agree, position by position, with ts have ts as
      their specs. */
  lemma SpecsPointwise(tasks: seq<BenchmarkTask>, ts: seq<TaskSpec>)
    requires |tasks| == |ts| && forall k :: 0 <= k < |tasks| ==> SpecOf(tasks[k], ts[k])
    ensures Specs(tasks) == ts
  {
  }

  /** Four different tasks each sit at their own first index. */
  lemma FourDistinct<T>(s: seq<T>)
    requires |s| == 4
    requires s[0] != s[1] && s[0] != s[2] && s[0] != s[3]
    requires s[1] != s[2] && s[1] != s[3] && s[2] != s[3]
    ensures forall k :: 0 <= k < 4 ==> FirstIndex(s, s[k]) == k
  {
    forall k | 0 <= k < 4 ensures FirstIndex(s, s[k]) == k {
      DistinctFirstIndex(s, k);
    }
  }

  /** The script: build the benchmark's task list, run the analysis and
      report each task's slack (the three WCETs it reads from the user are
      parameters here). */
  method BenchmarkSlacks(regularProducerWcet: int, onCallProducerWcet: int, activationLogReaderWcet: int)
    returns (pushButtonServerSlack: int, regularProducerSlack: int, onCallProducerSlack: int, activationLogReaderSlack: int)
    ensures pushButtonServerSlack == 99
    ensures regularProducerSlack == 499 - regularProducerWcet
    ensures onCallProducerSlack == 799 - regularProducerWcet - onCallProducerWcet
    ensures activationLogReaderSlack == 999 - regularProducerWcet - onCallProducerWcet - activationLogReaderWcet
  {
    var taskList := NewBenchmarkTaskList(regularProducerWcet, onCallProducerWcet, activationLogReaderWcet);
    ghost var ts := BenchmarkList(regularProducerWcet, onCallProducerWcet, activationLogReaderWcet);
    ghost var tasks := taskList[..];
    BenchmarkListSlacks(regularProducerWcet, onCallProducerWcet, activationLogReaderWcet);
    ComputeSlacks(taskList);
    assert taskList[..] == tasks && Specs(tasks) == ts;
    pushButtonServerSlack := taskList[0].slack.value;
    regularProducerSlack := taskList[1].slack.value;
    onCallProducerSlack := taskList[2].slack.value;
    activationLogReaderSlack := taskList[3].slack.value;
  }
}
