/** Manual scans: a request that finds one in flight joins it instead of starting another. */
module ManualScan {
  import opened Common

  datatype Task = Running | Done(ok: bool)

  /** `scanTask` is the coordinator's reference to the scan in flight; `joined` is what each waiting request awaits. */
  datatype Desk = Desk(tasks: seq<Task>, scanTask: Option<nat>, joined: map<nat, nat>, answers: map<nat, bool>)

  /** A request is named by the index of its step. */
  datatype Step = Ask | End(task: nat, ok: bool) | Resume(request: nat)

  function Initial(): Desk {
    Desk([], None, map[], map[])
  }

  /** The scan a request joins; a new one if none is in flight. */
  function InFlightOrNew(tasks: seq<Task>, scanTask: Option<nat>): nat {
    if scanTask.Some? && scanTask.value < |tasks| && tasks[scanTask.value].Running? then scanTask.value else |tasks|
  }

  function Joins(d: Desk): nat {
    InFlightOrNew(d.tasks, d.scanTask)
  }

  function Asked(d: Desk, request: nat): Desk {
    var task := Joins(d);
    Desk(if task == |d.tasks| then d.tasks + [Running] else d.tasks, Some(task), d.joined[request := task], d.answers)
  }

  /** A scan that ends forgets itself only if it is still the one referred to. */
  function Ended(d: Desk, task: nat, ok: bool): Desk
    requires task < |d.tasks|
  {
    d.(tasks := d.tasks[task := Done(ok)], scanTask := if d.scanTask == Some(task) then None else d.scanTask)
  }

  predicate Enabled(d: Desk, step: Step) {
    match step
    case Ask => true
    case End(task, _) => task < |d.tasks| && d.tasks[task].Running?
    case Resume(request) => request in d.joined && request !in d.answers && d.joined[request] < |d.tasks| && d.tasks[d.joined[request]].Done?
  }

  function Next(d: Desk, step: Step, index: nat): Desk
    requires Enabled(d, step)
  {
    match step
    case Ask => Asked(d, index)
    case End(task, ok) => Ended(d, task, ok)
    case Resume(request) => d.(answers := d.answers[request := d.tasks[d.joined[request]].ok])
  }

  function Execute(steps: seq<Step>): Option<Desk> {
    if |steps| == 0 then Some(Initial())
    else
      match Execute(steps[..|steps| - 1])
      case None => None
      case Some(d) => if Enabled(d, steps[|steps| - 1]) then Some(Next(d, steps[|steps| - 1], |steps| - 1)) else None
  }

  ghost predicate Invariant(d: Desk, count: nat) {
    && (forall t :: 0 <= t < |d.tasks| && d.tasks[t].Running? ==> d.scanTask == Some(t))
    && (d.scanTask.Some? ==> d.scanTask.value < |d.tasks| && d.tasks[d.scanTask.value].Running?)
    && (forall r :: r in d.joined ==> r < count && d.joined[r] < |d.tasks|)
    && forall r :: r in d.answers ==> r in d.joined && d.tasks[d.joined[r]] == Done(d.answers[r])
  }

  lemma {:induction false} InvariantHolds(steps: seq<Step>)
    requires Execute(steps).Some?
    ensures Invariant(Execute(steps).value, |steps|)
  {
    if |steps| == 0 {
    } else {
      InvariantHolds(steps[..|steps| - 1]);
    }
  }

  /** At most one manual scan is in flight. */
  lemma OneScanAtATime(steps: seq<Step>, t: nat, u: nat)
    requires Execute(steps).Some? && t < |Execute(steps).value.tasks| && u < |Execute(steps).value.tasks|
    requires Execute(steps).value.tasks[t].Running? && Execute(steps).value.tasks[u].Running?
    ensures t == u
  {
    InvariantHolds(steps);
  }

  lemma {:induction false} JoinedStays(steps: seq<Step>, n: nat, request: nat)
    requires Execute(steps).Some? && n <= |steps| && Execute(steps[..n]).Some? && request in Execute(steps[..n]).value.joined
    ensures request in Execute(steps).value.joined && Execute(steps).value.joined[request] == Execute(steps[..n]).value.joined[request]
  {
    if n == |steps| {
      assert steps[..n] == steps;
    } else {
      var before := steps[..|steps| - 1];
      assert before[..n] == steps[..n];
      JoinedStays(before, n, request);
      InvariantHolds(before);
    }
  }

  lemma {:induction false} PrefixExecutes(steps: seq<Step>, n: nat)
    requires Execute(steps).Some? && n <= |steps|
    ensures Execute(steps[..n]).Some?
  {
    if n == |steps| {
      assert steps[..n] == steps;
    } else {
      var before := steps[..|steps| - 1];
      assert before[..n] == steps[..n];
      PrefixExecutes(before, n);
    }
  }

  /** While no scan ends, the scan in flight stays the same. */
  lemma {:induction false} ScanStays(steps: seq<Step>, n: nat, task: nat)
    requires Execute(steps).Some? && n <= |steps| && (forall k :: n <= k < |steps| ==> !steps[k].End?)
    requires Execute(steps[..n]).Some? && Execute(steps[..n]).value.scanTask == Some(task)
    ensures Execute(steps).value.scanTask == Some(task)
  {
    if n == |steps| {
      assert steps[..n] == steps;
    } else {
      var before := steps[..|steps| - 1];
      assert before[..n] == steps[..n];
      ScanStays(before, n, task);
      InvariantHolds(before);
    }
  }

  lemma AskJoins(steps: seq<Step>, i: nat)
    requires Execute(steps).Some? && i < |steps| && steps[i] == Ask
    ensures Execute(steps[..i]).Some? && Execute(steps[..i + 1]).Some?
    ensures var before, after := Execute(steps[..i]).value, Execute(steps[..i + 1]).value;
      after == Asked(before, i) && i in after.joined && after.joined[i] == Joins(before) && after.scanTask == Some(Joins(before))
  {
    PrefixExecutes(steps, i + 1);
    assert steps[..i + 1][..i] == steps[..i];
  }

  /** The scan a request joined is still the one in flight. */
  lemma StillInFlight(steps: seq<Step>, i: nat)
    requires Execute(steps).Some? && i < |steps| && steps[i] == Ask && forall k :: i < k < |steps| ==> !steps[k].End?
    ensures i in Execute(steps).value.joined && Execute(steps).value.scanTask == Some(Execute(steps).value.joined[i])
  {
    AskJoins(steps, i);
    ScanStays(steps, i + 1, Execute(steps[..i + 1]).value.joined[i]);
    JoinedStays(steps, i + 1, i);
  }

  lemma LastRequestJoins(steps: seq<Step>, i: nat)
    requires Execute(steps).Some? && i < |steps| - 1 && steps[i] == Ask && steps[|steps| - 1] == Ask
    requires forall k :: i < k < |steps| - 1 ==> !steps[k].End?
    ensures var joined := Execute(steps).value.joined;
      i in joined && |steps| - 1 in joined && joined[i] == joined[|steps| - 1]
  {
    var before := steps[..|steps| - 1];
    StillInFlight(before, i);
    InvariantHolds(before);
  }

  /** Requests with no end of a scan between them wait for the same scan, whatever else happens. */
  lemma {:induction false} RequestsJoin(steps: seq<Step>, i: nat, j: nat)
    requires Execute(steps).Some? && i < j < |steps| && steps[i] == Ask && steps[j] == Ask
    requires forall k :: i < k < j ==> !steps[k].End?
    ensures var d := Execute(steps).value;
      i in d.joined && j in d.joined && d.joined[i] == d.joined[j]
  {
    if j == |steps| - 1 {
      LastRequestJoins(steps, i);
    } else {
      var before := steps[..|steps| - 1];
      RequestsJoin(before, i, j);
      InvariantHolds(before);
    }
  }

  /** And all that joined a scan get its one outcome. */
  lemma JoinersShareTheOutcome(steps: seq<Step>, r: nat, s: nat)
    requires Execute(steps).Some?
    requires var d := Execute(steps).value;
      r in d.answers && s in d.answers && r in d.joined && s in d.joined && d.joined[r] == d.joined[s]
    ensures Execute(steps).value.answers[r] == Execute(steps).value.answers[s]
  {
    InvariantHolds(steps);
  }

  class ScanDesk {
    var tasks: seq<Task>
    var scanTask: Option<nat>

    constructor ()
      ensures tasks == [] && scanTask == None
    {
      tasks, scanTask := [], None;
    }

    /** The scan the caller then awaits. */
    method Request() returns (task: nat)
      modifies this
      ensures task == InFlightOrNew(old(tasks), old(scanTask)) && scanTask == Some(task)
      ensures old(scanTask).Some? && old(scanTask).value < |old(tasks)| && old(tasks)[old(scanTask).value].Running? ==>
        task == old(scanTask).value && tasks == old(tasks)
      ensures !(old(scanTask).Some? && old(scanTask).value < |old(tasks)| && old(tasks)[old(scanTask).value].Running?) ==>
        task == |old(tasks)| && tasks == old(tasks) + [Running]
    {
      if scanTask.Some? && scanTask.value < |tasks| && tasks[scanTask.value].Running? {
        return scanTask.value;
      }
      task := |tasks|;
      tasks, scanTask := tasks + [Running], Some(task);
    }

    method Finish(task: nat, ok: bool)
      requires task < |tasks| && tasks[task].Running?
      modifies this
      ensures tasks == old(tasks)[task := Done(ok)]
      ensures scanTask == if old(scanTask) == Some(task) then None else old(scanTask)
    {
      tasks := tasks[task := Done(ok)];
      if scanTask == Some(task) {
        scanTask := None;
      }
    }
  }
}
