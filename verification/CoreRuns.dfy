/**
 The Core process as a transition system.  A step is what happens between two suspension points, so registry events,
 reconciliation attempts, the flush task, direct event handlers and batch writes interleave freely.  The App is
 arbitrary here: an answer is any reply.
 */
module CoreRuns {
  import opened Common
  import C = Coordinator
  import M = Monitor

  const ATTEMPTS := 3
  const FLUSH_BATCHES := 8

  /** Who runs `async_reconcile`; `Caller` is start-up, the periodic timer, the recovery watch or a manual scan. */
  datatype Owner = FlushTask | Handler(id: nat) | Caller

  /** A scan is identified by the step at which it began; `start` is the generation recorded there. */
  datatype Phase = Ready | Scanning(start: nat, scan: nat) | Awaiting(start: nat, build: C.Build)

  datatype Lock = Free | Held(owner: Owner, attempt: nat, phase: Phase)

  datatype Flush = Idle | Yielding(batch: nat) | Notifying(batch: nat) | WaitingForLock(batch: nat) | Reconciling(batch: nat)

  datatype HandlerPhase = Told | Queued | Running

  /** An EXECUTE the gateway issued; Core may act on it at any later time, any number of times. */
  datatype Decision = Decision(revision: string, snapshot: int)

  /** A batch past its preflight: its targets were resolved from the build of `scan`. */
  datatype Batch = Batch(decision: Decision, scan: nat, targets: seq<string>, written: nat)

  datatype Node = Node(core: C.Core, lock: Lock, flush: Flush, handlers: map<nat, HandlerPhase>, batches: map<nat, Batch>)

  datatype Label =
    | Start
    | RegistryEvent(kind: string)
    | DirectEvent(handler: nat, kind: string)
    | DirectTold(handler: nat, accepted: bool)
    | FlushWake
    | FlushNotified
    | Acquire(owner: Owner)
    | BeginScan
    | EndScan(targets: map<string, string>)
    | Answer(reply: M.Reply)
    | Fail
    | Write(decision: Decision, capability: string)
    | BatchBegin(id: nat, decision: Decision, capabilities: seq<string>)
    | BatchWrite(id: nat)

  function Initial(): Node {
    Node(C.Initial(), Free, Idle, map[], map[])
  }

  /** The events that concern the profile: all but those without a kind and state changes. */
  predicate ProfileEvent(kind: string) {
    kind !in {"", "state_changed"}
  }

  predicate FromBus(l: Label) {
    l.RegistryEvent? && ProfileEvent(l.kind)
  }

  predicate Directly(l: Label) {
    l.DirectEvent? && ProfileEvent(l.kind)
  }

  predicate IsEvent(l: Label) {
    FromBus(l) || Directly(l)
  }

  /** `profile_current` at the decision's revision, with the coordinator's own revision as the current one. */
  predicate MayWrite(n: Node, d: Decision) {
    C.WritesAllowed(n.core, Some(d.revision))
  }

  predicate Enabled(n: Node, l: Label) {
    match l
    case Start => !n.core.started && n.core.build.Some?
    case RegistryEvent(_) => n.core.started
    case DirectEvent(h, _) => h !in n.handlers
    case DirectTold(h, _) => h in n.handlers && n.handlers[h] == Told
    case FlushWake => n.flush.Yielding?
    case FlushNotified => n.flush.Notifying?
    case Acquire(owner) =>
      && n.lock == Free
      && (owner == FlushTask ==> n.flush.WaitingForLock?)
      && (owner.Handler? ==> owner.id in n.handlers && n.handlers[owner.id] == Queued)
    case BeginScan => n.lock.Held? && n.lock.phase == Ready
    case EndScan(_) => n.lock.Held? && n.lock.phase.Scanning?
    case Answer(_) => n.lock.Held? && n.lock.phase.Awaiting?
    case Fail => n.lock.Held? && n.lock.phase != Ready
    case Write(d, capability) => MayWrite(n, d) && capability in n.core.mapTargets
    case BatchBegin(b, d, capabilities) =>
      b !in n.batches && MayWrite(n, d) && n.core.build.Some? && forall c :: c in capabilities ==> c in n.core.mapTargets
    case BatchWrite(b) =>
      b in n.batches && n.batches[b].written < |n.batches[b].targets| && MayWrite(n, n.batches[b].decision)
  }

  /** `async_reconcile` returned or raised: the lock is released and its caller continues. */
  function Released(n: Node): Node
    requires n.lock.Held?
  {
    match n.lock.owner
    case Caller => n.(lock := Free)
    case Handler(h) => n.(lock := Free, handlers := n.handlers - {h})
    case FlushTask => n.(lock := Free, flush := if n.flush.Reconciling? then Yielding(n.flush.batch + 1) else n.flush)
  }

  function Woken(n: Node): Node
    requires n.flush.Yielding?
  {
    var nothing := n.core.pendingEvents == {};
    if n.flush.batch < FLUSH_BATCHES then
      n.(core := C.Drained(n.core), flush := if nothing then Idle else Notifying(n.flush.batch))
    else
      n.(core := C.HandedOver(n.core), flush := if nothing then Idle else Yielding(0))
  }

  function Acquired(n: Node, owner: Owner): Node
    requires Enabled(n, Acquire(owner))
  {
    var lock := Held(owner, 0, Ready);
    match owner
    case Caller => n.(lock := lock)
    case Handler(h) => n.(lock := lock, handlers := n.handlers[h := Running])
    case FlushTask => n.(lock := lock, flush := Reconciling(n.flush.batch))
  }

  function Answered(n: Node, reply: M.Reply): Node
    requires n.lock.Held? && n.lock.phase.Awaiting?
  {
    var start, revision := n.lock.phase.start, reply.profile.revision;
    var core := C.Answered(n.core, start, n.lock.phase.build, revision);
    if revision != "" && start != n.core.generation && n.lock.attempt + 1 < ATTEMPTS then
      n.(core := core, lock := Held(n.lock.owner, n.lock.attempt + 1, Ready))
    else
      Released(n.(core := core))
  }

  function ResolvedTargets(n: Node, capabilities: seq<string>): seq<string>
    requires forall c :: c in capabilities ==> c in n.core.mapTargets
  {
    seq(|capabilities|, i requires 0 <= i < |capabilities| => n.core.mapTargets[capabilities[i]])
  }

  function Next(n: Node, now: nat, l: Label): Node
    requires Enabled(n, l)
  {
    match l
    case Start => n.(core := n.core.(started := true))
    case RegistryEvent(kind) =>
      var core := C.Delivered(n.core, kind);
      n.(core := core, flush := if core.flushLive && n.flush == Idle then Yielding(0) else n.flush)
    case DirectEvent(h, kind) =>
      n.(core := C.DeliveredDirectly(n.core, kind), handlers := if ProfileEvent(kind) then n.handlers[h := Told] else n.handlers)
    case DirectTold(h, accepted) => n.(handlers := if accepted then n.handlers[h := Queued] else n.handlers - {h})
    case FlushWake => Woken(n)
    case FlushNotified => n.(flush := WaitingForLock(n.flush.batch))
    case Acquire(owner) => Acquired(n, owner)
    case BeginScan => n.(lock := n.lock.(phase := Scanning(n.core.generation, now)))
    case EndScan(targets) => n.(lock := n.lock.(phase := Awaiting(n.lock.phase.start, C.Build(n.lock.phase.scan, targets))))
    case Answer(reply) => Answered(n, reply)
    case Fail => Released(n)
    case Write(_, _) => n
    case BatchBegin(b, d, capabilities) =>
      n.(batches := n.batches[b := Batch(d, n.core.build.value.scan, ResolvedTargets(n, capabilities), 0)])
    case BatchWrite(b) => n.(batches := n.batches[b := n.batches[b].(written := n.batches[b].written + 1)])
  }

  /** The state after a run, or `None` when some step was not enabled. */
  function Execute(run: seq<Label>): Option<Node>
    decreases |run|
  {
    if run == [] then Some(Initial())
    else
      match Execute(run[..|run| - 1])
      case None => None
      case Some(n) => if Enabled(n, run[|run| - 1]) then Some(Next(n, |run| - 1, run[|run| - 1])) else None
  }

  /** The number of registry events delivered to Core in a run. */
  function Events(run: seq<Label>): nat
    decreases |run|
  {
    if run == [] then 0 else Events(run[..|run| - 1]) + (if IsEvent(run[|run| - 1]) then 1 else 0)
  }

  lemma {:induction false} EventsSplit(run: seq<Label>, k: nat)
    requires k <= |run|
    ensures Events(run[..k]) <= Events(run)
    ensures Events(run[..k]) == Events(run) ==> forall j :: k <= j < |run| ==> !IsEvent(run[j])
    decreases |run|
  {
    if k == |run| {
      assert run[..k] == run;
    } else {
      var before := run[..|run| - 1];
      EventsSplit(before, k);
      assert before[..k] == run[..k];
      assert forall j :: 0 <= j < |before| ==> before[j] == run[j];
    }
  }

  lemma {:induction false} PrefixExecutes(run: seq<Label>, k: nat)
    requires Execute(run).Some? && k <= |run|
    ensures Execute(run[..k]).Some?
    ensures k < |run| ==> Enabled(Execute(run[..k]).value, run[k])
    decreases |run|
  {
    if k == |run| {
      assert run[..k] == run;
    } else if k < |run| - 1 {
      var before := run[..|run| - 1];
      PrefixExecutes(before, k);
      assert before[..k] == run[..k];
    }
  }

  // ---------------------------------------------------------------------------------------------------------
  // What is published was scanned after the last registry event
  // ---------------------------------------------------------------------------------------------------------

  /** Step `scan` of the run began a scan at generation `start`. */
  ghost predicate BegunAt(run: seq<Label>, scan: nat, start: nat) {
    scan < |run| && run[scan] == BeginScan && Events(run[..scan]) == start
  }

  lemma BegunAtExtends(run: seq<Label>, l: Label, scan: nat, start: nat)
    requires BegunAt(run, scan, start)
    ensures BegunAt(run + [l], scan, start)
  {
    assert (run + [l])[..scan] == run[..scan];
  }

  /** Where the scan under a lock began, and at which generation. */
  function ScanUnder(lock: Lock): Option<(nat, nat)> {
    if lock.Free? then None
    else
      match lock.phase
      case Ready => None
      case Scanning(start, scan) => Some((scan, start))
      case Awaiting(start, build) => Some((build.scan, start))
  }

  /** The scan under the lock is recorded with the generation it began at. */
  ghost predicate Recorded(run: seq<Label>, lock: Lock) {
    var scan := ScanUnder(lock);
    scan.Some? ==> BegunAt(run, scan.value.0, scan.value.1)
  }

  lemma RecordedExtends(run: seq<Label>, l: Label, lock: Lock)
    requires Recorded(run, lock)
    ensures Recorded(run + [l], lock)
  {
    var scan := ScanUnder(lock);
    if scan.Some? {
      BegunAtExtends(run, l, scan.value.0, scan.value.1);
    }
  }

  ghost predicate Coherent(n: Node) {
    C.Consistent(n.core) && (n.core.flushLive <==> n.flush != Idle)
  }

  ghost predicate Invariant(run: seq<Label>, n: Node) {
    && n.core.generation == Events(run)
    && Coherent(n)
    && Recorded(run, n.lock)
    && (!n.core.stale ==> BegunAt(run, n.core.build.value.scan, n.core.generation))
  }

  // The labels in groups, for proofs that look at one group at a time.

  predicate UnderLock(l: Label) {
    l.Acquire? || l.BeginScan? || l.EndScan? || l.Fail?
  }

  predicate OfFlush(l: Label) {
    l.FlushWake? || l.FlushNotified?
  }

  predicate OfWrites(l: Label) {
    l.Write? || l.BatchBegin? || l.BatchWrite?
  }

  /** What a step that is no answer leaves of the published state. */
  ghost predicate Keeps(n: Node, n': Node, isEvent: bool) {
    && Coherent(n')
    && n'.core.build == n.core.build && n'.core.profileRevision == n.core.profileRevision
    && n'.core.generation == n.core.generation + (if isEvent then 1 else 0)
    && (n'.core.stale || (!n.core.stale && !isEvent))
  }

  lemma LockStepsKeep(n: Node, now: nat, l: Label)
    requires Enabled(n, l) && UnderLock(l) && Coherent(n)
    ensures Next(n, now, l).core == n.core && Keeps(n, Next(n, now, l), false)
  {
  }

  lemma WakingKeeps(n: Node)
    requires n.flush.Yielding? && Coherent(n)
    ensures Keeps(n, Woken(n), false) && Woken(n).lock == n.lock
  {
  }

  lemma FlushStepsKeep(n: Node, now: nat, l: Label)
    requires Enabled(n, l) && OfFlush(l) && Coherent(n)
    ensures Keeps(n, Next(n, now, l), false) && Next(n, now, l).lock == n.lock
  {
    if l == FlushWake {
      WakingKeeps(n);
    }
  }

  lemma WriteStepsKeep(n: Node, now: nat, l: Label)
    requires Enabled(n, l) && OfWrites(l) && Coherent(n)
    ensures Keeps(n, Next(n, now, l), false) && Next(n, now, l).lock == n.lock
  {
  }

  lemma EventStepsKeep(n: Node, now: nat, l: Label)
    requires Enabled(n, l) && IsEvent(l) && Coherent(n)
    ensures Keeps(n, Next(n, now, l), true) && Next(n, now, l).lock == n.lock
  {
  }

  lemma IgnoredStepsKeep(n: Node, now: nat, l: Label)
    requires Enabled(n, l) && (l.RegistryEvent? || l.DirectEvent?) && !IsEvent(l) && Coherent(n)
    ensures Next(n, now, l) == n
  {
  }

  /** Only an answer replaces what is published; every other step keeps it or makes it stale. */
  lemma OnlyAnswersPublish(n: Node, now: nat, l: Label)
    requires Enabled(n, l) && !l.Answer? && Coherent(n)
    ensures Keeps(n, Next(n, now, l), IsEvent(l))
  {
    if UnderLock(l) {
      LockStepsKeep(n, now, l);
    } else if OfFlush(l) {
      FlushStepsKeep(n, now, l);
    } else if OfWrites(l) {
      WriteStepsKeep(n, now, l);
    } else if IsEvent(l) {
      EventStepsKeep(n, now, l);
    } else if l.RegistryEvent? || l.DirectEvent? {
      IgnoredStepsKeep(n, now, l);
    }
  }

  lemma BeginRecords(run: seq<Label>, n: Node)
    requires n.core.generation == Events(run) && Enabled(n, BeginScan)
    ensures Recorded(run + [BeginScan], Next(n, |run|, BeginScan).lock)
  {
    assert (run + [BeginScan])[..|run|] == run;
  }

  lemma ScansStay(n: Node, now: nat, l: Label)
    requires Enabled(n, l) && l != BeginScan
    ensures var after := ScanUnder(Next(n, now, l).lock); after.None? || after == ScanUnder(n.lock)
  {
  }

  /** The scan under the lock stays recorded; one that begins is recorded at this step. */
  lemma StepRecords(run: seq<Label>, n: Node, l: Label)
    requires n.core.generation == Events(run) && Recorded(run, n.lock) && Enabled(n, l)
    ensures Recorded(run + [l], Next(n, |run|, l).lock)
  {
    if l == BeginScan {
      BeginRecords(run, n);
    } else {
      ScansStay(n, |run|, l);
      RecordedExtends(run, l, n.lock);
    }
  }

  lemma AnswerReachesCore(n: Node, reply: M.Reply)
    requires n.lock.Held? && n.lock.phase.Awaiting?
    ensures var n' := Answered(n, reply);
      && n'.core == C.Answered(n.core, n.lock.phase.start, n.lock.phase.build, reply.profile.revision)
      && (n'.flush == Idle <==> n.flush == Idle)
  {
  }

  lemma AnswerPublishes(run: seq<Label>, n: Node, reply: M.Reply)
    requires Invariant(run, n) && Enabled(n, Answer(reply))
    ensures var n' := Next(n, |run|, Answer(reply));
      && n'.core.generation == n.core.generation && Coherent(n')
      && (!n'.core.stale ==> BegunAt(run, n'.core.build.value.scan, n'.core.generation))
  {
    AnswerReachesCore(n, reply);
  }

  lemma EventsGrow(run: seq<Label>, l: Label)
    ensures Events(run + [l]) == Events(run) + if IsEvent(l) then 1 else 0
  {
    assert (run + [l])[..|run|] == run;
  }

  lemma InvariantStep(run: seq<Label>, n: Node, l: Label)
    requires Invariant(run, n) && Enabled(n, l)
    ensures Invariant(run + [l], Next(n, |run|, l))
  {
    var n' := Next(n, |run|, l);
    EventsGrow(run, l);
    StepRecords(run, n, l);
    if l.Answer? {
      AnswerPublishes(run, n, l.reply);
    } else {
      OnlyAnswersPublish(n, |run|, l);
    }
    if !n'.core.stale {
      BegunAtExtends(run, l, n'.core.build.value.scan, n'.core.generation);
    }
  }

  lemma {:induction false} InvariantHolds(run: seq<Label>)
    requires Execute(run).Some?
    ensures Invariant(run, Execute(run).value)
    decreases |run|
  {
    if run == [] {
    } else {
      var before, l := run[..|run| - 1], run[|run| - 1];
      InvariantHolds(before);
      InvariantStep(before, Execute(before).value, l);
      assert run == before + [l];
    }
  }

  /** The decision a step writes for, if it writes. */
  function WrittenFor(n: Node, l: Label): Option<Decision>
    requires Enabled(n, l)
  {
    match l
    case Write(d, _) => Some(d)
    case BatchWrite(b) => Some(n.batches[b].decision)
    case _ => None
  }

  /**
   Whenever Core writes, for whatever App and in every interleaving: the published build belongs to the decision's
   revision, its scan is an earlier step of the run, and no registry event reached Core since that scan began.
   */
  lemma WritesFollowTheLastEvent(run: seq<Label>, k: nat)
    requires Execute(run).Some? && k < |run|
    requires run[k].Write? || run[k].BatchWrite?
    ensures Execute(run[..k]).Some? && Enabled(Execute(run[..k]).value, run[k])
    ensures var n := Execute(run[..k]).value;
      && WrittenFor(n, run[k]).Some?
      && n.core.profileRevision == Some(WrittenFor(n, run[k]).value.revision)
      && n.core.build.Some?
      && n.core.mapTargets == n.core.build.value.targets
      && var scan := n.core.build.value.scan;
         scan < k && run[scan] == BeginScan && forall j :: scan <= j < k ==> !IsEvent(run[j])
  {
    PrefixExecutes(run, k);
    InvariantHolds(run[..k]);
    var scan := Execute(run[..k]).value.core.build.value.scan;
    assert run[..k][scan] == run[scan];
    EventsSplit(run[..k], scan);
    forall j | scan <= j < k ensures !IsEvent(run[j]) {
      assert run[..k][j] == run[j];
    }
  }

  // ---------------------------------------------------------------------------------------------------------
  // No registry event is lost
  // ---------------------------------------------------------------------------------------------------------

  /** Some event from the bus has not been followed by the start of a scan. */
  predicate Owing(run: seq<Label>)
    decreases |run|
  {
    if run == [] then false
    else
      match run[|run| - 1]
      case RegistryEvent(kind) => ProfileEvent(kind) || Owing(run[..|run| - 1])
      case BeginScan => false
      case _ => Owing(run[..|run| - 1])
  }

  lemma {:induction false} NothingOwed(run: seq<Label>, i: nat)
    requires !Owing(run) && i < |run| && FromBus(run[i])
    ensures exists j :: i < j < |run| && run[j] == BeginScan
    decreases |run|
  {
    var last := |run| - 1;
    if run[last] != BeginScan {
      NothingOwed(run[..last], i);
      var j :| i < j < last && run[..last][j] == BeginScan;
      assert run[j] == BeginScan;
    }
  }

  /** The flush task still has a scan to start for what is owed. */
  ghost predicate FlushWillScan(n: Node) {
    || n.core.pendingEvents != {}
    || n.flush.Notifying?
    || n.flush.WaitingForLock?
    || (n.flush.Reconciling? && n.lock.Held? && n.lock.phase == Ready)
  }

  /** The flush task is in a reconciliation exactly while it holds the lock. */
  ghost predicate FlushHoldsItsLock(n: Node) {
    n.flush.Reconciling? <==> n.lock.Held? && n.lock.owner == FlushTask
  }

  lemma FlushHoldsItsLockStep(n: Node, now: nat, l: Label)
    requires FlushHoldsItsLock(n) && Enabled(n, l)
    ensures FlushHoldsItsLock(Next(n, now, l))
  {
  }

  lemma FlushWillScanStep(n: Node, now: nat, l: Label)
    requires FlushHoldsItsLock(n) && Enabled(n, l) && l != BeginScan
    requires FlushWillScan(n) || FromBus(l)
    ensures FlushWillScan(Next(n, now, l))
  {
  }

  ghost predicate FlushInvariant(run: seq<Label>, n: Node) {
    FlushHoldsItsLock(n) && (Owing(run) ==> FlushWillScan(n))
  }

  lemma FlushInvariantStep(run: seq<Label>, n: Node, l: Label)
    requires FlushInvariant(run, n) && Enabled(n, l)
    ensures FlushInvariant(run + [l], Next(n, |run|, l))
  {
    assert (run + [l])[..|run|] == run;
    FlushHoldsItsLockStep(n, |run|, l);
    if Owing(run + [l]) {
      FlushWillScanStep(n, |run|, l);
    }
  }

  lemma {:induction false} FlushInvariantHolds(run: seq<Label>)
    requires Execute(run).Some?
    ensures FlushInvariant(run, Execute(run).value)
    decreases |run|
  {
    if run == [] {
    } else {
      var before, l := run[..|run| - 1], run[|run| - 1];
      FlushInvariantHolds(before);
      FlushInvariantStep(before, Execute(before).value, l);
      assert run == before + [l];
    }
  }

  /** The event of this direct handler has not been followed by the start of a scan, and the App did take it. */
  predicate OwedTo(run: seq<Label>, handler: nat)
    decreases |run|
  {
    if run == [] then false
    else
      match run[|run| - 1]
      case DirectEvent(h, kind) => (h == handler && ProfileEvent(kind)) || OwedTo(run[..|run| - 1], handler)
      case DirectTold(h, accepted) => (h != handler || accepted) && OwedTo(run[..|run| - 1], handler)
      case BeginScan => false
      case _ => OwedTo(run[..|run| - 1], handler)
  }

  /** The handler still has to tell the App, waits for the lock, or holds it with its scan next. */
  predicate HandlerWillScan(n: Node, handler: nat) {
    && handler in n.handlers
    && (n.handlers[handler] == Running ==> n.lock.Held? && n.lock.owner == Handler(handler) && n.lock.phase == Ready)
  }

  /** A handler is in a reconciliation exactly while it holds the lock. */
  ghost predicate HandlersHoldTheirLock(n: Node) {
    && (forall h :: h in n.handlers && n.handlers[h] == Running ==> n.lock.Held? && n.lock.owner == Handler(h))
    && (n.lock.Held? && n.lock.owner.Handler? ==> n.lock.owner.id in n.handlers && n.handlers[n.lock.owner.id] == Running)
  }

  lemma HandlersHoldTheirLockStep(n: Node, now: nat, l: Label)
    requires HandlersHoldTheirLock(n) && Enabled(n, l)
    ensures HandlersHoldTheirLock(Next(n, now, l))
  {
  }

  lemma HandlerWillScanStep(n: Node, now: nat, l: Label, handler: nat)
    requires HandlersHoldTheirLock(n) && Enabled(n, l) && l != BeginScan && l != DirectTold(handler, false)
    requires HandlerWillScan(n, handler) || (Directly(l) && l.handler == handler)
    ensures HandlerWillScan(Next(n, now, l), handler)
  {
  }

  lemma {:induction false} HandlersScan(run: seq<Label>, handler: nat)
    requires Execute(run).Some?
    ensures HandlersHoldTheirLock(Execute(run).value)
    ensures OwedTo(run, handler) ==> HandlerWillScan(Execute(run).value, handler)
    decreases |run|
  {
    if run == [] {
    } else {
      var before, l := run[..|run| - 1], run[|run| - 1];
      HandlersScan(before, handler);
      HandlersHoldTheirLockStep(Execute(before).value, |before|, l);
      if OwedTo(run, handler) {
        HandlerWillScanStep(Execute(before).value, |before|, l, handler);
      }
    }
  }

  ghost predicate ScannedAfter(run: seq<Label>, i: nat) {
    exists j :: i < j < |run| && run[j] == BeginScan
  }

  ghost predicate RefusedAfter(run: seq<Label>, i: nat, handler: nat) {
    exists j :: i < j < |run| && run[j] == DirectTold(handler, false)
  }

  lemma {:induction false} NothingOwedTo(run: seq<Label>, i: nat)
    requires i < |run| && Directly(run[i]) && !OwedTo(run, run[i].handler)
    ensures ScannedAfter(run, i) || RefusedAfter(run, i, run[i].handler)
    decreases |run|
  {
    var last, h := |run| - 1, run[i].handler;
    if run[last] != BeginScan && run[last] != DirectTold(h, false) {
      assert run[..last][i] == run[i];
      NothingOwedTo(run[..last], i);
      if j :| i < j < last && run[..last][j] == BeginScan {
        assert run[j] == BeginScan;
      } else {
        var j :| i < j < last && run[..last][j] == DirectTold(h, false);
        assert run[j] == DirectTold(h, false);
      }
    }
  }

  /**
   Pending events always have a live flush task, also while one task hands over to the next after eight batches.  At every
   step each event from the bus has been followed by the start of a scan, or a live flush task has one to start; and each
   direct event has been followed by one, or its handler has one to start, unless the App did not take the event.
   */
  lemma NoEventIsLost(run: seq<Label>)
    requires Execute(run).Some?
    ensures var n := Execute(run).value;
      && (n.core.pendingEvents != {} ==> n.flush != Idle && n.core.flushLive)
      && (forall i :: 0 <= i < |run| && FromBus(run[i]) ==>
            ScannedAfter(run, i) || (n.flush != Idle && n.core.flushLive && FlushWillScan(n)))
      && (forall i :: 0 <= i < |run| && Directly(run[i]) ==>
            ScannedAfter(run, i) || RefusedAfter(run, i, run[i].handler) || HandlerWillScan(n, run[i].handler))
  {
    InvariantHolds(run);
    FlushInvariantHolds(run);
    forall i | 0 <= i < |run| && FromBus(run[i]) && !Owing(run) ensures ScannedAfter(run, i) {
      NothingOwed(run, i);
    }
    forall i | 0 <= i < |run| && Directly(run[i])
      ensures ScannedAfter(run, i) || RefusedAfter(run, i, run[i].handler) || HandlerWillScan(Execute(run).value, run[i].handler)
    {
      HandlersScan(run, run[i].handler);
      if !OwedTo(run, run[i].handler) {
        NothingOwedTo(run, i);
      }
    }
  }

  /**
   In every run an event without a kind or a state change leaves Core as it was: what may be written, the flush task, the
   handlers and the count of events.  Every other event stops all writes, which resume only with a scan begun after it.
   */
  lemma StateChangesChangeNothing(run: seq<Label>, l: Label)
    requires Execute(run).Some? && Enabled(Execute(run).value, l) && (l.RegistryEvent? || l.DirectEvent?)
    ensures Execute(run + [l]).Some?
    ensures l.kind in {"", "state_changed"} ==> Execute(run + [l]) == Execute(run) && Events(run + [l]) == Events(run)
    ensures l.kind !in {"", "state_changed"} ==>
      && Events(run + [l]) == Events(run) + 1 && forall d :: !MayWrite(Execute(run + [l]).value, d)
  {
    assert (run + [l])[..|run|] == run;
    InvariantHolds(run);
    C.EventsMean(Execute(run).value.core, l.kind);
  }

  /** A reconciliation makes at most three attempts, and a flush task takes at most eight batches. */
  predicate Bounded(n: Node) {
    && (n.lock.Held? ==> n.lock.attempt < 3)
    && (n.flush.Yielding? ==> n.flush.batch <= 8)
    && (n.flush.Notifying? || n.flush.WaitingForLock? || n.flush.Reconciling? ==> n.flush.batch < 8)
  }

  lemma BoundedStep(n: Node, now: nat, l: Label)
    requires Bounded(n) && Enabled(n, l) && FlushHoldsItsLock(n)
    ensures Bounded(Next(n, now, l))
  {
  }

  lemma {:induction false} EffortIsBounded(run: seq<Label>)
    requires Execute(run).Some?
    ensures Bounded(Execute(run).value)
    decreases |run|
  {
    if run == [] {
    } else {
      var before, l := run[..|run| - 1], run[|run| - 1];
      EffortIsBounded(before);
      FlushInvariantHolds(before);
      BoundedStep(Execute(before).value, |before|, l);
    }
  }

  /** And neither gives up earlier: a superseded answer is followed by another attempt up to the third, and the ninth wake hands over. */
  lemma NothingGivesUpEarly(n: Node, now: nat, l: Label)
    requires Enabled(n, l) && Coherent(n)
    ensures l.Answer? && l.reply.profile.revision != "" && n.lock.phase.start != n.core.generation && n.lock.attempt < 2 ==>
      Next(n, now, l).lock == Held(n.lock.owner, n.lock.attempt + 1, Ready)
    ensures l == FlushWake && n.core.pendingEvents != {} ==>
      if n.flush.batch < 8 then Next(n, now, l).flush == Notifying(n.flush.batch) && Next(n, now, l).core.pendingEvents == {}
      else Next(n, now, l).flush == Yielding(0) && Next(n, now, l).core == n.core
  {
  }
}
