/**
 Core and the App together: the snapshot and the answer travel separately, the App compiles several snapshots at once,
 may be told of events at any time and may restart from any profile it issued.  Core starts afresh against an App in any
 state that an earlier Core may have left it in: with profiles, decisions, compiles and answers of its own.
 */
module Protocol {
  import opened Common
  import opened CoreRuns
  import C = Coordinator
  import M = Monitor

  datatype Cloud = Cloud(
    app: M.App,
    requested: set<int>,             // snapshots on their way to the App; those of an earlier Core are negative
    compiling: map<int, nat>,        // snapshots being compiled, with the App generation recorded
    replies: map<int, M.Reply>,      // answers on their way back, by snapshot
    decisions: set<Decision>,        // every EXECUTE issued so far
    compiled: map<string, int>)      // history: the snapshot behind every revision ever issued

  datatype AppLabel =
    | Begin(snapshot: int)
    | Event(kind: string)
    | Finish(snapshot: int, revision: string)
    | Restart(stored: Option<M.Profile>)
    | Decide

  /**
   `clean`: the answer published last listed no pending sections, which Core can read off the answer as it publishes it;
   `begun`: the batches whose targets were resolved while that was so.
   */
  datatype System = System(node: Node, cloud: Cloud, clean: bool, begun: set<nat>)

  datatype Step = AtCore(core: Label) | AtApp(app: AppLabel)

  function Initially(cloud: Cloud): System {
    System(CoreRuns.Initial(), cloud, true, {})
  }

  predicate CloudEnabled(c: Cloud, l: AppLabel) {
    match l
    case Begin(snapshot) => snapshot in c.requested
    case Event(_) => true
    case Finish(snapshot, revision) => snapshot in c.compiling && revision != "" && revision !in c.compiled
    case Restart(stored) =>
      stored.Some? ==> stored.value.revision in c.compiled && c.compiled[stored.value.revision] == stored.value.snapshot
    case Decide => c.app.active.Some? && M.MayDecide(c.app, c.app.active.value.revision)
  }

  function Finished(c: Cloud, snapshot: int, revision: string): Cloud
    requires CloudEnabled(c, Finish(snapshot, revision))
  {
    var (app, reply) := M.Reconciled(c.app, c.compiling[snapshot], M.Profile(revision, snapshot, M.Active, {}));
    c.(app := app, compiling := c.compiling - {snapshot}, compiled := c.compiled[revision := snapshot],
       replies := if reply.Some? then c.replies[snapshot := reply.value] else c.replies)
  }

  function CloudNext(c: Cloud, l: AppLabel): Cloud
    requires CloudEnabled(c, l)
  {
    match l
    case Begin(snapshot) => c.(requested := c.requested - {snapshot}, compiling := c.compiling[snapshot := c.app.generation])
    case Event(kind) => c.(app := M.Invalidated(c.app, kind))
    case Finish(snapshot, revision) => Finished(c, snapshot, revision)
    case Restart(stored) => c.(app := M.Restored(stored), requested := {}, compiling := map[])
    case Decide => c.(decisions := c.decisions + {Decision(c.app.active.value.revision, c.app.active.value.snapshot)})
  }

  /** What a Core step needs from the other side: an answer that arrived, a decision that was issued. */
  predicate Offered(s: System, l: Label) {
    match l
    case Answer(reply) =>
      s.node.lock.Held? && s.node.lock.phase.Awaiting? &&
      s.node.lock.phase.build.scan in s.cloud.replies && s.cloud.replies[s.node.lock.phase.build.scan] == reply
    case Write(d, _) => d in s.cloud.decisions
    case BatchBegin(_, d, _) => d in s.cloud.decisions
    case _ => true
  }

  predicate Publishes(n: Node, l: Label) {
    l.Answer? && n.lock.Held? && n.lock.phase.Awaiting? && n.lock.phase.start == n.core.generation && l.reply.profile.revision != ""
  }

  predicate CanStep(s: System, step: Step) {
    match step
    case AtCore(l) => Enabled(s.node, l) && Offered(s, l)
    case AtApp(l) => CloudEnabled(s.cloud, l)
  }

  /** A Core step that sends a snapshot hands it to the App. */
  function Sent(s: System, l: Label): Cloud
    requires Enabled(s.node, l)
  {
    if l.EndScan? then s.cloud.(requested := s.cloud.requested + {s.node.lock.phase.scan}) else s.cloud
  }

  function After(s: System, now: nat, step: Step): System
    requires CanStep(s, step)
  {
    match step
    case AtCore(l) =>
      System(Next(s.node, now, l), Sent(s, l),
             if Publishes(s.node, l) then l.reply.pending == {} else s.clean,
             if l.BatchBegin? && s.clean then s.begun + {l.id} else s.begun)
    case AtApp(l) => s.(cloud := CloudNext(s.cloud, l))
  }

  /** A run of the whole system; `now` counts Core steps, so that a snapshot is named by the Core step that began it. */
  function Run(cloud: Cloud, steps: seq<Step>): Option<System>
    decreases |steps|
  {
    if steps == [] then Some(Initially(cloud))
    else
      match Run(cloud, steps[..|steps| - 1])
      case None => None
      case Some(s) =>
        if CanStep(s, steps[|steps| - 1])
        then Some(After(s, |AtCoreOnly(steps[..|steps| - 1])|, steps[|steps| - 1]))
        else None
  }

  /** What Core does in a run of the system. */
  function AtCoreOnly(steps: seq<Step>): seq<Label>
    decreases |steps|
  {
    if steps == [] then []
    else
      var before := AtCoreOnly(steps[..|steps| - 1]);
      if steps[|steps| - 1].AtCore? then before + [steps[|steps| - 1].core] else before
  }

  /** Core's part of every run of the system is a run of Core alone. */
  lemma {:induction false} CoreRunsAlone(cloud: Cloud, steps: seq<Step>)
    requires Run(cloud, steps).Some?
    ensures Execute(AtCoreOnly(steps)) == Some(Run(cloud, steps).value.node)
    decreases |steps|
  {
    if steps == [] {
    } else {
      var before, step := steps[..|steps| - 1], steps[|steps| - 1];
      CoreRunsAlone(cloud, before);
      if step.AtCore? {
        var run := AtCoreOnly(steps);
        assert run[..|run| - 1] == AtCoreOnly(before);
      }
    }
  }

  // ---------------------------------------------------------------------------------------------------------
  // Revisions and the snapshots they were compiled from
  // ---------------------------------------------------------------------------------------------------------

  ghost predicate Issued(c: Cloud, revision: string, snapshot: int) {
    revision in c.compiled && c.compiled[revision] == snapshot
  }

  /** A snapshot that has not been compiled to the end yet. */
  ghost predicate Unfinished(c: Cloud, snapshot: int) {
    forall r :: r in c.compiled ==> c.compiled[r] != snapshot
  }

  /** An answer without pending sections is about the snapshot it answers; any other is about an older one. */
  ghost predicate Honest(c: Cloud, snapshot: int, reply: M.Reply) {
    && Issued(c, reply.profile.revision, reply.profile.snapshot)
    && (reply.pending == {} <==> reply.profile.snapshot == snapshot)
  }

  ghost predicate CloudInvariant(c: Cloud) {
    && "" !in c.compiled
    && (c.app.active.Some? ==> Issued(c, c.app.active.value.revision, c.app.active.value.snapshot))
    && (forall snapshot :: snapshot in c.requested ==> Unfinished(c, snapshot) && snapshot !in c.compiling)
    && (forall snapshot :: snapshot in c.compiling ==> Unfinished(c, snapshot))
    && (forall snapshot :: snapshot in c.replies ==> Honest(c, snapshot, c.replies[snapshot]))
    && (forall d :: d in c.decisions ==> Issued(c, d.revision, d.snapshot))
  }

  lemma FinishedKeepsReplies(c: Cloud, snapshot: int, revision: string, s: int)
    requires CloudInvariant(c) && CloudEnabled(c, Finish(snapshot, revision))
    requires s in Finished(c, snapshot, revision).replies
    ensures Honest(Finished(c, snapshot, revision), s, Finished(c, snapshot, revision).replies[s])
  {
    assert M.Entities in M.ALL_SECTIONS;
  }

  lemma FinishKeepsCloudInvariant(c: Cloud, snapshot: int, revision: string)
    requires CloudInvariant(c) && CloudEnabled(c, Finish(snapshot, revision))
    ensures CloudInvariant(Finished(c, snapshot, revision))
  {
    var c' := Finished(c, snapshot, revision);
    forall s | s in c'.replies ensures Honest(c', s, c'.replies[s]) {
      FinishedKeepsReplies(c, snapshot, revision, s);
    }
  }

  lemma CloudInvariantStep(c: Cloud, l: AppLabel)
    requires CloudInvariant(c) && CloudEnabled(c, l)
    ensures CloudInvariant(CloudNext(c, l))
  {
    if l.Finish? {
      FinishKeepsCloudInvariant(c, l.snapshot, l.revision);
    }
  }

  // ---------------------------------------------------------------------------------------------------------
  // Core's published build, batches in progress and decisions agree on the snapshot
  // ---------------------------------------------------------------------------------------------------------

  ghost predicate IdsBelow(c: Cloud, now: nat) {
    && (forall snapshot :: snapshot in c.requested ==> snapshot < now)
    && (forall snapshot :: snapshot in c.compiling ==> snapshot < now)
    && (forall snapshot :: snapshot in c.replies ==> snapshot < now)
    && (forall r :: r in c.compiled ==> c.compiled[r] < now)
  }

  /** What an earlier Core may have left behind: all of it is about snapshots from before this Core's first step. */
  ghost predicate Earlier(c: Cloud) {
    CloudInvariant(c) && IdsBelow(c, 0)
  }

  /** Any profile of an earlier Core, in any status, with decisions taken on it. */
  lemma EarlierProfilesAreAllowed(p: M.Profile, pending: set<M.Section>, generation: nat)
    requires p.revision != "" && p.snapshot < 0
    ensures Earlier(Cloud(M.App(Some(p), pending, generation), {}, map[], map[], {Decision(p.revision, p.snapshot)}, map[p.revision := p.snapshot]))
  {
  }

  /** A scan in progress has not been sent yet. */
  ghost predicate UnsentScan(n: Node, c: Cloud, now: nat) {
    n.lock.Held? && n.lock.phase.Scanning? ==>
      var scan := n.lock.phase.scan;
      scan < now && Unfinished(c, scan) && scan !in c.requested && scan !in c.compiling
  }

  /** A batch's targets are those of the scan behind its decision's revision exactly when it was begun clean. */
  ghost predicate BatchAgrees(c: Cloud, b: Batch, begunClean: bool) {
    && b.decision in c.decisions && b.decision.revision in c.compiled
    && (c.compiled[b.decision.revision] == b.scan <==> begunClean)
  }

  /** And so is the published build. */
  ghost predicate BuildAgrees(n: Node, c: Cloud, clean: bool) {
    n.core.profileRevision.Some? ==>
      && n.core.build.Some? && n.core.profileRevision.value in c.compiled
      && (c.compiled[n.core.profileRevision.value] == n.core.build.value.scan <==> clean)
  }

  ghost predicate BatchesAgree(n: Node, c: Cloud, begun: set<nat>) {
    begun <= n.batches.Keys && forall b :: b in n.batches ==> BatchAgrees(c, n.batches[b], b in begun)
  }

  ghost predicate Agreement(s: System) {
    BuildAgrees(s.node, s.cloud, s.clean) && BatchesAgree(s.node, s.cloud, s.begun)
  }

  ghost predicate SystemInvariant(s: System, now: nat) {
    && CloudInvariant(s.cloud)
    && IdsBelow(s.cloud, now)
    && UnsentScan(s.node, s.cloud, now)
    && Agreement(s)
  }

  lemma AppStepKeepsInvariant(s: System, now: nat, l: AppLabel)
    requires SystemInvariant(s, now) && CloudEnabled(s.cloud, l)
    ensures SystemInvariant(After(s, now, AtApp(l)), now)
  {
    CloudInvariantStep(s.cloud, l);
    var c' := CloudNext(s.cloud, l);
    forall b | b in s.node.batches ensures BatchAgrees(c', s.node.batches[b], b in s.begun) {
      assert BatchAgrees(s.cloud, s.node.batches[b], b in s.begun);
    }
  }

  lemma SendingKeepsCloudInvariant(s: System, now: nat, l: Label)
    requires CloudInvariant(s.cloud) && IdsBelow(s.cloud, now) && UnsentScan(s.node, s.cloud, now) && Enabled(s.node, l)
    ensures CloudInvariant(Sent(s, l)) && IdsBelow(Sent(s, l), now + 1)
  {
  }

  lemma OneUnsentScan(s: System, now: nat, l: Label)
    requires IdsBelow(s.cloud, now) && UnsentScan(s.node, s.cloud, now) && Enabled(s.node, l)
    ensures UnsentScan(Next(s.node, now, l), Sent(s, l), now + 1)
  {
  }

  lemma HonestAnswerAgrees(n: Node, c: Cloud, now: nat, l: Label, clean: bool)
    requires Enabled(n, l) && l.Answer? && BuildAgrees(n, c, clean)
    requires Honest(c, n.lock.phase.build.scan, l.reply)
    ensures BuildAgrees(Next(n, now, l), c, if Publishes(n, l) then l.reply.pending == {} else clean)
  {
  }

  lemma AnswersKeepAgreement(s: System, now: nat, l: Label)
    requires SystemInvariant(s, now) && CanStep(s, AtCore(l)) && l.Answer?
    ensures Agreement(After(s, now, AtCore(l)))
  {
    assert Honest(s.cloud, s.node.lock.phase.build.scan, l.reply);
    HonestAnswerAgrees(s.node, s.cloud, now, l, s.clean);
    OtherStepsKeepBatches(s.node, now, l);
    var s' := After(s, now, AtCore(l));
    forall b | b in s'.node.batches ensures BatchAgrees(s'.cloud, s'.node.batches[b], b in s'.begun) {
      assert BatchAgrees(s.cloud, s.node.batches[b], b in s.begun);
    }
  }

  lemma BeginningKeepsAgreement(s: System, now: nat, l: Label)
    requires SystemInvariant(s, now) && CanStep(s, AtCore(l)) && l.BatchBegin? && Coherent(s.node)
    ensures Agreement(After(s, now, AtCore(l)))
  {
    var s' := After(s, now, AtCore(l));
    assert BatchAgrees(s.cloud, s'.node.batches[l.id], s.clean);
    forall b | b in s'.node.batches ensures BatchAgrees(s'.cloud, s'.node.batches[b], b in s'.begun) {
      assert b != l.id ==> BatchAgrees(s.cloud, s.node.batches[b], b in s.begun);
    }
  }

  lemma OtherStepsKeepBatches(n: Node, now: nat, l: Label)
    requires Enabled(n, l) && !l.BatchBegin?
    ensures Next(n, now, l).batches.Keys == n.batches.Keys
    ensures forall b :: b in n.batches ==>
      Next(n, now, l).batches[b].decision == n.batches[b].decision && Next(n, now, l).batches[b].scan == n.batches[b].scan
  {
  }

  lemma CoreStepsKeepAgreement(s: System, now: nat, l: Label)
    requires SystemInvariant(s, now) && CanStep(s, AtCore(l)) && !l.Answer? && !l.BatchBegin? && Coherent(s.node)
    ensures Agreement(After(s, now, AtCore(l)))
  {
    OnlyAnswersPublish(s.node, now, l);
    OtherStepsKeepBatches(s.node, now, l);
    var s' := After(s, now, AtCore(l));
    forall b | b in s'.node.batches ensures BatchAgrees(s'.cloud, s'.node.batches[b], b in s'.begun) {
      assert BatchAgrees(s.cloud, s.node.batches[b], b in s.begun);
    }
  }

  lemma CoreStepKeepsInvariant(s: System, now: nat, l: Label)
    requires SystemInvariant(s, now) && CanStep(s, AtCore(l)) && Coherent(s.node)
    ensures SystemInvariant(After(s, now, AtCore(l)), now + 1)
  {
    SendingKeepsCloudInvariant(s, now, l);
    OneUnsentScan(s, now, l);
    if l.Answer? {
      AnswersKeepAgreement(s, now, l);
    } else if l.BatchBegin? {
      BeginningKeepsAgreement(s, now, l);
    } else {
      CoreStepsKeepAgreement(s, now, l);
    }
  }

  lemma {:induction false} SystemInvariantHolds(cloud: Cloud, steps: seq<Step>)
    requires Earlier(cloud) && Run(cloud, steps).Some?
    ensures SystemInvariant(Run(cloud, steps).value, |AtCoreOnly(steps)|)
    ensures Coherent(Run(cloud, steps).value.node)
    decreases |steps|
  {
    CoreRunsAlone(cloud, steps);
    InvariantHolds(AtCoreOnly(steps));
    if steps == [] {
    } else {
      var before, step := steps[..|steps| - 1], steps[|steps| - 1];
      SystemInvariantHolds(cloud, before);
      var s, now := Run(cloud, before).value, |AtCoreOnly(before)|;
      if step.AtApp? {
        AppStepKeepsInvariant(s, now, step.app);
      } else {
        CoreStepKeepsInvariant(s, now, step.core);
      }
    }
  }

  // ---------------------------------------------------------------------------------------------------------
  // One Core after another
  // ---------------------------------------------------------------------------------------------------------

  function ProfileFor(p: M.Profile, elapsed: nat): M.Profile {
    p.(snapshot := p.snapshot - elapsed)
  }

  /** What the App holds, with the snapshots named as a Core does that starts after `elapsed` steps: all of them negative. */
  function ForTheNext(c: Cloud, elapsed: nat): Cloud {
    var compiling, replies := set snapshot | snapshot in c.compiling :: snapshot - elapsed, set snapshot | snapshot in c.replies :: snapshot - elapsed;
    Cloud(c.app.(active := if c.app.active.Some? then Some(ProfileFor(c.app.active.value, elapsed)) else None),
          set snapshot | snapshot in c.requested :: snapshot - elapsed,
          map snapshot | snapshot in compiling :: c.compiling[snapshot + elapsed],
          map snapshot | snapshot in replies :: c.replies[snapshot + elapsed].(profile := ProfileFor(c.replies[snapshot + elapsed].profile, elapsed)),
          set d | d in c.decisions :: Decision(d.revision, d.snapshot - elapsed),
          map revision | revision in c.compiled :: c.compiled[revision] - elapsed)
  }

  lemma NextIssued(c: Cloud, elapsed: nat, revision: string, snapshot: int)
    requires Issued(c, revision, snapshot)
    ensures Issued(ForTheNext(c, elapsed), revision, snapshot - elapsed)
  {
  }

  lemma NextUnfinished(c: Cloud, elapsed: nat, snapshot: int)
    requires Unfinished(c, snapshot)
    ensures Unfinished(ForTheNext(c, elapsed), snapshot - elapsed)
  {
  }

  lemma NextHonest(c: Cloud, elapsed: nat, snapshot: int)
    requires snapshot in ForTheNext(c, elapsed).replies && snapshot + elapsed in c.replies
    requires Honest(c, snapshot + elapsed, c.replies[snapshot + elapsed])
    ensures Honest(ForTheNext(c, elapsed), snapshot, ForTheNext(c, elapsed).replies[snapshot])
  {
    var reply := c.replies[snapshot + elapsed];
    NextIssued(c, elapsed, reply.profile.revision, reply.profile.snapshot);
  }

  lemma NextWaiting(c: Cloud, elapsed: nat)
    requires CloudInvariant(c)
    ensures var next := ForTheNext(c, elapsed);
      && (forall snapshot :: snapshot in next.requested ==> Unfinished(next, snapshot) && snapshot !in next.compiling)
      && (forall snapshot :: snapshot in next.compiling ==> Unfinished(next, snapshot))
  {
    var next := ForTheNext(c, elapsed);
    forall snapshot | snapshot in next.requested || snapshot in next.compiling ensures Unfinished(next, snapshot) {
      NextUnfinished(c, elapsed, snapshot + elapsed);
    }
  }

  lemma NextBelow(c: Cloud, elapsed: nat)
    requires IdsBelow(c, elapsed)
    ensures IdsBelow(ForTheNext(c, elapsed), 0)
  {
  }

  lemma LaterNamesKeepInvariant(c: Cloud, elapsed: nat)
    requires CloudInvariant(c) && IdsBelow(c, elapsed)
    ensures Earlier(ForTheNext(c, elapsed))
  {
    var next := ForTheNext(c, elapsed);
    NextBelow(c, elapsed);
    NextWaiting(c, elapsed);
    forall snapshot | snapshot in next.replies ensures Honest(next, snapshot, next.replies[snapshot]) {
      NextHonest(c, elapsed, snapshot);
    }
    forall d | d in next.decisions ensures Issued(next, d.revision, d.snapshot) {
      NextIssued(c, elapsed, d.revision, d.snapshot + elapsed);
    }
    if c.app.active.Some? {
      NextIssued(c, elapsed, c.app.active.value.revision, c.app.active.value.snapshot);
    }
  }

  /** The App after several Cores, each started after the one before had stopped, wherever that was. */
  function AfterCores(cloud: Cloud, lives: seq<seq<Step>>): Option<Cloud> {
    if lives == [] then Some(cloud)
    else
      match AfterCores(cloud, lives[..|lives| - 1])
      case None => None
      case Some(before) =>
        var life := lives[|lives| - 1];
        if Run(before, life).Some? then Some(ForTheNext(Run(before, life).value.cloud, |AtCoreOnly(life)|)) else None
  }

  /** So everything said here of one Core holds of each in any sequence of them. */
  lemma {:induction false} EveryCoreStartsEarlier(cloud: Cloud, lives: seq<seq<Step>>)
    requires Earlier(cloud) && AfterCores(cloud, lives).Some?
    ensures Earlier(AfterCores(cloud, lives).value)
  {
    if lives == [] {
    } else {
      var before, life := AfterCores(cloud, lives[..|lives| - 1]).value, lives[|lives| - 1];
      EveryCoreStartsEarlier(cloud, lives[..|lives| - 1]);
      SystemInvariantHolds(before, life);
      LaterNamesKeepInvariant(Run(before, life).value.cloud, |AtCoreOnly(life)|);
    }
  }

  /** The scan that a write's target was resolved in. */
  function WrittenScan(n: Node, l: Label): Option<nat>
    requires Enabled(n, l)
  {
    match l
    case Write(_, _) => if n.core.build.Some? then Some(n.core.build.value.scan) else None
    case BatchWrite(b) => Some(n.batches[b].scan)
    case _ => None
  }

  /** The guard of a write: for a single one that the answer published last was clean, for a batch that the one published when it began was. */
  predicate Guarded(s: System, l: Label) {
    if l.BatchWrite? then l.id in s.begun else s.clean
  }

  /**
   In every reachable state a write that Core may make goes to a target of the very scan whose snapshot its decision was
   taken on if and only if it is guarded.  The published build is that scan if and only if the answer published last was
   clean; and then no event has reached Core since that scan began.
   */
  lemma WritesUseTheDecidedScanExactly(cloud: Cloud, steps: seq<Step>, l: Label)
    requires Earlier(cloud) && Run(cloud, steps).Some? && CanStep(Run(cloud, steps).value, AtCore(l))
    requires l.Write? || l.BatchWrite?
    ensures var s, run := Run(cloud, steps).value, AtCoreOnly(steps);
      && WrittenFor(s.node, l).Some? && WrittenScan(s.node, l).Some?
      && var d := WrittenFor(s.node, l).value;
      && d in s.cloud.decisions
      && (WrittenScan(s.node, l).value == d.snapshot <==> Guarded(s, l))
      && s.node.core.build.Some? && s.node.core.mapTargets == s.node.core.build.value.targets
      && (s.node.core.build.value.scan == d.snapshot <==> s.clean)
      && (s.clean ==>
            && 0 <= d.snapshot < |run| && run[d.snapshot] == BeginScan
            && forall j :: d.snapshot <= j < |run| ==> !IsEvent(run[j]))
  {
    var s, run := Run(cloud, steps).value, AtCoreOnly(steps);
    SystemInvariantHolds(cloud, steps);
    CoreRunsAlone(cloud, steps);
    InvariantHolds(run);
    EventsSplit(run, s.node.core.build.value.scan);
    if l.BatchWrite? {
      assert BatchAgrees(s.cloud, s.node.batches[l.id], l.id in s.begun);
    }
  }

  /**
   The guard Core leaves out: in every reachable state an answer on its way back names the revision compiled from the
   snapshot it answers if and only if its status lists no pending sections.
   */
  lemma AnswersMatchExactlyWithoutPendingSections(cloud: Cloud, steps: seq<Step>, snapshot: int)
    requires Earlier(cloud) && Run(cloud, steps).Some? && snapshot in Run(cloud, steps).value.cloud.replies
    ensures var c := Run(cloud, steps).value.cloud;
      var reply := c.replies[snapshot];
      && reply.profile.revision in c.compiled
      && (c.compiled[reply.profile.revision] == snapshot <==> reply.pending == {})
  {
    SystemInvariantHolds(cloud, steps);
    var c := Run(cloud, steps).value.cloud;
    assert Honest(c, snapshot, c.replies[snapshot]);
  }

  // ---------------------------------------------------------------------------------------------------------
  // Without that guard the guarantee fails
  // ---------------------------------------------------------------------------------------------------------

  lemma RunExtends(cloud: Cloud, steps: seq<Step>, s: System, step: Step)
    requires Run(cloud, steps) == Some(s) && CanStep(s, step)
    ensures Run(cloud, steps + [step]) == Some(After(s, |AtCoreOnly(steps)|, step))
    ensures AtCoreOnly(steps + [step]) == AtCoreOnly(steps) + (if step.AtCore? then [step.core] else [])
  {
    assert (steps + [step])[..|steps|] == steps;
  }

  /** An App that has never been sent a profile. */
  const NEW := Cloud(M.Unused(), {}, map[], map[], {}, map[])

  lemma Extended(steps: seq<Step>, s: System, step: Step) returns (steps': seq<Step>, s': System)
    requires Run(NEW, steps) == Some(s) && CanStep(s, step)
    ensures steps' == steps + [step] && s' == After(s, |AtCoreOnly(steps)|, step) && Run(NEW, steps') == Some(s')
    ensures AtCoreOnly(steps') == AtCoreOnly(steps) + (if step.AtCore? then [step.core] else [])
  {
    RunExtends(NEW, steps, s, step);
    steps', s' := steps + [step], After(s, |AtCoreOnly(steps)|, step);
  }

  const FIRST_TARGETS := map["a" := "x", "b" := "y"]
  const FIRST_PROFILE := M.Profile("r1", 1, M.Active, {})
  const FIRST_REPLY := M.Reply(FIRST_PROFILE, {})
  const DECIDED := Decision("r1", 1)

  lemma LockTaken() returns (steps: seq<Step>, s: System)
    ensures Run(NEW, steps) == Some(s) && |AtCoreOnly(steps)| == 1
    ensures s == System(Node(C.Initial(), Held(Caller, 0, Ready), Idle, map[], map[]), NEW, true, {})
  {
    steps, s := [], Initially(NEW);
    steps, s := Extended(steps, s, AtCore(Acquire(Caller)));
  }

  lemma FirstScanBegun() returns (steps: seq<Step>, s: System)
    ensures Run(NEW, steps) == Some(s) && |AtCoreOnly(steps)| == 2
    ensures s == System(Node(C.Initial(), Held(Caller, 0, Scanning(0, 1)), Idle, map[], map[]), NEW, true, {})
  {
    steps, s := LockTaken();
    steps, s := Extended(steps, s, AtCore(BeginScan));
  }

  /** The first scan is sent and compiled. */
  lemma FirstScanSent() returns (steps: seq<Step>, s: System)
    ensures Run(NEW, steps) == Some(s) && |AtCoreOnly(steps)| == 3
    ensures s.node == Node(C.Initial(), Held(Caller, 0, Awaiting(0, C.Build(1, FIRST_TARGETS))), Idle, map[], map[])
    ensures s.cloud == Initially(NEW).cloud.(requested := {1}) && s.clean
  {
    steps, s := FirstScanBegun();
    steps, s := Extended(steps, s, AtCore(EndScan(FIRST_TARGETS)));
  }

  lemma FirstScanCompiled() returns (steps: seq<Step>, s: System)
    ensures Run(NEW, steps) == Some(s) && |AtCoreOnly(steps)| == 3
    ensures s.node == Node(C.Initial(), Held(Caller, 0, Awaiting(0, C.Build(1, FIRST_TARGETS))), Idle, map[], map[])
    ensures s.cloud == Cloud(M.App(Some(FIRST_PROFILE), {}, 0), {}, map[], map[1 := FIRST_REPLY], {}, map["r1" := 1])
    ensures s.clean
  {
    steps, s := FirstScanSent();
    steps, s := Extended(steps, s, AtApp(Begin(1)));
    assert s.cloud.requested == {} && s.cloud.compiling == map[1 := 0];
    steps, s := Extended(steps, s, AtApp(Finish(1, "r1")));
    assert s.cloud.compiling == map[];
  }

  /** Core after the first publication: only these parts still change. */
  function Published(stale: bool, generation: nat, pending: set<string>, lock: Lock, flush: Flush, batches: map<nat, Batch>): Node {
    Node(C.Core(true, stale, generation, pending, flush != Idle, Some(C.Build(1, FIRST_TARGETS)), Some("r1"), Some("r1"), FIRST_TARGETS),
         lock, flush, map[], batches)
  }

  function Started(written: nat): map<nat, Batch> {
    map[0 := Batch(DECIDED, 1, ["x", "y"], written)]
  }

  ghost predicate FirstCompiled(c: Cloud) {
    c.app == M.App(Some(FIRST_PROFILE), {}, 0) && c.compiling == map[] && c.compiled == map["r1" := 1]
  }

  lemma FirstScanPublished() returns (steps: seq<Step>, s: System)
    ensures Run(NEW, steps) == Some(s) && |AtCoreOnly(steps)| == 5
    ensures s.node == Published(false, 0, {}, Free, Idle, map[]) && FirstCompiled(s.cloud) && DECIDED in s.cloud.decisions
    ensures s.clean
  {
    steps, s := FirstScanCompiled();
    steps, s := Extended(steps, s, AtCore(Answer(FIRST_REPLY)));
    assert s.node.lock == Free && s.node.core.build.Some?;
    steps, s := Extended(steps, s, AtCore(Start));
    steps, s := Extended(steps, s, AtApp(Decide));
  }

  lemma BatchBegun() returns (steps: seq<Step>, s: System)
    ensures Run(NEW, steps) == Some(s) && |AtCoreOnly(steps)| == 6
    ensures s.node == Published(false, 0, {}, Free, Idle, Started(0)) && FirstCompiled(s.cloud) && s.clean && 0 in s.begun
  {
    steps, s := FirstScanPublished();
    steps, s := Extended(steps, s, AtCore(BatchBegin(0, DECIDED, ["a", "b"])));
    assert s.node.batches[0].targets == ["x", "y"];
  }

  /** A batch is decided on it and writes its first target. */
  lemma BatchHalfWay() returns (steps: seq<Step>, s: System)
    ensures Run(NEW, steps) == Some(s) && |AtCoreOnly(steps)| == 7
    ensures s.node == Published(false, 0, {}, Free, Idle, Started(1)) && FirstCompiled(s.cloud) && s.clean && 0 in s.begun
  {
    steps, s := BatchBegun();
    steps, s := Extended(steps, s, AtCore(BatchWrite(0)));
    assert s.node.batches == Started(1);
  }

  /** A registry event arrives and wakes the flush task. */
  lemma EventArrives() returns (steps: seq<Step>, s: System)
    ensures Run(NEW, steps) == Some(s) && |AtCoreOnly(steps)| == 10 && IsEvent(AtCoreOnly(steps)[7])
    ensures s.node == Published(true, 1, {}, Free, WaitingForLock(0), Started(1)) && FirstCompiled(s.cloud) && s.clean && 0 in s.begun
  {
    steps, s := BatchHalfWay();
    steps, s := Extended(steps, s, AtCore(RegistryEvent("area_registry_updated")));
    assert s.node == Published(true, 1, {"area_registry_updated"}, Free, Yielding(0), Started(1));
    steps, s := Extended(steps, s, AtCore(FlushWake));
    assert s.node == Published(true, 1, {}, Free, Notifying(0), Started(1));
    steps, s := Extended(steps, s, AtCore(FlushNotified));
  }

  const SECOND_BUILD := C.Build(11, map["b" := "z"])

  /** The flush task scans again. */
  lemma SecondScanBegun() returns (steps: seq<Step>, s: System)
    ensures Run(NEW, steps) == Some(s) && |AtCoreOnly(steps)| == 12 && IsEvent(AtCoreOnly(steps)[7])
    ensures s.node == Published(true, 1, {}, Held(FlushTask, 0, Scanning(1, 11)), Reconciling(0), Started(1))
    ensures FirstCompiled(s.cloud) && s.clean && 0 in s.begun
  {
    steps, s := EventArrives();
    steps, s := Extended(steps, s, AtCore(Acquire(FlushTask)));
    assert s.node == Published(true, 1, {}, Held(FlushTask, 0, Ready), Reconciling(0), Started(1));
    steps, s := Extended(steps, s, AtCore(BeginScan));
  }

  lemma SecondScanSent() returns (steps: seq<Step>, s: System)
    ensures Run(NEW, steps) == Some(s) && |AtCoreOnly(steps)| == 13 && IsEvent(AtCoreOnly(steps)[7])
    ensures s.node == Published(true, 1, {}, Held(FlushTask, 0, Awaiting(1, SECOND_BUILD)), Reconciling(0), Started(1))
    ensures FirstCompiled(s.cloud) && 11 in s.cloud.requested && s.clean && 0 in s.begun
  {
    steps, s := SecondScanBegun();
    steps, s := Extended(steps, s, AtCore(EndScan(map["b" := "z"])));
  }

  const LATER_EVENT := "manual_reconcile"

  /** The App's own scan endpoint tells it of a reconcile while that snapshot compiles, so it answers with the older profile. */
  lemma SecondScanSuperseded() returns (steps: seq<Step>, s: System, reply: M.Reply)
    ensures Run(NEW, steps) == Some(s) && |AtCoreOnly(steps)| == 13 && IsEvent(AtCoreOnly(steps)[7])
    ensures s.node == Published(true, 1, {}, Held(FlushTask, 0, Awaiting(1, SECOND_BUILD)), Reconciling(0), Started(1))
    ensures s.clean && 0 in s.begun && 11 in s.cloud.replies && s.cloud.replies[11] == reply
    ensures reply.profile.revision == "r1" && reply.pending != {} && "r1" in s.cloud.compiled && s.cloud.compiled["r1"] == 1
  {
    steps, s := SecondScanSent();
    steps, s := Extended(steps, s, AtApp(Begin(11)));
    steps, s := Extended(steps, s, AtApp(Event(LATER_EVENT)));
    steps, s := Extended(steps, s, AtApp(Finish(11, "r2")));
    reply := M.Reply(M.MarkStale(FIRST_PROFILE, M.EventSections(LATER_EVENT)), M.ALL_SECTIONS);
    assert M.Entities in M.ALL_SECTIONS;
  }

  /** Core publishes the older revision for the new scan. */
  lemma OlderRevisionPublished() returns (steps: seq<Step>, s: System)
    ensures Run(NEW, steps) == Some(s) && !s.clean && 0 in s.begun && s.node.batches == Started(1)
    ensures s.node.core.started && !s.node.core.stale && s.node.core.build == Some(SECOND_BUILD)
    ensures s.node.core.profileRevision == Some("r1") == s.node.core.mapRevision && s.node.core.mapTargets == SECOND_BUILD.targets
    ensures 7 < |AtCoreOnly(steps)| && IsEvent(AtCoreOnly(steps)[7])
  {
    var reply;
    steps, s, reply := SecondScanSuperseded();
    steps, s := Extended(steps, s, AtCore(Answer(reply)));
  }

  /**
   A run in which the guard fails: Core publishes the older revision for the new scan.  A single write decided on the first
   scan then goes to a target of the second, and a batch begun on the first goes on although an event has arrived since.
   */
  lemma PublishingPendingAnswersIsUnsafe() returns (steps: seq<Step>, s: System)
    ensures Earlier(NEW) && Run(NEW, steps) == Some(s) && !s.clean && 0 in s.begun
    ensures DECIDED in s.cloud.decisions && CanStep(s, AtCore(Write(DECIDED, "b")))
    ensures WrittenScan(s.node, Write(DECIDED, "b")) == Some(11) && DECIDED.snapshot == 1
    ensures CanStep(s, AtCore(BatchWrite(0))) && s.node.batches[0].decision == DECIDED
    ensures 7 < |AtCoreOnly(steps)| && IsEvent(AtCoreOnly(steps)[7])
  {
    steps, s := OlderRevisionPublished();
    SystemInvariantHolds(NEW, steps);
    assert BatchAgrees(s.cloud, s.node.batches[0], 0 in s.begun);
    BothWritesAreEnabled(s);
  }

  lemma BothWritesAreEnabled(s: System)
    requires s.node.batches == Started(1) && DECIDED in s.cloud.decisions
    requires s.node.core.started && !s.node.core.stale && s.node.core.build == Some(SECOND_BUILD)
    requires s.node.core.profileRevision == Some("r1") == s.node.core.mapRevision && s.node.core.mapTargets == SECOND_BUILD.targets
    ensures CanStep(s, AtCore(Write(DECIDED, "b"))) && WrittenScan(s.node, Write(DECIDED, "b")) == Some(11)
    ensures CanStep(s, AtCore(BatchWrite(0)))
  {
  }
}
