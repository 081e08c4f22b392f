/**
 The App's profile lifecycle: the change monitor and the part of the gateway that restores, replaces and
 invalidates the active profile.  A compile is not atomic with the events that may arrive while it runs, so a
 reconciliation is split into the step that records the generation and the step that activates the candidate.
 */
module Monitor {
  import opened Common

  datatype Section =
    | Entities | Devices | Organization | Exposure | Services
    | Routines | AssistSurfaces | Compatibility | RoutePolicy

  const ALL_SECTIONS: set<Section> :=
    {Entities, Devices, Organization, Exposure, Services, Routines, AssistSurfaces, Compatibility, RoutePolicy}

  lemma AllSectionsIsComplete(sections: set<Section>)
    ensures sections <= ALL_SECTIONS
  {
    forall s | s in sections ensures s in ALL_SECTIONS {
      match s
      case Entities =>
      case _ =>
    }
  }

  datatype Status = Active | Stale | Reconciling | Candidate | Failed | Disabled

  /** `snapshot` identifies the scan whose observations were compiled. */
  datatype Profile = Profile(revision: string, snapshot: int, status: Status, staleSections: set<Section>)

  /** The sections an event kind invalidates; an unknown kind invalidates all of them. */
  function EventSections(kind: string): (sections: set<Section>)
    ensures sections != {}
  {
    match kind
    case "state_changed" => {Entities}
    case "entity_registry_updated" => {Entities, Exposure, Services}
    case "device_registry_updated" => {Devices, Organization}
    case "area_registry_updated" => {Organization, Entities}
    case "floor_registry_updated" => {Organization, Entities}
    case "label_registry_updated" => {Organization, Entities}
    case "exposure_updated" => {Exposure, Entities, Routines}
    case "service_schema_updated" => {Services, Entities, Routines}
    case "assist_surface_updated" => {AssistSurfaces}
    case "routine_updated" => {Routines}
    case _ => ALL_SECTIONS
  }

  /** Section by section: the listed kinds that make it stale.  Every other kind makes all of them stale. */
  lemma SectionsBecomeStale(kind: string)
    ensures var stale := EventSections(kind);
      if kind in {"state_changed", "entity_registry_updated", "device_registry_updated", "area_registry_updated", "floor_registry_updated",
                  "label_registry_updated", "exposure_updated", "service_schema_updated", "assist_surface_updated", "routine_updated"}
      then
        && (Entities in stale <==> kind !in {"device_registry_updated", "assist_surface_updated", "routine_updated"})
        && (Devices in stale <==> kind == "device_registry_updated")
        && (Organization in stale <==>
              kind in {"device_registry_updated", "area_registry_updated", "floor_registry_updated", "label_registry_updated"})
        && (Exposure in stale <==> kind in {"entity_registry_updated", "exposure_updated"})
        && (Services in stale <==> kind in {"entity_registry_updated", "service_schema_updated"})
        && (Routines in stale <==> kind in {"exposure_updated", "service_schema_updated", "routine_updated"})
        && (AssistSurfaces in stale <==> kind == "assist_surface_updated")
        && Compatibility !in stale && RoutePolicy !in stale
      else forall section: Section :: section in stale
  {
    if kind !in {"state_changed", "entity_registry_updated", "device_registry_updated", "area_registry_updated", "floor_registry_updated",
                 "label_registry_updated", "exposure_updated", "service_schema_updated", "assist_surface_updated", "routine_updated"} {
      forall section: Section ensures section in EventSections(kind) {
        AllSectionsIsComplete({section});
      }
    }
  }

  function MarkStale(p: Profile, sections: set<Section>): Profile {
    p.(status := Stale, staleSections := p.staleSections + sections)
  }

  /** The gateway's own reference and the monitor's reference to the active profile are kept equal. */
  datatype App = App(active: Option<Profile>, pending: set<Section>, generation: nat)

  /** Before any profile was sent. */
  function Unused(): App {
    App(None, {}, 0)
  }

  function Ingested(app: App, kind: string): App {
    app.(pending := app.pending + EventSections(kind), generation := app.generation + 1)
  }

  /** Start-up from persisted state; `None` stands for a missing, unreadable or corrupt file. */
  function Restored(stored: Option<Profile>): App {
    match stored
    case None => Unused()
    case Some(p) => Ingested(Unused().(active := Some(MarkStale(p, ALL_SECTIONS))), "restart")
  }

  function Invalidated(app: App, kind: string): App {
    var marked := match app.active
                  case None => None
                  case Some(p) => Some(MarkStale(p, EventSections(kind)));
    Ingested(app, kind).(active := marked)
  }

  /** What `reconcile` answers: the profile now active, and whether sections are still pending. */
  datatype Reply = Reply(profile: Profile, pending: set<Section>)

  /** The end of a reconciliation that recorded generation `start`; `None` is the raised RuntimeError. */
  function Reconciled(app: App, start: nat, candidate: Profile): (App, Option<Reply>) {
    if start != app.generation then
      var superseded := app.(pending := ALL_SECTIONS);
      (superseded, match app.active
                   case None => None
                   case Some(p) => Some(Reply(p, ALL_SECTIONS)))
    else
      (app.(active := Some(candidate), pending := {}), Some(Reply(candidate, {})))
  }

  /** The freshness gates a decision passes before any provider is asked. */
  predicate MayDecide(app: App, revision: string) {
    && app.active.Some?
    && app.active.value.revision == revision
    && app.active.value.status == Active
    && app.pending == {}
  }

  /** The stateful form kept by the App process. */
  class Lifecycle {
    var activeProfile: Option<Profile>          // Gateway.active_profile
    var monitoredProfile: Option<Profile>       // ChangeMonitor.active_profile
    var pendingSections: set<Section>
    var generation: nat

    ghost predicate Valid()
      reads this
    {
      activeProfile == monitoredProfile
    }

    ghost function State(): App
      reads this
    {
      App(activeProfile, pendingSections, generation)
    }

    constructor (stored: Option<Profile>)
      ensures Valid() && State() == Restored(stored)
    {
      activeProfile, monitoredProfile, pendingSections, generation := None, None, {}, 0;
      new;
      if stored.Some? {
        activeProfile := Some(MarkStale(stored.value, ALL_SECTIONS));
        monitoredProfile := activeProfile;
        Ingest("restart");
      }
    }

    method Ingest(kind: string)
      modifies this`pendingSections, this`generation
      ensures State() == Ingested(old(State()), kind)
    {
      pendingSections := pendingSections + EventSections(kind);
      generation := generation + 1;
    }

    method Invalidate(kind: string)
      requires Valid()
      modifies this
      ensures Valid() && State() == Invalidated(old(State()), kind)
    {
      Ingest(kind);
      if activeProfile.Some? {
        activeProfile := Some(MarkStale(activeProfile.value, EventSections(kind)));
        monitoredProfile := activeProfile;
      }
    }

    method FinishReconcile(start: nat, candidate: Profile) returns (reply: Option<Reply>)
      requires Valid()
      modifies this
      ensures Valid()
      ensures (State(), reply) == Reconciled(old(State()), start, candidate)
    {
      if start != generation {
        pendingSections := pendingSections + ALL_SECTIONS;
        AllSectionsIsComplete(pendingSections);
        assert pendingSections == ALL_SECTIONS;
        if monitoredProfile.None? {
          return None;
        }
        activeProfile := monitoredProfile;
        return Some(Reply(activeProfile.value, pendingSections));
      }
      monitoredProfile := Some(candidate);
      pendingSections := {};
      activeProfile := monitoredProfile;
      return Some(Reply(candidate, pendingSections));
    }
  }

  // ---------------------------------------------------------------------------------------------------------
  // One lifetime of the App, with any number of overlapping reconciliations
  // ---------------------------------------------------------------------------------------------------------

  datatype Step =
    | Event(kind: string)                              // Gateway.invalidate
    | Begin(job: nat)                                  // the generation is recorded, the compile starts
    | Finish(job: nat, revision: string, snapshot: int)

  datatype Lifetime = Lifetime(app: App, jobs: map<nat, nat>)

  predicate Enabled(l: Lifetime, step: Step) {
    match step
    case Event(_) => true
    case Begin(job) => job !in l.jobs
    case Finish(job, _, _) => job in l.jobs
  }

  function Next(l: Lifetime, step: Step): Lifetime
    requires Enabled(l, step)
  {
    match step
    case Event(kind) => l.(app := Invalidated(l.app, kind))
    case Begin(job) => l.(jobs := l.jobs[job := l.app.generation])
    case Finish(job, revision, snapshot) =>
      Lifetime(Reconciled(l.app, l.jobs[job], Profile(revision, snapshot, Active, {})).0, l.jobs - {job})
  }

  /** The state after `steps`, or `None` when some step was not enabled. */
  function Execute(stored: Option<Profile>, steps: seq<Step>): Option<Lifetime>
    decreases |steps|
  {
    if steps == [] then
      Some(Lifetime(Restored(stored), map[]))
    else
      match Execute(stored, steps[..|steps| - 1])
      case None => None
      case Some(l) => if Enabled(l, steps[|steps| - 1]) then Some(Next(l, steps[|steps| - 1])) else None
  }

  /** No event is ingested in `steps[from..to]`. */
  ghost predicate Quiet(steps: seq<Step>, from: nat, to: nat)
    requires to <= |steps|
  {
    forall k :: from <= k < to ==> !steps[k].Event?
  }

  /** Step `i` began job `job` and no event was ingested afterwards. */
  ghost predicate BegunQuietly(steps: seq<Step>, job: nat, i: nat) {
    i < |steps| && steps[i] == Begin(job) && Quiet(steps, i, |steps|)
  }

  /** The active profile was compiled by the reconciliation that began at `i` and ended at `j`, with no event since `i`. */
  ghost predicate Justifies(steps: seq<Step>, active: Profile, i: nat, j: nat) {
    && i < j < |steps|
    && steps[j].Finish?
    && steps[i] == Begin(steps[j].job)
    && active == Profile(steps[j].revision, steps[j].snapshot, Active, {})
    && Quiet(steps, i, |steps|)
  }

  ghost predicate LifetimeInvariant(steps: seq<Step>, l: Lifetime) {
    && (forall job :: job in l.jobs ==> l.jobs[job] <= l.app.generation)
    && (forall job :: job in l.jobs && l.jobs[job] == l.app.generation ==> exists i :: BegunQuietly(steps, job, i))
    && (l.app.active.Some? && l.app.pending == {} ==>
          exists i, j :: Justifies(steps, l.app.active.value, i, j))
  }

  lemma LifetimeInvariantStep(steps: seq<Step>, l: Lifetime, step: Step)
    requires LifetimeInvariant(steps, l) && Enabled(l, step)
    ensures LifetimeInvariant(steps + [step], Next(l, step))
  {
    var steps', l' := steps + [step], Next(l, step);
    if !step.Event? {
      forall job | job in l'.jobs && l'.jobs[job] == l'.app.generation
        ensures exists i :: BegunQuietly(steps', job, i)
      {
        if job in l.jobs && l.jobs[job] == l.app.generation {
          var i :| BegunQuietly(steps, job, i);
          assert BegunQuietly(steps', job, i);
        } else {
          assert BegunQuietly(steps', job, |steps|);
        }
      }
      if l'.app.active.Some? && l'.app.pending == {} {
        if step.Finish? {
          assert Entities in ALL_SECTIONS;
          var i :| BegunQuietly(steps, step.job, i);
          assert Justifies(steps', l'.app.active.value, i, |steps|);
        } else {
          var i, j :| Justifies(steps, l.app.active.value, i, j);
          assert Justifies(steps', l'.app.active.value, i, j);
        }
      }
    }
  }

  lemma {:induction false} LifetimeInvariantHolds(stored: Option<Profile>, steps: seq<Step>)
    requires Execute(stored, steps).Some?
    ensures LifetimeInvariant(steps, Execute(stored, steps).value)
    decreases |steps|
  {
    if steps == [] {
    } else {
      var before, step := steps[..|steps| - 1], steps[|steps| - 1];
      LifetimeInvariantHolds(stored, before);
      LifetimeInvariantStep(before, Execute(stored, before).value, step);
      assert steps == before + [step];
    }
  }

  /**
   Whatever was persisted, the gateway passes its freshness gates only with the profile that a reconciliation of this
   lifetime compiled, and no event was ingested since that reconciliation recorded its generation.
   */
  lemma DecisionsFollowAReconciliation(stored: Option<Profile>, steps: seq<Step>, revision: string)
    requires Execute(stored, steps).Some?
    requires MayDecide(Execute(stored, steps).value.app, revision)
    ensures exists i: nat, j: nat ::
      && Justifies(steps, Execute(stored, steps).value.app.active.value, i, j)
      && steps[j].revision == revision
  {
    LifetimeInvariantHolds(stored, steps);
    var active := Execute(stored, steps).value.app.active.value;
    var i: nat, j: nat :| Justifies(steps, active, i, j);
    assert Justifies(steps, active, i, j) && steps[j].revision == revision;
  }

  /** Whether a reconciliation is answered as superseded is decided by the generation it recorded. */
  lemma SupersededExactly(app: App, start: nat, candidate: Profile)
    requires start <= app.generation
    ensures var (app', reply) := Reconciled(app, start, candidate);
      && (start < app.generation ==>
            && app'.pending == ALL_SECTIONS && app'.active == app.active
            && forall revision :: !MayDecide(app', revision))
      && (reply.Some? ==> (reply.value.pending == {} <==> start == app.generation))
      && (reply.None? ==> app.active.None? && start < app.generation)
  {
    assert Entities in ALL_SECTIONS;
  }

  /** Job `job` began at step `i` and has not finished since. */
  ghost predicate StillCompiling(steps: seq<Step>, job: nat, i: nat) {
    i < |steps| && steps[i] == Begin(job) && forall k :: i < k < |steps| ==> !(steps[k].Finish? && steps[k].job == job)
  }

  /** Its recorded generation is behind exactly if an event came since. */
  lemma {:induction false} EventsOvertake(stored: Option<Profile>, steps: seq<Step>, job: nat, i: nat)
    requires Execute(stored, steps).Some? && StillCompiling(steps, job, i)
    ensures var l := Execute(stored, steps).value;
      job in l.jobs && l.jobs[job] <= l.app.generation && (l.jobs[job] == l.app.generation <==> Quiet(steps, i, |steps|))
    decreases |steps|
  {
    if i < |steps| - 1 {
      var before, step := steps[..|steps| - 1], steps[|steps| - 1];
      assert forall k :: 0 <= k < |before| ==> before[k] == steps[k];
      EventsOvertake(stored, before, job, i);
      assert Quiet(steps, i, |steps|) <==> Quiet(before, i, |before|) && !step.Event?;
    }
  }

  /**
   In every run of a lifetime: when a compile ends, an event ingested since it began leaves every section pending, keeps
   the profile that was active and closes the gates; without one the candidate is activated and nothing is pending.  The
   answer shows it: its pending sections are empty exactly when no event came.
   */
  lemma EventDuringCompileWins(stored: Option<Profile>, steps: seq<Step>, job: nat, i: nat, revision: string, snapshot: int)
    requires Execute(stored, steps).Some? && StillCompiling(steps, job, i)
    ensures var l := Execute(stored, steps).value;
      && Enabled(l, Finish(job, revision, snapshot))
      && var candidate := Profile(revision, snapshot, Active, {});
         var (app', reply) := Reconciled(l.app, l.jobs[job], candidate);
         && app' == Next(l, Finish(job, revision, snapshot)).app
         && (Quiet(steps, i, |steps|) ==> app' == App(Some(candidate), {}, l.app.generation) && reply == Some(Reply(candidate, {})))
         && (!Quiet(steps, i, |steps|) ==>
               && app'.pending == ALL_SECTIONS && app'.active == l.app.active
               && forall r :: !MayDecide(app', r))
         && (reply.Some? ==> (reply.value.pending == {} <==> Quiet(steps, i, |steps|)))
         && (reply.None? <==> l.app.active.None? && !Quiet(steps, i, |steps|))
  {
    EventsOvertake(stored, steps, job, i);
    var l := Execute(stored, steps).value;
    SupersededExactly(l.app, l.jobs[job], Profile(revision, snapshot, Active, {}));
  }
}
