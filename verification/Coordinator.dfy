/**
 The Core profile coordinator: the fields that decide whether a write may run, and the steps that change them between
 two suspension points.
 */
module Coordinator {
  import opened Common

  const STATE_CHANGED_EVENT := "state_changed"

  /** A finished scan: `scan` identifies it, `targets` maps opaque capability IDs to entity IDs. */
  datatype Build = Build(scan: nat, targets: map<string, string>)

  datatype Core = Core(
    started: bool,
    stale: bool,
    generation: nat,
    pendingEvents: set<string>,
    flushLive: bool,                 // a flush task exists and has not finished
    build: Option<Build>,
    profileRevision: Option<string>,
    mapRevision: Option<string>,
    mapTargets: map<string, string>)

  function Initial(): Core {
    Core(false, true, 0, {}, false, None, None, None, map[])
  }

  /** A registry event reaches Core; state changes only refresh the state cache. */
  function Delivered(c: Core, kind: string): Core {
    if kind == "" || kind == STATE_CHANGED_EVENT then c
    else c.(pendingEvents := c.pendingEvents + {kind}, stale := true, generation := c.generation + 1, flushLive := true)
  }

  /** The first step of `async_handle_event`, which does not go through the pending set. */
  function DeliveredDirectly(c: Core, kind: string): Core {
    if kind == "" || kind == STATE_CHANGED_EVENT then c
    else c.(stale := true, generation := c.generation + 1)
  }

  /** What each event does, kind by kind: nothing for none and for a state change, and the same for every other. */
  lemma EventsMean(c: Core, kind: string)
    ensures kind in {"", "state_changed"} ==> Delivered(c, kind) == c && DeliveredDirectly(c, kind) == c
    ensures kind !in {"", "state_changed"} ==>
      && Delivered(c, kind).stale && Delivered(c, kind).generation == c.generation + 1
      && Delivered(c, kind).pendingEvents == c.pendingEvents + {kind} && Delivered(c, kind).flushLive
      && DeliveredDirectly(c, kind).stale && DeliveredDirectly(c, kind).generation == c.generation + 1
      && DeliveredDirectly(c, kind).pendingEvents == c.pendingEvents && DeliveredDirectly(c, kind).flushLive == c.flushLive
      && forall expected :: !WritesAllowed(Delivered(c, kind), expected) && !WritesAllowed(DeliveredDirectly(c, kind), expected)
    ensures SamePublished(Delivered(c, kind), c) && SamePublished(DeliveredDirectly(c, kind), c)
  {
  }

  /** Started, with the same build, map and revisions. */
  predicate SamePublished(c: Core, d: Core) {
    && c.started == d.started && c.build == d.build && c.profileRevision == d.profileRevision
    && c.mapRevision == d.mapRevision && c.mapTargets == d.mapTargets
  }

  /** The flush task takes the pending events; it ends when there are none. */
  function Drained(c: Core): Core {
    c.(pendingEvents := {}, flushLive := c.flushLive && c.pendingEvents != {})
  }

  /** After its last batch the flush ends, and a successor flush is created for events that are still pending. */
  function HandedOver(c: Core): Core {
    c.(flushLive := c.pendingEvents != {})
  }

  /** The gateway answered a reconciliation whose scan began at generation `start`. */
  function Answered(c: Core, start: nat, build: Build, revision: string): Core {
    if revision == "" then c
    else if start != c.generation then c.(stale := true)
    else c.(build := Some(build), profileRevision := Some(revision), stale := false,
            mapRevision := Some(revision), mapTargets := build.targets)
  }

  predicate WritesAllowed(c: Core, expected: Option<string>) {
    && c.started
    && !c.stale
    && c.profileRevision.Some? && c.profileRevision.value != ""
    && c.mapRevision == c.profileRevision
    && (expected == None || expected == c.profileRevision)
  }

  /** A write needs a started, current Core with a revision that map and profile share, and that is the one expected. */
  lemma WritesNeed(c: Core, expected: Option<string>)
    ensures WritesAllowed(c, expected) <==>
      && c.started && !c.stale
      && (exists revision :: revision != "" && c.profileRevision == Some(revision) && c.mapRevision == Some(revision)
            && expected in {None, Some(revision)})
  {
  }

  /** The map and the published build are always replaced together. */
  ghost predicate Consistent(c: Core) {
    && c.mapRevision == c.profileRevision
    && (c.build.None? <==> c.profileRevision.None?)
    && (c.build.None? ==> c.stale)
    && (c.build.Some? ==> c.mapTargets == c.build.value.targets)
    && (c.profileRevision.Some? ==> c.profileRevision.value != "")
    && (c.pendingEvents != {} ==> c.flushLive)
  }

  class CapabilityMap {
    var revision: Option<string>
    var targets: map<string, string>

    constructor ()
      ensures revision == None && targets == map[]
    {
      revision, targets := None, map[];
    }

    method Replace(newRevision: string, newTargets: map<string, string>)
      requires newRevision != ""
      modifies this
      ensures revision == Some(newRevision) && targets == newTargets
    {
      targets := newTargets;
      revision := Some(newRevision);
    }
  }

  class ProfileCoordinator {
    const capabilityMap: CapabilityMap
    var started: bool
    var stale: bool
    var generation: nat
    var pendingEvents: set<string>
    var flushLive: bool
    var build: Option<Build>
    var profileRevision: Option<string>

    ghost function State(): Core
      reads this, capabilityMap
    {
      Core(started, stale, generation, pendingEvents, flushLive, build, profileRevision,
           capabilityMap.revision, capabilityMap.targets)
    }

    ghost predicate Valid()
      reads this, capabilityMap
    {
      Consistent(State())
    }

    constructor ()
      ensures Valid() && State() == Initial() && fresh(capabilityMap)
    {
      var capabilities := new CapabilityMap();
      capabilityMap := capabilities;
      started, stale, generation, pendingEvents, flushLive := false, true, 0, {}, false;
      build, profileRevision := None, None;
    }

    /** The bus listener. */
    method OnEvent(kind: string)
      requires Valid()
      modifies this`pendingEvents, this`stale, this`generation, this`flushLive
      ensures Valid() && State() == Delivered(old(State()), kind)
      ensures kind in {"", "state_changed"} ==> State() == old(State())
      ensures kind !in {"", "state_changed"} ==>
        && stale && generation == old(generation) + 1 && pendingEvents == old(pendingEvents) + {kind} && flushLive
        && SamePublished(State(), old(State()))
    {
      if kind == "" || kind == STATE_CHANGED_EVENT {
        return;
      }
      pendingEvents := pendingEvents + {kind};
      stale := true;
      generation := generation + 1;
      if !flushLive {
        flushLive := true;
      }
    }

    method HandleEvent(kind: string) returns (invalidates: bool)
      requires Valid()
      modifies this`stale, this`generation
      ensures Valid() && State() == DeliveredDirectly(old(State()), kind)
      ensures invalidates <==> kind !in {"", "state_changed"}
      ensures !invalidates ==> State() == old(State())
      ensures invalidates ==>
        stale && generation == old(generation) + 1 && flushLive == old(flushLive) && SamePublished(State(), old(State()))
    {
      if kind == "" || kind == STATE_CHANGED_EVENT {
        return false;
      }
      stale := true;
      generation := generation + 1;
      return true;
    }

    method DrainEvents() returns (taken: set<string>)
      requires Valid()
      modifies this`pendingEvents, this`flushLive
      ensures Valid() && State() == Drained(old(State()))
      ensures taken == old(pendingEvents)
    {
      taken := pendingEvents;
      pendingEvents := {};
      if taken == {} {
        flushLive := false;
      }
    }

    method HandOver()
      requires Valid()
      modifies this`flushLive
      ensures Valid() && State() == HandedOver(old(State()))
    {
      flushLive := false;
      if pendingEvents != {} {
        flushLive := true;
      }
    }

    /** The end of `_async_reconcile_unlocked`: `Err` is the raised client error, `Ok` says whether it published. */
    method FinishReconcile(start: nat, candidate: Build, revision: string) returns (published: Result<bool, string>)
      requires Valid()
      modifies this`stale, this`build, this`profileRevision, capabilityMap
      ensures State() == Answered(old(State()), start, candidate, revision)
      ensures Valid()
      ensures published.Err? <==> revision == ""
      ensures published == Ok(true) ==> !stale && start == generation
      ensures published == Ok(false) ==> stale
    {
      if revision == "" {
        return Err("gateway did not return a profile revision");
      }
      if start != generation {
        stale := true;
        return Ok(false);
      }
      capabilityMap.Replace(revision, candidate.targets);
      build := Some(candidate);
      profileRevision := Some(revision);
      stale := false;
      return Ok(true);
    }
  }
}
