/**
 One request through the gateway: the replay cache, the privacy and freshness gates, the one question to the decision
 model, at most one handoff, and the result that is remembered.
 */
module Gateway {
  import opened Common
  import opened Decisions
  import opened Handoff
  import opened Routes
  import Batch
  import Monitor
  import Parameters
  import Replay

  /** `rawId` is empty when the payload has no usable id; `request` is `None` when it is malformed or not allowed through. */
  datatype Payload = Payload(rawId: string, newId: string, request: Option<Request>, privacyGiven: bool)

  datatype Setting = Setting(
    app: Monitor.App, compiled: int -> Batch.Catalog, config: PolicyConfig, privacy: Privacy, jevHosted: bool, hasRoutes: bool,
    digest: string -> string)

  /** A payload's own id if it has one. */
  function LookupId(p: Payload): (id: string)
    ensures p.rawId != "" ==> id == p.rawId
    ensures p.rawId == "" ==> id == p.newId
  {
    if p.rawId != "" then p.rawId else p.newId
  }

  function PrivacyRank(privacy: Privacy): nat {
    match privacy
    case LocalOnly => 0
    case JevHostedAllowed => 1
    case HostedAllowed => 2
  }

  function Stricter(a: Privacy, b: Privacy): (privacy: Privacy)
    ensures PrivacyRank(privacy) <= PrivacyRank(a) && PrivacyRank(privacy) <= PrivacyRank(b)
    ensures privacy == a || privacy == b
  {
    if PrivacyRank(a) <= PrivacyRank(b) then a else b
  }

  function Refusal(id: string, code: string, app: Monitor.App): DecisionResult {
    DecisionResult(Refuse, id, if app.active.Some? then app.active.value.revision else "", code, None, [], None, None, map[])
  }

  /** How far a request gets: to a result, or to the decision model with what the model is shown. */
  datatype Stage = Stopped(result: DecisionResult) | Asking(request: Request, batch: Option<Batch.BatchGroup>, home: Home)

  function GroupCandidate(batch: Batch.BatchGroup): Candidate {
    Candidate(batch.id, batch.operation, "", {})
  }

  function StageOf(s: Setting, p: Payload): Stage {
    if p.request.None? then Stopped(Refusal(LookupId(p), "invalid_request", s.app))
    else
      var given := p.request.value;
      var request := given.(privacy := Stricter(if p.privacyGiven then given.privacy else s.privacy, s.privacy));
      if s.app.active.None? || request.revision != s.app.active.value.revision then Stopped(Refusal(request.id, "profile_stale", s.app))
      else if s.app.active.value.status != Monitor.Active || s.app.pending != {} then Stopped(Refusal(request.id, "profile_reconciling", s.app))
      else if request.privacy == LocalOnly && s.jevHosted then Stopped(Refusal(request.id, "privacy_mode_denied", s.app))
      else
        var profile := s.app.active.value;
        var catalog := s.compiled(profile.snapshot);
        match Batch.BuildBatch(request.speech, profile.revision, catalog, s.digest)
        case Err(code) => Stopped(ResultOf(request, Refuse, code, None))
        case Ok(None) => Asking(request, None, Home(profile, catalog.capabilities))
        case Ok(Some(batch)) =>
          Asking(request.(candidates := [GroupCandidate(batch)]), Some(batch), Home(profile, catalog.capabilities))
  }

  function Needs(s: Setting, p: Payload, jev: JevAnswer): bool {
    var stage := StageOf(s, p);
    stage.Asking? && PlanOf(stage.request, stage.batch, stage.home, s.config, s.hasRoutes, jev).Delegate?
  }

  function Reply(s: Setting, p: Payload, jev: JevAnswer, delegation: Delegation): Outcome {
    match StageOf(s, p)
    case Stopped(result) => Some(result)
    case Asking(request, batch, home) => OutcomeOf(request, batch, home, s.config, s.hasRoutes, jev, delegation)
  }

  // ---------------------------------------------------------------------------------------------------------
  // The handoff
  // ---------------------------------------------------------------------------------------------------------

  function Those(request: Request, candidates: seq<Candidate>, matching: bool): (those: seq<Candidate>)
    ensures forall c :: c in those <==> c in candidates && Matches(request, c) == matching
  {
    if candidates == [] then []
    else
      var before, last := Those(request, candidates[..|candidates| - 1], matching), candidates[|candidates| - 1];
      if Matches(request, last) == matching then before + [last] else before
  }

  function FirstFacts(candidates: seq<Candidate>): (facts: seq<Fact>)
    ensures |facts| == if |candidates| <= 16 then |candidates| else 16
    ensures forall k :: 0 <= k < |facts| ==> facts[k] == Fact(candidates[k].id, candidates[k].properties)
  {
    seq(if |candidates| <= 16 then |candidates| else 16,
        k requires 0 <= k < |candidates| => Fact(candidates[k].id, candidates[k].properties))
  }

  lemma ThoseMore(request: Request, candidates: seq<Candidate>, i: nat, matching: bool)
    requires i < |candidates|
    ensures Those(request, candidates[..i + 1], matching) ==
      Those(request, candidates[..i], matching) + if Matches(request, candidates[i]) == matching then [candidates[i]] else []
  {
    assert candidates[..i + 1][..i] == candidates[..i];
  }

  /** The candidates a fallback is shown: those whose name and operation were spoken come first. */
  method HandoffCandidates(request: Request) returns (facts: seq<Fact>)
    ensures facts == FirstFacts(Those(request, request.candidates, true) + Those(request, request.candidates, false))
  {
    var prioritized: seq<Candidate> := [];
    var remainder: seq<Candidate> := [];
    for i := 0 to |request.candidates|
      invariant prioritized == Those(request, request.candidates[..i], true)
      invariant remainder == Those(request, request.candidates[..i], false)
    {
      var c := request.candidates[i];
      ThoseMore(request, request.candidates, i, true);
      ThoseMore(request, request.candidates, i, false);
      if Matches(request, c) {
        prioritized := prioritized + [c];
      } else {
        remainder := remainder + [c];
      }
    }
    assert request.candidates[..|request.candidates|] == request.candidates;
    facts := FirstFacts(prioritized + remainder);
  }

  lemma {:induction false} ThoseCount(request: Request, candidates: seq<Candidate>)
    ensures multiset(Those(request, candidates, true) + Those(request, candidates, false)) == multiset(candidates)
  {
    if candidates == [] {
    } else {
      var before, last := candidates[..|candidates| - 1], candidates[|candidates| - 1];
      ThoseCount(request, before);
      assert candidates == before + [last];
    }
  }

  /**
   A spoken device is hidden from a fallback only by sixteen others that were spoken too; the facts are candidates of the
   request, as many as fit.
   */
  lemma SpokenDevicesAreOffered(request: Request, c: Candidate)
    requires c in request.candidates && Matches(request, c)
    ensures var matching := Those(request, request.candidates, true);
      var facts := FirstFacts(matching + Those(request, request.candidates, false));
      && |facts| == (if |request.candidates| <= 16 then |request.candidates| else 16)
      && (|matching| <= 16 ==> Fact(c.id, c.properties) in facts)
      && (|matching| > 16 ==> forall k :: 0 <= k < |facts| ==> facts[k] == Fact(matching[k].id, matching[k].properties))
  {
    ThoseCount(request, request.candidates);
    var matching, others := Those(request, request.candidates, true), Those(request, request.candidates, false);
    assert |multiset(matching + others)| == |multiset(request.candidates)|;
    var k :| 0 <= k < |matching| && matching[k] == c;
    assert (matching + others)[k] == c;
    if |matching| <= 16 {
      assert FirstFacts(matching + others)[k] == Fact(c.id, c.properties);
    }
  }

  function RouteNeed(request: Request, d: JevDecision, config: PolicyConfig, kind: ResponseKind): Need {
    Need(d.complexity, request.privacy, [kind], config.maxLatency, AtMost(config.maxCost))
  }

  /** What the outside does while one request is processed. */
  datatype World = World(
    jev: JevAnswer, toolClock: string -> real, proseClock: string -> real, clock: string -> real,
    adapter: string -> Attempt, failedAt: string -> real)

  /** The route a handoff goes to: one that may propose actions, or else one that may only talk. */
  function RouteFor(request: Request, d: JevDecision, config: PolicyConfig, routes: seq<ModelRoute>, circuits: map<string, Circuit>, w: World):
    (route: Option<ModelRoute>)
    ensures route.Some? ==> request.privacy in route.value.privacyModes && Rank(route.value.ceiling) >= Rank(d.complexity)
  {
    var tool := Selected(routes, RouteNeed(request, d, config, ToolProposal), circuits, w.toolClock);
    if tool.Some? then tool else Selected(routes, RouteNeed(request, d, config, ProseResponse), circuits, w.proseClock)
  }

  /** The route a handoff goes to: the first that suits for a proposal, and if none does, the first that suits for prose. */
  lemma RouteForMeans(request: Request, d: JevDecision, config: PolicyConfig, routes: seq<ModelRoute>, circuits: map<string, Circuit>, w: World)
    ensures var tool := Need(d.complexity, request.privacy, [ToolProposal], config.maxLatency, AtMost(config.maxCost));
      var prose := Need(d.complexity, request.privacy, [ProseResponse], config.maxLatency, AtMost(config.maxCost));
      var route := RouteFor(request, d, config, routes, circuits, w);
      if exists r :: r in routes && Suits(r, tool, circuits, w.toolClock)
      then FirstThatSuits(routes, tool, circuits, w.toolClock, route)
      else FirstThatSuits(routes, prose, circuits, w.proseClock, route)
  {
    SelectedMeans(routes, RouteNeed(request, d, config, ToolProposal), circuits, w.toolClock);
    SelectedMeans(routes, RouteNeed(request, d, config, ProseResponse), circuits, w.proseClock);
  }

  /** A handoff goes one level deep, with the decision's complexity, and asks for prose or one proposal. */
  lemma HandoffsAre(request: Request, d: JevDecision, route: ModelRoute, facts: seq<Fact>, digest: string -> string)
    ensures var handoff := HandoffOf(request, d, route, facts, digest);
      && handoff.routeId == route.id && handoff.complexity == d.complexity && handoff.privacy == request.privacy
      && handoff.depth == 1 && handoff.facts == facts && handoff.kinds == [ProseResponse, ToolProposal]
      && handoff.id == "handoff-" + digest(request.id + ":" + route.id)
  {
  }

  function HandoffOf(request: Request, d: JevDecision, route: ModelRoute, facts: seq<Fact>, digest: string -> string): HandoffRequest {
    HandoffRequest("handoff-" + digest(request.id + ":" + route.id), route.id, d.complexity, request.privacy,
                   [ProseResponse, ToolProposal], 1, facts)
  }

  /** No circuit can tell the two apart. */
  ghost predicate SameCircuits(a: map<string, Circuit>, b: map<string, Circuit>) {
    forall id: string :: Lookup(a, id) == Lookup(b, id)
  }

  /** What a dispatch does to the registry's log: it walks the chain of its route, with the circuits as they were. */
  ghost predicate Walked(routes: seq<ModelRoute>, handoff: HandoffRequest, answer: Answer, circuits: map<string, Circuit>, w: World, k: nat,
                         before: seq<Entry>, after: seq<Entry>)
  {
    var chain := ChainOf(routes, handoff, circuits, w.clock);
    StopsAt(chain, handoff, w.adapter, k) && answer == AnswerAt(chain, handoff, w.adapter, k)
    && after == before + NewEntries(chain, handoff, w.adapter, w.failedAt, k)
  }

  /** Every route a dispatch of the gateway calls fits the effective privacy and the decision's complexity. */
  lemma AttemptsRespectPrivacy(routes: seq<ModelRoute>, request: Request, d: JevDecision, route: ModelRoute, facts: seq<Fact>,
                               digest: string -> string, circuits: map<string, Circuit>, w: World)
    ensures forall r :: r in ChainOf(routes, HandoffOf(request, d, route, facts, digest), circuits, w.clock) ==>
      && request.privacy in r.privacyModes && Covers(r.ceiling, d.complexity)
      && MayBeAsked(r, HandoffOf(request, d, route, facts, digest), circuits, w.clock(r.id))
  {
    ChainFitsRequest(routes, HandoffOf(request, d, route, facts, digest), circuits, w.clock);
  }

  lemma SameSelection(routes: seq<ModelRoute>, need: Need, a: map<string, Circuit>, b: map<string, Circuit>, clock: string -> real)
    requires SameCircuits(a, b)
    ensures Selected(routes, need, a, clock) == Selected(routes, need, b, clock)
  {
    if routes != [] {
      assert Lookup(a, routes[0].id) == Lookup(b, routes[0].id);
      SameSelection(routes[1..], need, a, b, clock);
    }
  }

  // ---------------------------------------------------------------------------------------------------------
  // The gateway
  // ---------------------------------------------------------------------------------------------------------

  class Gateway {
    const lifecycle: Monitor.Lifecycle
    const compiled: int -> Batch.Catalog
    const config: PolicyConfig
    const privacy: Privacy
    const jevHosted: bool
    const digest: string -> string
    const registry: RouteRegistry
    const broker: Option<HandoffBroker>
    var seen: Replay.Cache<DecisionResult>
    ghost var log: seq<Replay.Entry<DecisionResult>>          // every result that was remembered

    ghost predicate Valid()
      reads this, registry
    {
      && registry.Valid() && (broker.Some? ==> broker.value.registry == registry)
      && Replay.Tracks(seen, Replay.After(log))
    }

    function Now(): Setting
      reads lifecycle
    {
      Setting(Monitor.App(lifecycle.activeProfile, lifecycle.pendingSections, lifecycle.generation), compiled, config, privacy,
              jevHosted, registry.routes != [], digest)
    }

    constructor (lifecycle: Monitor.Lifecycle, compiled: int -> Batch.Catalog, config: PolicyConfig, privacy: Privacy, jevHosted: bool,
                 digest: string -> string, registry: RouteRegistry, broker: Option<HandoffBroker>)
      requires registry.Valid() && (broker.Some? ==> broker.value.registry == registry)
      ensures Valid() && log == []
      ensures this.lifecycle == lifecycle && this.registry == registry && this.broker == broker
      ensures Now() == Setting(lifecycle.State(), compiled, config, privacy, jevHosted, registry.routes != [], digest)
    {
      this.lifecycle, this.compiled, this.config, this.privacy, this.jevHosted := lifecycle, compiled, config, privacy, jevHosted;
      this.digest, this.registry, this.broker := digest, registry, broker;
      seen, log := Replay.Cache([], map[]), [];
    }

    method Remember(result: DecisionResult)
      requires Valid()
      modifies this`seen, this`log
      ensures Valid()
      ensures log == old(log) + [Replay.Entry(result.requestId, result)]
      ensures Replay.NoneRepeated(old(log)) && result.requestId !in old(seen.results) ==> Replay.NoneRepeated(log)
    {
      ghost var e := Replay.Entry(result.requestId, result);
      Replay.AfterExtends(log, e);
      if Replay.NoneRepeated(log) && result.requestId !in seen.results {
        Replay.FreshIsNotRepeated(seen, log, e);
      }
      seen := Replay.Remember(seen, result.requestId, result, Replay.After(log));
      log := log + [e];
    }

    /** At most one dispatch, to a route that fits the request's privacy and the decision's complexity. */
    method Handoff(request: Request, d: JevDecision, w: World) returns (delegation: Delegation, ghost circuits: map<string, Circuit>, ghost k: nat)
      requires Valid()
      modifies registry
      ensures Valid()
      ensures SameCircuits(circuits, old(registry.circuits))
      ensures var route := RouteFor(request, d, config, registry.routes, old(registry.circuits), w);
        match delegation
        case NoRoute => route.None? && registry.log == old(registry.log)
        case Looped => route.Some? && request.depth != 0 && registry.log == old(registry.log)
        case NoBroker(id) => route.Some? && request.depth == 0 && broker.None? && registry.log == old(registry.log)
        case Dispatched(handoff, answer) =>
          && route.Some? && request.depth == 0 && broker.Some?
          && (exists facts :: handoff == HandoffOf(request, d, route.value, facts, digest))
          && (forall c :: c in request.candidates && Matches(request, c) && |Those(request, request.candidates, true)| <= 16 ==>
                Fact(c.id, c.properties) in handoff.facts)
          && Walked(registry.routes, handoff, answer, circuits, w, k, old(registry.log), registry.log)
    {
      k := 0;
      circuits := registry.circuits;
      var route := registry.SelectRoute(RouteNeed(request, d, config, ToolProposal), w.toolClock);
      SameSelection(registry.routes, RouteNeed(request, d, config, ProseResponse), registry.circuits, circuits, w.proseClock);
      if route.None? {
        route := registry.SelectRoute(RouteNeed(request, d, config, ProseResponse), w.proseClock);
      }
      circuits := registry.circuits;
      if route.None? {
        return NoRoute, circuits, 0;
      }
      if request.depth != 0 {
        return Looped, circuits, 0;
      }
      if broker.None? {
        return NoBroker(route.value.id), circuits, 0;
      }
      var facts := HandoffCandidates(request);
      forall c | c in request.candidates && Matches(request, c) && |Those(request, request.candidates, true)| <= 16
        ensures Fact(c.id, c.properties) in facts
      {
        SpokenDevicesAreOffered(request, c);
      }
      var handoff := HandoffOf(request, d, route.value, facts, digest);
      var answer: Answer;
      answer, k := broker.value.Dispatch(handoff, w.adapter, w.clock, w.failedAt);
      delegation := Dispatched(handoff, answer);
    }

    /** No handoff leaves no record; a dispatch has the effective privacy and leaves the records of one walk. */
    ghost predicate Recorded(p: Payload, delegation: Option<Delegation>, circuits: map<string, Circuit>, w: World, k: nat, before: seq<Entry>, after: seq<Entry>)
      reads lifecycle
    {
      if delegation.Some? && delegation.value.Dispatched? then
        && StageOf(Now(), p).Asking?
        && delegation.value.handoff.privacy == StageOf(Now(), p).request.privacy
        && Walked(registry.routes, delegation.value.handoff, delegation.value.answer, circuits, w, k, before, after)
      else after == before
    }

    /** The model is asked at most once, at most one handoff is made, and both only where the spec says so. */
    method Decide(p: Payload, w: World)
      returns (outcome: Outcome, asked: bool, delegation: Option<Delegation>, ghost circuits: map<string, Circuit>, ghost k: nat)
      requires Valid()
      modifies registry
      ensures Valid()
      ensures asked <==> StageOf(Now(), p).Asking?
      ensures delegation.Some? <==> Needs(Now(), p, w.jev)
      ensures outcome == Reply(Now(), p, w.jev, if delegation.Some? then delegation.value else NoRoute)
      ensures SameCircuits(circuits, old(registry.circuits))
      ensures Recorded(p, delegation, circuits, w, k, old(registry.log), registry.log)
    {
      asked, delegation, circuits, k := false, None, registry.circuits, 0;
      var stage := StageOf(Now(), p);
      match stage {
        case Stopped(result) => outcome := Some(result);
        case Asking(request, batch, home) =>
          asked := true;
          var plan := PlanOf(request, batch, home, config, registry.routes != [], w.jev);
          match plan {
            case Done(done) => outcome := done;
            case Delegate(d) =>
              var delegated;
              delegated, circuits, k := Handoff(request, d, w);
              delegation := Some(delegated);
              outcome := AfterDelegation(request, d, batch, home, config, delegated);
          }
      }
    }

    /**
     A request id that is cached is answered with the very result it got before and nothing else happens.  Any other is
     decided, and what was decided is remembered.
     */
    method Process(p: Payload, w: World)
      returns (outcome: Outcome, asked: bool, delegation: Option<Delegation>, ghost circuits: map<string, Circuit>, ghost k: nat)
      requires Valid()
      modifies this`seen, this`log, registry
      ensures Valid()
      ensures LookupId(p) in old(seen.results) ==>
        && outcome == Some(old(seen.results)[LookupId(p)]) && !asked && delegation.None?
        && seen == old(seen) && log == old(log)
        && registry.log == old(registry.log) && registry.circuits == old(registry.circuits)
      ensures LookupId(p) !in old(seen.results) ==>
        && (asked <==> StageOf(Now(), p).Asking?)
        && (delegation.Some? <==> Needs(Now(), p, w.jev))
        && outcome == Reply(Now(), p, w.jev, if delegation.Some? then delegation.value else NoRoute)
        && log == old(log) + if outcome.Some? then [Replay.Entry(outcome.value.requestId, outcome.value)] else []
      ensures Replay.NoneRepeated(old(log)) && (p.request.Some? ==> p.request.value.id == LookupId(p)) ==> Replay.NoneRepeated(log)
      ensures SameCircuits(circuits, old(registry.circuits))
      ensures Recorded(p, delegation, circuits, w, k, old(registry.log), registry.log)
    {
      if LookupId(p) in seen.results {
        return Some(seen.results[LookupId(p)]), false, None, registry.circuits, 0;
      }
      outcome, asked, delegation, circuits, k := Decide(p, w);
      if p.request.Some? ==> p.request.value.id == LookupId(p) {
        RememberedUnderItsId(Now(), p, w.jev, if delegation.Some? then delegation.value else NoRoute);
      }
      if outcome.Some? {
        Remember(outcome.value);
      }
    }
  }

  // ---------------------------------------------------------------------------------------------------------
  // Main results
  // ---------------------------------------------------------------------------------------------------------

  /** What a fresh execution may be, in terms of the payload that was sent. */
  ghost predicate FreshExecution(s: Setting, p: Payload, r: DecisionResult) {
    && p.request.Some? && r.requestId == p.request.value.id && r.revision == p.request.value.revision
    && Monitor.MayDecide(s.app, r.revision)
    && var catalog := s.compiled(s.app.active.value.snapshot);
       var home := Home(s.app.active.value, catalog.capabilities);
       match Batch.BuildBatch(p.request.value.speech, r.revision, catalog, s.digest)
       case Err(_) => false
       case Ok(None) => SafeSingle(p.request.value, home, s.config, r)
       case Ok(Some(batch)) => SafeBatch(batch, home, s.config, r)
  }

  /**
   Whatever the decision model and the fallbacks answer: a fresh execution is for the active, current profile and either
   names one offered capability that every gate passes, with the confirmation a high risk needs, or lists exactly the
   members of the group that was spoken, each passing every gate.
   */
  lemma FreshExecutionsAreSafe(s: Setting, p: Payload, jev: JevAnswer, delegation: Delegation)
    ensures var outcome := Reply(s, p, jev, delegation);
      outcome.Some? && outcome.value.kind == Execute ==> FreshExecution(s, p, outcome.value)
  {
    var stage := StageOf(s, p);
    if stage.Asking? {
      ExecutionsAreSafe(stage.request, stage.batch, stage.home, s.config, s.hasRoutes, jev, delegation);
      RepliesKeepIds(stage.request, stage.batch, stage.home, s.config, s.hasRoutes, jev, delegation);
    }
  }

  predicate KeepsIds(request: Request, outcome: Outcome) {
    outcome.Some? ==> outcome.value.requestId == request.id && outcome.value.revision == request.revision
  }

  lemma {:induction false} ObjectionsKeepIds(request: Request, d: JevDecision, members: seq<string>, home: Home, config: PolicyConfig)
    ensures KeepsIds(request, FirstObjection(request, d, members, home, config))
  {
    if members == [] {
    } else {
      ObjectionsKeepIds(request, d, members[1..], home, config);
    }
  }

  lemma BatchesKeepIds(request: Request, d: JevDecision, batch: Batch.BatchGroup, home: Home, config: PolicyConfig)
    ensures KeepsIds(request, EvaluateBatch(request, d, batch, home, config))
  {
    ObjectionsKeepIds(request, d, batch.members, home, config);
  }

  lemma ProposalsKeepIds(request: Request, d: JevDecision, id: string, parameters: Parameters.Values, home: Home, config: PolicyConfig, routeId: string)
    ensures KeepsIds(request, Some(Proposed(request, d, id, parameters, home, config, routeId)))
  {
  }

  lemma ExecutionsKeepIds(request: Request, d: JevDecision, home: Home, config: PolicyConfig)
    ensures KeepsIds(request, Some(EvaluateExecution(request, d, home, config)))
  {
  }

  lemma DelegationsKeepIds(request: Request, d: JevDecision, batch: Option<Batch.BatchGroup>, home: Home, config: PolicyConfig, delegation: Delegation)
    ensures KeepsIds(request, AfterDelegation(request, d, batch, home, config, delegation))
  {
    if delegation.Dispatched? && delegation.answer.Answered? && delegation.answer.response.Tool? {
      var proposal := delegation.answer.response.proposal;
      if proposal.Proposal? && proposal.parameters.Some? {
        if batch.Some? {
          BatchesKeepIds(request, GroupChosen(batch.value), batch.value, home, config);
        } else {
          ProposalsKeepIds(request, d, proposal.capabilityId, proposal.parameters.value, home, config, delegation.handoff.routeId);
        }
      }
    }
  }

  lemma RepliesKeepIds(request: Request, batch: Option<Batch.BatchGroup>, home: Home, config: PolicyConfig, hasRoutes: bool,
                       jev: JevAnswer, delegation: Delegation)
    ensures KeepsIds(request, OutcomeOf(request, batch, home, config, hasRoutes, jev, delegation))
  {
    var plan := PlanOf(request, batch, home, config, hasRoutes, jev);
    if plan.Delegate? {
      DelegationsKeepIds(request, plan.decision, batch, home, config, delegation);
    } else if jev.Decided? && jev.decision.route == RoutineControl {
      if batch.Some? {
        BatchesKeepIds(request, jev.decision, batch.value, home, config);
      } else {
        ExecutionsKeepIds(request, jev.decision, home, config);
      }
    }
  }

  /** The model sees at most what the stricter of the two privacy modes allows, and a hosted one sees nothing in local mode. */
  lemma PrivacyIsTheStricter(s: Setting, p: Payload)
    requires StageOf(s, p).Asking?
    ensures var privacy := StageOf(s, p).request.privacy;
      && PrivacyRank(privacy) <= PrivacyRank(s.privacy)
      && (p.privacyGiven ==> PrivacyRank(privacy) <= PrivacyRank(p.request.value.privacy))
      && (privacy == s.privacy || (p.privacyGiven && privacy == p.request.value.privacy))
      && (privacy == LocalOnly ==> !s.jevHosted)
  {
  }

  /**
   In every lifetime of the App, whatever was persisted, a request reaches the decision model only after a reconciliation of
   that lifetime compiled the active profile, with no event ingested since that reconciliation began.
   */
  lemma AskingFollowsAReconciliation(stored: Option<Monitor.Profile>, steps: seq<Monitor.Step>, s: Setting, p: Payload)
    requires Monitor.Execute(stored, steps).Some? && s.app == Monitor.Execute(stored, steps).value.app
    requires StageOf(s, p).Asking?
    ensures exists i: nat, j: nat ::
      && Monitor.Justifies(steps, s.app.active.value, i, j)
      && steps[j].revision == p.request.value.revision
  {
    Monitor.DecisionsFollowAReconciliation(stored, steps, p.request.value.revision);
  }

  /** Hence so does every fresh result but a refusal or a clarification: each execution, confirmation and answer. */
  lemma FreshResultsFollowAReconciliation(stored: Option<Monitor.Profile>, steps: seq<Monitor.Step>, s: Setting, p: Payload,
                                          jev: JevAnswer, delegation: Delegation)
    requires Monitor.Execute(stored, steps).Some? && s.app == Monitor.Execute(stored, steps).value.app
    requires Reply(s, p, jev, delegation).Some? && Reply(s, p, jev, delegation).value.kind in {Execute, Confirm, Answer}
    ensures exists i: nat, j: nat ::
      && Monitor.Justifies(steps, s.app.active.value, i, j)
      && steps[j].revision == p.request.value.revision
  {
    AskingFollowsAReconciliation(stored, steps, s, p);
  }

  /** With an id of its own a request is remembered under the id it is looked up by, so nothing is remembered twice. */
  lemma RememberedUnderItsId(s: Setting, p: Payload, jev: JevAnswer, delegation: Delegation)
    requires p.request.Some? ==> p.request.value.id == LookupId(p)
    ensures Reply(s, p, jev, delegation).Some? ==> Reply(s, p, jev, delegation).value.requestId == LookupId(p)
  {
    var stage := StageOf(s, p);
    if stage.Asking? {
      RepliesKeepIds(stage.request, stage.batch, stage.home, s.config, s.hasRoutes, jev, delegation);
    }
  }
}
