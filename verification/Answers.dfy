/**
 What the gateway answers, and exactly when: every condition is written out in the fields of the profile, the capability, the
 request and the policy.
 */
module Answers {
  import opened Common
  import opened Decisions
  import opened Gateway
  import opened Handoff
  import opened Parameters
  import opened Routes
  import Batch
  import G = Gateway
  import Monitor

  // ---------------------------------------------------------------------------------------------------------
  // The gates
  // ---------------------------------------------------------------------------------------------------------

  /** The gates before the thresholds: an active profile, numbers that are shares, and a capability that may be operated. */
  predicate Known(home: Home, c: Batch.Capability, confidence: real, ambiguity: real, config: PolicyConfig) {
    && home.profile.status.Active?
    && 0.0 <= confidence <= 1.0 && 0.0 <= ambiguity <= 1.0
    && c.exposed && c.available
    && c.domain in config.domains && c.operation in config.operations
  }

  /** All gates but the confirmation. */
  predicate Permitted(home: Home, c: Batch.Capability, confidence: real, ambiguity: real, config: PolicyConfig) {
    && Known(home, c, confidence, ambiguity, config)
    && config.confidence <= confidence && ambiguity <= config.ambiguity
    && c.risk != "blocked"
  }

  predicate NeedsYes(c: Batch.Capability, config: PolicyConfig) {
    c.risk == "confirm" || c.domain in config.highRisk
  }

  /** The capability that an id stands for: the first of that id in the profile. */
  ghost predicate StandsFor(home: Home, id: string, c: Batch.Capability) {
    exists k :: 0 <= k < |home.capabilities| && home.capabilities[k] == c && c.id == id
      && forall j :: 0 <= j < k ==> home.capabilities[j].id != id
  }

  lemma {:induction false} PlaceOf(s: seq<Batch.Capability>, id: string) returns (k: nat)
    requires Find(s, Some(id)).Some?
    ensures k < |s| && s[k] == Find(s, Some(id)).value && forall j :: 0 <= j < k ==> s[j].id != id
  {
    if s[0].id == id {
      k := 0;
    } else {
      k := PlaceOf(s[1..], id);
      k := k + 1;
    }
  }

  lemma {:induction false} PlaceOfOffer(s: seq<Candidate>, id: string) returns (k: nat)
    requires FirstOffered(s, id).Some?
    ensures k < |s| && s[k] == FirstOffered(s, id).value && forall j :: 0 <= j < k ==> s[j].id != id
  {
    if s[0].id == id {
      k := 0;
    } else {
      k := PlaceOfOffer(s[1..], id);
      k := k + 1;
    }
  }

  lemma FoundIsTheFirst(home: Home, id: string, c: Batch.Capability)
    ensures Find(home.capabilities, Some(id)) == Some(c) <==> StandsFor(home, id, c)
  {
    var found := Find(home.capabilities, Some(id));
    if found.Some? {
      var i := PlaceOf(home.capabilities, id);
      assert StandsFor(home, id, found.value);
    }
    if StandsFor(home, id, c) {
      var k :| 0 <= k < |home.capabilities| && home.capabilities[k] == c && c.id == id
        && forall j :: 0 <= j < k ==> home.capabilities[j].id != id;
      assert c in home.capabilities;
      var i := PlaceOf(home.capabilities, id);
      assert i == k;
    }
  }

  lemma GatesAre(home: Home, id: string, c: Batch.Capability, confidence: real, ambiguity: real, confirmed: bool, config: PolicyConfig)
    requires StandsFor(home, id, c)
    ensures var verdict := Evaluate(home, Some(id), confidence, ambiguity, confirmed, config);
      && Find(home.capabilities, Some(id)) == Some(c)
      && (verdict == Allowed <==> Permitted(home, c, confidence, ambiguity, config) && (NeedsYes(c, config) ==> confirmed))
      && (verdict == NeedsConfirmation <==> Permitted(home, c, confidence, ambiguity, config) && NeedsYes(c, config) && !confirmed)
      && (verdict == Denied("confidence_too_low") <==> Known(home, c, confidence, ambiguity, config) && confidence < config.confidence)
      && (verdict == Denied("ambiguous_request") <==>
            Known(home, c, confidence, ambiguity, config) && config.confidence <= confidence && config.ambiguity < ambiguity)
      && (verdict == Denied("profile_stale") <==> !home.profile.status.Active?)
      && (verdict == Denied("jev_invalid_response") <==>
            home.profile.status.Active? && !(0.0 <= confidence <= 1.0 && 0.0 <= ambiguity <= 1.0))
      && (verdict == Denied("candidate_not_allowed") <==>
            home.profile.status.Active? && 0.0 <= confidence <= 1.0 && 0.0 <= ambiguity <= 1.0 && !(c.exposed && c.available))
      && (verdict == Denied("policy_denied") <==>
            && home.profile.status.Active? && 0.0 <= confidence <= 1.0 && 0.0 <= ambiguity <= 1.0 && c.exposed && c.available
            && (c.domain !in config.domains || c.operation !in config.operations
                || (config.confidence <= confidence && ambiguity <= config.ambiguity && c.risk == "blocked")))
      && (verdict.Denied? ==>
            verdict.response in {"confidence_too_low", "ambiguous_request", "profile_stale", "jev_invalid_response", "candidate_not_allowed", "policy_denied"})
  {
    FoundIsTheFirst(home, id, c);
  }

  // ---------------------------------------------------------------------------------------------------------
  // The model's own decision
  // ---------------------------------------------------------------------------------------------------------

  /** The decision names an offered capability of the profile, with parameters that policy accepts for it. */
  ghost predicate WellFormed(request: Request, d: JevDecision, home: Home, c: Batch.Capability) {
    && d.capabilityId == Some(c.id) && (exists offer :: offer in request.candidates && offer.id == c.id)
    && StandsFor(home, c.id, c) && Accepts(Policy, c.schema, d.parameters)
  }

  ghost predicate ExecutesDirectly(request: Request, d: JevDecision, home: Home, config: PolicyConfig) {
    exists c :: WellFormed(request, d, home, c)
      && Permitted(home, c, d.confidence, d.ambiguity, config) && (NeedsYes(c, config) ==> request.confirmation)
  }

  ghost predicate AsksDirectly(request: Request, d: JevDecision, home: Home, config: PolicyConfig) {
    exists c :: WellFormed(request, d, home, c)
      && Permitted(home, c, d.confidence, d.ambiguity, config) && NeedsYes(c, config) && !request.confirmation
  }

  /** The model was not sure enough for policy. */
  ghost predicate UnsureDirectly(request: Request, d: JevDecision, home: Home, config: PolicyConfig) {
    exists c :: WellFormed(request, d, home, c)
      && Known(home, c, d.confidence, d.ambiguity, config) && (d.confidence < config.confidence || config.ambiguity < d.ambiguity)
  }

  /** It names one, and policy does not accept the parameters for it. */
  ghost predicate Misfits(request: Request, d: JevDecision, home: Home, c: Batch.Capability) {
    && d.capabilityId == Some(c.id) && (exists offer :: offer in request.candidates && offer.id == c.id)
    && StandsFor(home, c.id, c) && !Accepts(Policy, c.schema, d.parameters)
  }

  ghost predicate BadParameters(request: Request, d: JevDecision, home: Home) {
    exists c :: Misfits(request, d, home, c)
  }

  /** What a result for the model's own decision carries. */
  predicate Carries(request: Request, d: JevDecision, r: DecisionResult) {
    && r.requestId == request.id && r.revision == request.revision && r.capabilityId == d.capabilityId && r.capabilityIds == []
    && r.parameters == d.parameters && r.routeId.None? && r.text.None?
  }

  /** Each kind of answer to a decision about one device, if and only if. */
  ghost predicate AnsweredRightly(request: Request, d: JevDecision, home: Home, config: PolicyConfig, r: DecisionResult) {
    && (r.kind == Execute <==> ExecutesDirectly(request, d, home, config))
    && (r.kind == Confirm <==> AsksDirectly(request, d, home, config))
    && (r.kind == Clarify <==> UnsureDirectly(request, d, home, config))
    && (r.response == "invalid_parameters" <==> BadParameters(request, d, home))
    && (r.kind == Clarify <==> r.response in {"confidence_too_low", "ambiguous_request"})
    && (r.kind == Execute ==> r.response == "execute") && (r.kind == Confirm ==> r.response == "confirmation_required")
    && r.kind in {Execute, Confirm, Clarify, Refuse}
  }

  lemma DirectAnswersCarry(request: Request, d: JevDecision, home: Home, config: PolicyConfig)
    ensures Carries(request, d, EvaluateExecution(request, d, home, config))
  {
  }

  lemma DirectAnswersExactly(request: Request, d: JevDecision, home: Home, config: PolicyConfig)
    ensures Carries(request, d, EvaluateExecution(request, d, home, config))
    ensures AnsweredRightly(request, d, home, config, EvaluateExecution(request, d, home, config))
  {
    DirectAnswersCarry(request, d, home, config);
    if d.capabilityId.Some? && Find(home.capabilities, d.capabilityId).Some? {
      DirectAnswersFor(request, d, home, config, Find(home.capabilities, d.capabilityId).value);
    } else {
      DirectAnswersForNone(request, d, home, config);
    }
  }

  lemma DirectAnswersForNone(request: Request, d: JevDecision, home: Home, config: PolicyConfig)
    requires d.capabilityId.None? || Find(home.capabilities, d.capabilityId).None?
    ensures AnsweredRightly(request, d, home, config, EvaluateExecution(request, d, home, config))
  {
    forall c ensures !WellFormed(request, d, home, c) && !Misfits(request, d, home, c) {
      FoundIsTheFirst(home, c.id, c);
    }
    var r := EvaluateExecution(request, d, home, config);
    assert r.kind == Refuse && r.response !in {"invalid_parameters", "confidence_too_low", "ambiguous_request"};
  }

  /** The answer in terms of the one capability that is meant. */
  ghost predicate AnsweredFor(request: Request, d: JevDecision, home: Home, config: PolicyConfig, c: Batch.Capability, r: DecisionResult) {
    && (r.kind == Execute <==>
          WellFormed(request, d, home, c) && Permitted(home, c, d.confidence, d.ambiguity, config) && (NeedsYes(c, config) ==> request.confirmation))
    && (r.kind == Confirm <==>
          WellFormed(request, d, home, c) && Permitted(home, c, d.confidence, d.ambiguity, config) && NeedsYes(c, config) && !request.confirmation)
    && (r.kind == Clarify <==>
          && WellFormed(request, d, home, c) && Known(home, c, d.confidence, d.ambiguity, config)
          && (d.confidence < config.confidence || config.ambiguity < d.ambiguity))
    && (r.response == "invalid_parameters" <==> Misfits(request, d, home, c))
    && (r.kind == Clarify <==> r.response in {"confidence_too_low", "ambiguous_request"})
    && (r.kind == Execute ==> r.response == "execute") && (r.kind == Confirm ==> r.response == "confirmation_required")
    && r.kind in {Execute, Confirm, Clarify, Refuse}
  }

  lemma OneIsAnswered(request: Request, d: JevDecision, home: Home, config: PolicyConfig, c: Batch.Capability)
    requires d.capabilityId == Some(c.id) && StandsFor(home, c.id, c)
    ensures AnsweredFor(request, d, home, config, c, EvaluateExecution(request, d, home, config))
  {
    GatesAre(home, c.id, c, d.confidence, d.ambiguity, request.confirmation, config);
    var r := EvaluateExecution(request, d, home, config);
    assert Offers(request, d.capabilityId) <==> exists offer :: offer in request.candidates && offer.id == c.id;
    assert WellFormed(request, d, home, c) <==> Offers(request, d.capabilityId) && Accepts(Policy, c.schema, d.parameters);
    assert Misfits(request, d, home, c) <==> Offers(request, d.capabilityId) && !Accepts(Policy, c.schema, d.parameters);
  }

  lemma DirectAnswersFor(request: Request, d: JevDecision, home: Home, config: PolicyConfig, c: Batch.Capability)
    requires d.capabilityId == Some(c.id) && Find(home.capabilities, Some(c.id)) == Some(c)
    ensures AnsweredRightly(request, d, home, config, EvaluateExecution(request, d, home, config))
  {
    FoundIsTheFirst(home, c.id, c);
    OneIsAnswered(request, d, home, config, c);
    forall other | WellFormed(request, d, home, other) || Misfits(request, d, home, other) ensures other == c {
      FoundIsTheFirst(home, other.id, other);
    }
  }

  // ---------------------------------------------------------------------------------------------------------
  // Groups
  // ---------------------------------------------------------------------------------------------------------

  /** A member of a group passes every gate without a confirmation and takes no parameters. */
  ghost predicate MemberPasses(home: Home, id: string, config: PolicyConfig) {
    exists c :: StandsFor(home, id, c)
      && Permitted(home, c, 1.0, 0.0, config) && !NeedsYes(c, config) && Accepts(Policy, c.schema, map[])
  }

  ghost predicate AllPass(home: Home, members: seq<string>, config: PolicyConfig) {
    forall id :: id in members ==> MemberPasses(home, id, config)
  }

  lemma ObjectionExactly(request: Request, d: JevDecision, id: string, home: Home, config: PolicyConfig)
    ensures Objection(request, d, id, home, config).None? <==> MemberPasses(home, id, config)
  {
    var found := Find(home.capabilities, Some(id));
    if found.Some? {
      FoundIsTheFirst(home, id, found.value);
      GatesAre(home, id, found.value, 1.0, 0.0, false, config);
    }
    forall c | StandsFor(home, id, c) ensures found == Some(c) {
      FoundIsTheFirst(home, id, c);
    }
  }

  lemma {:induction false} NoObjectionExactly(request: Request, d: JevDecision, members: seq<string>, home: Home, config: PolicyConfig)
    ensures FirstObjection(request, d, members, home, config).None? <==> AllPass(home, members, config)
    ensures FirstObjection(request, d, members, home, config).Some? ==>
      FirstObjection(request, d, members, home, config).value.kind in {Clarify, Refuse}
  {
    if members == [] {
    } else {
      ObjectionExactly(request, d, members[0], home, config);
      NoObjectionExactly(request, d, members[1..], home, config);
      assert forall id :: id in members <==> id == members[0] || id in members[1..];
    }
  }

  /** The group that was spoken, chosen without parameters, and every member of it passes. */
  ghost predicate ExecutesGroup(d: JevDecision, batch: Batch.BatchGroup, home: Home, config: PolicyConfig) {
    && d.capabilityId == Some(batch.id) && d.parameters == map[]
    && AllPass(home, batch.members, config) && |batch.members| <= 32 && Distinct(batch.members)
  }

  /** A group is executed as a whole, or refused, or questioned; it is never asked to be confirmed. */
  lemma GroupAnswersExactly(request: Request, d: JevDecision, batch: Batch.BatchGroup, home: Home, config: PolicyConfig)
    ensures var outcome := EvaluateBatch(request, d, batch, home, config);
      && ((outcome.Some? && outcome.value.kind == Execute) <==> ExecutesGroup(d, batch, home, config))
      && (outcome.None? <==>
            && d.capabilityId == Some(batch.id) && d.parameters == map[] && AllPass(home, batch.members, config)
            && !(|batch.members| <= 32 && Distinct(batch.members)))
      && (outcome.Some? ==> outcome.value.kind in {Execute, Clarify, Refuse})
      && (ExecutesGroup(d, batch, home, config) ==>
            && outcome.value.requestId == request.id && outcome.value.revision == request.revision
            && outcome.value.capabilityIds == batch.members && (batch.members != [] ==> outcome.value.capabilityId.None?)
            && outcome.value.parameters == map[] && outcome.value.response == "batch_execute")
  {
    NoObjectionExactly(request, d, batch.members, home, config);
  }

  /** What the first member that does not pass makes of its group. */
  ghost predicate StopsAs(outcome: Outcome, home: Home, id: string, config: PolicyConfig) {
    && outcome.Some?
    && forall c :: StandsFor(home, id, c) ==>
         && (Permitted(home, c, 1.0, 0.0, config) && NeedsYes(c, config) ==> outcome.value.response == "batch_confirmation_unsupported")
         && (Permitted(home, c, 1.0, 0.0, config) && !NeedsYes(c, config) ==> outcome.value.response == "invalid_parameters")
         && (outcome.value.kind == Clarify <==> Known(home, c, 1.0, 0.0, config) && (1.0 < config.confidence || config.ambiguity < 0.0))
         && (!c.exposed || !c.available ==> home.profile.status.Active? ==> outcome.value.response == "candidate_not_allowed")
  }

  lemma ObjectionStopsAs(request: Request, d: JevDecision, id: string, home: Home, config: PolicyConfig)
    requires Objection(request, d, id, home, config).Some?
    ensures StopsAs(Objection(request, d, id, home, config), home, id, config)
  {
    forall c | StandsFor(home, id, c) ensures Find(home.capabilities, Some(id)) == Some(c) {
      GatesAre(home, id, c, 1.0, 0.0, false, config);
    }
    if Find(home.capabilities, Some(id)).Some? {
      var c := Find(home.capabilities, Some(id)).value;
      FoundIsTheFirst(home, id, c);
      GatesAre(home, id, c, 1.0, 0.0, false, config);
    }
  }

  lemma {:induction false} FirstObjectionAt(request: Request, d: JevDecision, members: seq<string>, home: Home, config: PolicyConfig, k: nat)
    requires k < |members| && Objection(request, d, members[k], home, config).Some?
    requires forall j :: 0 <= j < k ==> Objection(request, d, members[j], home, config).None?
    ensures FirstObjection(request, d, members, home, config) == Objection(request, d, members[k], home, config)
  {
    if k == 0 {
    } else {
      var rest := members[1..];
      assert forall j :: 0 <= j < k - 1 ==> rest[j] == members[j + 1];
      FirstObjectionAt(request, d, rest, home, config, k - 1);
    }
  }

  lemma FirstObjectionIs(request: Request, d: JevDecision, members: seq<string>, home: Home, config: PolicyConfig, k: nat)
    requires FirstToFail(members, home, config, k)
    ensures StopsAs(FirstObjection(request, d, members, home, config), home, members[k], config)
  {
    forall j | 0 <= j <= k ensures Objection(request, d, members[j], home, config).None? <==> MemberPasses(home, members[j], config) {
      ObjectionExactly(request, d, members[j], home, config);
    }
    FirstObjectionAt(request, d, members, home, config, k);
    ObjectionStopsAs(request, d, members[k], home, config);
  }

  ghost predicate FirstToFail(members: seq<string>, home: Home, config: PolicyConfig, k: nat) {
    k < |members| && !MemberPasses(home, members[k], config) && forall j :: 0 <= j < k ==> MemberPasses(home, members[j], config)
  }

  /** Why a group is not executed: it was not chosen as such, or its first member that does not pass. */
  lemma GroupStopsBecause(request: Request, d: JevDecision, batch: Batch.BatchGroup, home: Home, config: PolicyConfig, k: nat)
    ensures !(d.capabilityId == Some(batch.id) && d.parameters == map[]) ==>
      RefusesAs(EvaluateBatch(request, d, batch, home, config), "candidate_not_allowed")
    ensures (d.capabilityId == Some(batch.id) && d.parameters == map[] && FirstToFail(batch.members, home, config, k)) ==>
      StopsAs(EvaluateBatch(request, d, batch, home, config), home, batch.members[k], config)
  {
    if FirstToFail(batch.members, home, config, k) {
      FirstObjectionIs(request, d, batch.members, home, config, k);
    }
  }

  // ---------------------------------------------------------------------------------------------------------
  // Fallbacks
  // ---------------------------------------------------------------------------------------------------------

  /** The first candidate of that id: an operation of the list whose words were spoken, on a device whose name was. */
  ghost predicate Spoken(request: Request, id: string) {
    exists k :: 0 <= k < |request.candidates| && SpokenAt(request, id, k)
  }

  predicate SpokenAt(request: Request, id: string, k: nat)
    requires k < |request.candidates|
  {
    var c := request.candidates[k];
    && c.id == id && (forall j :: 0 <= j < k ==> request.candidates[j].id != id)
    && c.operation in {"turn_on", "turn_off", "toggle", "lock", "unlock", "open_cover", "close_cover", "set_brightness", "set_temperature", "set_volume"}
    && request.spoken(c.operation) && |c.name| >= 3 && request.named(c.name)
  }

  lemma SpokenExactly(request: Request, id: string)
    ensures var found := FirstOffered(request.candidates, id);
      (found.Some? && Matches(request, found.value)) <==> Spoken(request, id)
  {
    var found := FirstOffered(request.candidates, id);
    if found.Some? {
      var k := PlaceOfOffer(request.candidates, id);
      assert Matches(request, found.value) ==> SpokenAt(request, id, k);
      forall j | 0 <= j < |request.candidates| && SpokenAt(request, id, j) ensures j == k {
        assert request.candidates[k].id == id;
      }
    }
  }

  ghost predicate Proposable(request: Request, home: Home, id: string, parameters: Values, c: Batch.Capability, config: PolicyConfig) {
    Spoken(request, id) && StandsFor(home, id, c) && Accepts(Policy, c.schema, parameters) && Permitted(home, c, 1.0, 0.0, config)
  }

  ghost predicate ExecutesProposal(request: Request, home: Home, id: string, parameters: Values, config: PolicyConfig) {
    exists c :: Proposable(request, home, id, parameters, c, config) && (NeedsYes(c, config) ==> request.confirmation)
  }

  ghost predicate AsksForProposal(request: Request, home: Home, id: string, parameters: Values, config: PolicyConfig) {
    exists c :: Proposable(request, home, id, parameters, c, config) && NeedsYes(c, config) && !request.confirmation
  }

  lemma ProposalVerdicts(request: Request, d: JevDecision, id: string, parameters: Values, home: Home, config: PolicyConfig, routeId: string,
                         c: Batch.Capability)
    requires StandsFor(home, id, c)
    ensures var r := Proposed(request, d, id, parameters, home, config, routeId);
      && (r.kind == Execute <==> Proposable(request, home, id, parameters, c, config) && (NeedsYes(c, config) ==> request.confirmation))
      && (r.kind == Confirm <==> Proposable(request, home, id, parameters, c, config) && NeedsYes(c, config) && !request.confirmation)
  {
    SpokenExactly(request, id);
    FoundIsTheFirst(home, id, c);
    GatesAre(home, id, c, 1.0, 0.0, request.confirmation, config);
  }

  lemma ProposalCarries(request: Request, d: JevDecision, id: string, parameters: Values, home: Home, config: PolicyConfig, routeId: string)
    ensures var r := Proposed(request, d, id, parameters, home, config, routeId);
      && r.kind in {Execute, Confirm, Refuse}
      && r.requestId == request.id && r.revision == request.revision && r.routeId == Some(routeId) && r.capabilityIds == []
      && (r.kind != Refuse ==> r.capabilityId == Some(id) && r.parameters == if parameters == map[] then d.parameters else parameters)
      && (r.kind != Refuse ==> Find(home.capabilities, Some(id)).Some?)
  {
  }

  lemma ProposalAnswersExactly(request: Request, d: JevDecision, id: string, parameters: Values, home: Home, config: PolicyConfig, routeId: string)
    ensures var r := Proposed(request, d, id, parameters, home, config, routeId);
      && (r.kind == Execute <==> ExecutesProposal(request, home, id, parameters, config))
      && (r.kind == Confirm <==> AsksForProposal(request, home, id, parameters, config))
      && r.kind in {Execute, Confirm, Refuse}
      && r.requestId == request.id && r.revision == request.revision && r.routeId == Some(routeId) && r.capabilityIds == []
      && (r.kind != Refuse ==> r.capabilityId == Some(id) && r.parameters == if parameters == map[] then d.parameters else parameters)
  {
    ProposalCarries(request, d, id, parameters, home, config, routeId);
    var found := Find(home.capabilities, Some(id));
    forall c | StandsFor(home, id, c) ensures found == Some(c) {
      FoundIsTheFirst(home, id, c);
    }
    if found.Some? {
      FoundIsTheFirst(home, id, found.value);
      ProposalVerdicts(request, d, id, parameters, home, config, routeId, found.value);
    }
  }

  /** The action that a fallback proposed, if that is what came back. */
  function ActionOf(delegation: Delegation): Option<(string, Values)> {
    match delegation
    case Dispatched(_, Answered(_, Tool(Proposal(_, id, _, Some(parameters))))) => Some((id, parameters))
    case _ => None
  }

  function ProseOf(delegation: Delegation): Option<string> {
    match delegation
    case Dispatched(_, Answered(_, Prose(text))) => Some(text)
    case _ => None
  }

  ghost predicate ExecutesFallback(request: Request, batch: Option<Batch.BatchGroup>, home: Home, config: PolicyConfig, delegation: Delegation) {
    && ActionOf(delegation).Some?
    && var (id, parameters) := ActionOf(delegation).value;
       match batch
       case None => ExecutesProposal(request, home, id, parameters, config)
       case Some(group) => id == group.id && AllPass(home, group.members, config) && |group.members| <= 32 && Distinct(group.members)
  }

  ghost predicate AsksForFallback(request: Request, batch: Option<Batch.BatchGroup>, home: Home, config: PolicyConfig, delegation: Delegation) {
    && ActionOf(delegation).Some? && batch.None?
    && AsksForProposal(request, home, ActionOf(delegation).value.0, ActionOf(delegation).value.1, config)
  }

  lemma ActionsComeTo(request: Request, d: JevDecision, batch: Option<Batch.BatchGroup>, home: Home, config: PolicyConfig, delegation: Delegation)
    requires ActionOf(delegation).Some?
    ensures var outcome, (id, parameters) := AfterDelegation(request, d, batch, home, config, delegation), ActionOf(delegation).value;
      match batch
      case None => outcome == Some(Proposed(request, d, id, parameters, home, config, delegation.handoff.routeId))
      case Some(group) => outcome == ProposedBatch(request, d, id, group, home, config, delegation.handoff.routeId)
  {
  }

  lemma OthersComeTo(request: Request, d: JevDecision, batch: Option<Batch.BatchGroup>, home: Home, config: PolicyConfig, delegation: Delegation)
    requires ActionOf(delegation).None?
    ensures var outcome := AfterDelegation(request, d, batch, home, config, delegation);
      && (outcome.Some? ==> outcome.value.kind in {Refuse, Answer})
      && ((outcome.Some? && outcome.value.kind == Answer) <==> ProseOf(delegation).Some?)
      && (ProseOf(delegation).Some? ==> outcome.value.text == ProseOf(delegation))
  {
  }

  lemma FallbackAnswersExactly(request: Request, d: JevDecision, batch: Option<Batch.BatchGroup>, home: Home, config: PolicyConfig, delegation: Delegation)
    ensures var outcome := AfterDelegation(request, d, batch, home, config, delegation);
      && ((outcome.Some? && outcome.value.kind == Execute) <==> ExecutesFallback(request, batch, home, config, delegation))
      && ((outcome.Some? && outcome.value.kind == Confirm) <==> AsksForFallback(request, batch, home, config, delegation))
      && ((outcome.Some? && outcome.value.kind == Answer) <==> ProseOf(delegation).Some?)
      && (ProseOf(delegation).Some? ==> outcome.value.text == ProseOf(delegation))
  {
    if ActionOf(delegation).Some? {
      var (id, parameters) := ActionOf(delegation).value;
      ActionsComeTo(request, d, batch, home, config, delegation);
      match batch {
        case None => ProposalAnswersExactly(request, d, id, parameters, home, config, delegation.handoff.routeId);
        case Some(group) => GroupAnswersExactly(request, GroupChosen(group), group, home, config);
      }
    } else {
      OthersComeTo(request, d, batch, home, config, delegation);
    }
  }

  /** What is said when a handoff comes to nothing. */
  lemma HandoffsFailAs(request: Request, d: JevDecision, batch: Option<Batch.BatchGroup>, home: Home, config: PolicyConfig, delegation: Delegation)
    ensures var outcome := AfterDelegation(request, d, batch, home, config, delegation);
      match delegation
      case NoRoute => RefusesAs(outcome, "route_not_allowed")
      case Looped => RefusesAs(outcome, "handoff_loop_detected")
      case NoBroker(_) => RefusesAs(outcome, "handoff_unavailable")
      case Dispatched(_, NoAnswer) => RefusesAs(outcome, "handoff_unavailable")
      case Dispatched(_, InvalidAnswer) => RefusesAs(outcome, "handoff_invalid_response")
      case Dispatched(_, Raised) => outcome.None?
      case Dispatched(_, Answered(_, Prose(_))) => outcome.Some? && outcome.value.response == "delegated_prose"
      case Dispatched(_, Answered(_, Tool(proposal))) =>
        && (ActionOf(delegation).None? ==> RefusesAs(outcome, "handoff_invalid_response"))
        && (batch.None? && ActionOf(delegation).Some? && !Spoken(request, ActionOf(delegation).value.0) ==>
              RefusesAs(outcome, "fallback_target_unverified"))
        && (batch.None? && ActionOf(delegation).Some? && Spoken(request, ActionOf(delegation).value.0) ==>
              && ((forall c :: !StandsFor(home, ActionOf(delegation).value.0, c)) ==> RefusesAs(outcome, "candidate_not_allowed"))
              && ((exists c :: StandsFor(home, ActionOf(delegation).value.0, c) && !Accepts(Policy, c.schema, ActionOf(delegation).value.1)) ==>
                    RefusesAs(outcome, "invalid_parameters")))
        && (batch.Some? && ActionOf(delegation).Some? && ActionOf(delegation).value.0 != batch.value.id ==>
              RefusesAs(outcome, "fallback_target_unverified"))
  {
    if ActionOf(delegation).Some? {
      var id := ActionOf(delegation).value.0;
      SpokenExactly(request, id);
      forall c ensures Find(home.capabilities, Some(id)) == Some(c) <==> StandsFor(home, id, c) {
        FoundIsTheFirst(home, id, c);
      }
      if Find(home.capabilities, Some(id)).Some? {
        FoundIsTheFirst(home, id, Find(home.capabilities, Some(id)).value);
      }
    }
  }

  predicate RefusesAs(outcome: Outcome, response: string) {
    outcome.Some? && outcome.value.kind == Refuse && outcome.value.response == response
  }

  // ---------------------------------------------------------------------------------------------------------
  // The funnel
  // ---------------------------------------------------------------------------------------------------------

  /** What the model's decision about control comes to when it is not handed on. */
  function ControlOf(request: Request, batch: Option<Batch.BatchGroup>, home: Home, config: PolicyConfig, d: JevDecision): Outcome {
    if batch.Some? then EvaluateBatch(request, d, batch.value, home, config) else Some(EvaluateExecution(request, d, home, config))
  }

  ghost predicate Executes(request: Request, batch: Option<Batch.BatchGroup>, home: Home, config: PolicyConfig, d: JevDecision) {
    match batch
    case None => ExecutesDirectly(request, d, home, config)
    case Some(group) => ExecutesGroup(d, group, home, config)
  }

  ghost predicate Asks(request: Request, batch: Option<Batch.BatchGroup>, home: Home, config: PolicyConfig, d: JevDecision) {
    batch.None? && AsksDirectly(request, d, home, config)
  }

  /** A decision about control is handed on if there is a route and the model was unsure or its parameters do not fit. */
  ghost predicate HandsOnControl(request: Request, batch: Option<Batch.BatchGroup>, home: Home, config: PolicyConfig, d: JevDecision) {
    match batch
    case None => UnsureDirectly(request, d, home, config) || BadParameters(request, d, home)
    case Some(group) =>
      var outcome := EvaluateBatch(request, d, group, home, config);
      outcome.Some? && outcome.value.response in {"confidence_too_low", "ambiguous_request", "invalid_parameters"}
  }

  /** Which answers of the model go on to a fallback. */
  ghost predicate HandsOn(request: Request, batch: Option<Batch.BatchGroup>, home: Home, config: PolicyConfig, hasRoutes: bool, jev: JevAnswer) {
    match jev
    case Decided(d) =>
      (match d.route
       case DelegateRoute => true
       case ReadOnly => false
       case ClarifyRoute => hasRoutes
       case RefuseRoute => hasRoutes
       case RoutineControl => hasRoutes && HandsOnControl(request, batch, home, config, d))
    case _ => hasRoutes
  }

  lemma PlansExactly(request: Request, batch: Option<Batch.BatchGroup>, home: Home, config: PolicyConfig, hasRoutes: bool, jev: JevAnswer)
    ensures var plan := PlanOf(request, batch, home, config, hasRoutes, jev);
      && (plan.Delegate? <==> HandsOn(request, batch, home, config, hasRoutes, jev))
      && (plan.Delegate? && jev.Decided? ==> plan.decision == jev.decision)
      && (plan.Delegate? && !jev.Decided? ==> plan.decision.capabilityId.None? && plan.decision.parameters == map[])
      && (plan.Done? && jev.Decided? && jev.decision.route == RoutineControl ==>
            plan.outcome == ControlOf(request, batch, home, config, jev.decision))
      && (plan.Done? && !(jev.Decided? && jev.decision.route == RoutineControl) ==>
            && plan.outcome.Some? && plan.outcome.value.kind in {Clarify, Refuse, Answer}
            && (plan.outcome.value.kind == Answer <==> jev.Decided? && jev.decision.route == ReadOnly)
            && (plan.outcome.value.kind == Clarify <==> jev.Decided? && jev.decision.route == ClarifyRoute))
  {
    if jev.Decided? && jev.decision.route == RoutineControl && batch.None? {
      DirectAnswersExactly(request, jev.decision, home, config);
    }
  }

  lemma ControlExactly(request: Request, batch: Option<Batch.BatchGroup>, home: Home, config: PolicyConfig, d: JevDecision)
    ensures var outcome := ControlOf(request, batch, home, config, d);
      && ((outcome.Some? && outcome.value.kind == Execute) <==> Executes(request, batch, home, config, d))
      && ((outcome.Some? && outcome.value.kind == Confirm) <==> Asks(request, batch, home, config, d))
      && (outcome.Some? ==> outcome.value.kind != Answer)
  {
    match batch {
      case None => DirectAnswersExactly(request, d, home, config);
      case Some(group) => GroupAnswersExactly(request, d, group, home, config);
    }
  }

  predicate Controls(jev: JevAnswer) {
    jev.Decided? && jev.decision.route == RoutineControl
  }

  /**
   For every answer of the model and of the fallbacks: an execution is the answer if and only if the model's decision about
   control passes every gate, or it was handed on and what a fallback proposed does; likewise for a confirmation; and prose is
   the answer if and only if the model chose to read, or a fallback answered in prose.
   */
  lemma OutcomesExactly(request: Request, batch: Option<Batch.BatchGroup>, home: Home, config: PolicyConfig, hasRoutes: bool,
                        jev: JevAnswer, delegation: Delegation)
    ensures var outcome, handed := OutcomeOf(request, batch, home, config, hasRoutes, jev, delegation), HandsOn(request, batch, home, config, hasRoutes, jev);
      && ((outcome.Some? && outcome.value.kind == Execute) <==>
            if handed then ExecutesFallback(request, batch, home, config, delegation)
            else Controls(jev) && Executes(request, batch, home, config, jev.decision))
      && ((outcome.Some? && outcome.value.kind == Confirm) <==>
            if handed then AsksForFallback(request, batch, home, config, delegation)
            else Controls(jev) && Asks(request, batch, home, config, jev.decision))
      && ((outcome.Some? && outcome.value.kind == Answer) <==>
            if handed then ProseOf(delegation).Some? else jev.Decided? && jev.decision.route == ReadOnly)
  {
    PlansExactly(request, batch, home, config, hasRoutes, jev);
    var plan := PlanOf(request, batch, home, config, hasRoutes, jev);
    if plan.Delegate? {
      FallbackAnswersExactly(request, plan.decision, batch, home, config, delegation);
    } else if Controls(jev) {
      ControlExactly(request, batch, home, config, jev.decision);
    }
  }

  /** A decision that passes every gate is not handed on. */
  lemma WhatPassesIsNotHandedOn(request: Request, home: Home, config: PolicyConfig, d: JevDecision)
    requires ExecutesDirectly(request, d, home, config) || AsksDirectly(request, d, home, config)
    ensures !HandsOnControl(request, None, home, config, d)
  {
    DirectAnswersExactly(request, d, home, config);
  }

  // ---------------------------------------------------------------------------------------------------------
  // A whole request
  // ---------------------------------------------------------------------------------------------------------

  /** Before the model is asked: a request for the active, current profile, and no hosted model in local mode. */
  predicate Admitted(s: Setting, p: G.Payload) {
    && p.request.Some? && s.app.active.Some? && s.app.pending == {}
    && p.request.value.revision == s.app.active.value.revision && s.app.active.value.status.Active?
    && !(s.jevHosted && (s.privacy.LocalOnly? || (p.privacyGiven && p.request.value.privacy.LocalOnly?)))
  }

  function CatalogOf(s: Setting): Batch.Catalog
    requires s.app.active.Some?
  {
    s.compiled(s.app.active.value.snapshot)
  }

  /** The model is asked exactly for admitted requests whose words are not a refused group, and about nothing but that group if there is one. */
  lemma AskedExactly(s: Setting, p: G.Payload)
    ensures StageOf(s, p).Asking? <==>
      Admitted(s, p) && Batch.BuildBatch(p.request.value.speech, p.request.value.revision, CatalogOf(s), s.digest).Ok?
    ensures StageOf(s, p).Stopped? ==> StageOf(s, p).result.kind == Refuse
    ensures StageOf(s, p).Asking? ==>
      && StageOf(s, p).home == Home(s.app.active.value, CatalogOf(s).capabilities)
      && Ok(StageOf(s, p).batch) == Batch.BuildBatch(p.request.value.speech, p.request.value.revision, CatalogOf(s), s.digest)
      && StageOf(s, p).request == p.request.value.(
           privacy := StageOf(s, p).request.privacy,
           candidates := if StageOf(s, p).batch.Some? then [Candidate(StageOf(s, p).batch.value.id, StageOf(s, p).batch.value.operation, "", {})]
                         else p.request.value.candidates)
  {
  }

  /** A handoff is made exactly when the model was asked and its answer is handed on. */
  lemma NeedsExactly(s: Setting, p: G.Payload, jev: JevAnswer)
    ensures Needs(s, p, jev) <==>
      StageOf(s, p).Asking? && HandsOn(StageOf(s, p).request, StageOf(s, p).batch, StageOf(s, p).home, s.config, s.hasRoutes, jev)
  {
    if StageOf(s, p).Asking? {
      PlansExactly(StageOf(s, p).request, StageOf(s, p).batch, StageOf(s, p).home, s.config, s.hasRoutes, jev);
    }
  }

  /** Why a request is refused before the model is asked. */
  lemma RefusedBecause(s: Setting, p: G.Payload)
    requires StageOf(s, p).Stopped?
    ensures StageOf(s, p).result.capabilityId.None? && StageOf(s, p).result.capabilityIds == []
    ensures var code := StageOf(s, p).result.response;
      if p.request.None? then code == "invalid_request"
      else if s.app.active.None? || p.request.value.revision != s.app.active.value.revision then code == "profile_stale"
      else if !s.app.active.value.status.Active? || s.app.pending != {} then code == "profile_reconciling"
      else if !Admitted(s, p) then code == "privacy_mode_denied"
      else Batch.BuildBatch(p.request.value.speech, p.request.value.revision, CatalogOf(s), s.digest) == Err(code)
  {
  }

  /** A decision of the model about one device, for an admitted request: executed or asked about if and only if the gates say so. */
  lemma DecidedRequestsExactly(s: Setting, p: G.Payload, d: JevDecision, delegation: Delegation)
    requires Admitted(s, p) && d.route == RoutineControl
    requires Batch.BuildBatch(p.request.value.speech, p.request.value.revision, CatalogOf(s), s.digest) == Ok(None)
    ensures var reply, request := Reply(s, p, Decided(d), delegation), p.request.value;
      var home := Home(s.app.active.value, CatalogOf(s).capabilities);
      && (ExecutesDirectly(request, d, home, s.config) ==>
            reply.Some? && reply.value.kind == Execute && Carries(request, d, reply.value) && reply.value.response == "execute")
      && (AsksDirectly(request, d, home, s.config) ==> reply.Some? && reply.value.kind == Confirm && Carries(request, d, reply.value))
      && (!(s.hasRoutes && HandsOnControl(request, None, home, s.config, d)) ==>
            && ((reply.Some? && reply.value.kind == Execute) <==> ExecutesDirectly(request, d, home, s.config))
            && ((reply.Some? && reply.value.kind == Confirm) <==> AsksDirectly(request, d, home, s.config)))
      && (s.hasRoutes && HandsOnControl(request, None, home, s.config, d) ==>
            && ((reply.Some? && reply.value.kind == Execute) <==> ExecutesFallback(request, None, home, s.config, delegation))
            && ((reply.Some? && reply.value.kind == Confirm) <==> AsksForFallback(request, None, home, s.config, delegation)))
  {
    AskedExactly(s, p);
    var request, home := StageOf(s, p).request, StageOf(s, p).home;
    PrivacyIsNoGate(p.request.value, request, d, home, s.config, delegation);
    OutcomesExactly(request, None, home, s.config, s.hasRoutes, Decided(d), delegation);
    DirectAnswersExactly(request, d, home, s.config);
    PlansExactly(request, None, home, s.config, s.hasRoutes, Decided(d));
    if ExecutesDirectly(request, d, home, s.config) || AsksDirectly(request, d, home, s.config) {
      WhatPassesIsNotHandedOn(request, home, s.config, d);
    }
  }

  /** The gates do not look at the privacy mode. */
  lemma PrivacyIsNoGate(a: Request, b: Request, d: JevDecision, home: Home, config: PolicyConfig, delegation: Delegation)
    requires b == a.(privacy := b.privacy)
    ensures ExecutesDirectly(a, d, home, config) <==> ExecutesDirectly(b, d, home, config)
    ensures AsksDirectly(a, d, home, config) <==> AsksDirectly(b, d, home, config)
    ensures HandsOnControl(a, None, home, config, d) <==> HandsOnControl(b, None, home, config, d)
    ensures ExecutesFallback(a, None, home, config, delegation) <==> ExecutesFallback(b, None, home, config, delegation)
    ensures AsksForFallback(a, None, home, config, delegation) <==> AsksForFallback(b, None, home, config, delegation)
  {
    forall c ensures WellFormed(a, d, home, c) <==> WellFormed(b, d, home, c)
      ensures Misfits(a, d, home, c) <==> Misfits(b, d, home, c) {
    }
    forall id ensures Spoken(a, id) <==> Spoken(b, id) {
      forall k | 0 <= k < |a.candidates| ensures SpokenAt(a, id, k) <==> SpokenAt(b, id, k) {
      }
    }
    forall id, parameters, c ensures Proposable(a, home, id, parameters, c, config) <==> Proposable(b, home, id, parameters, c, config) {
    }
  }
}
