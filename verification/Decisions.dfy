/**
 What the gateway makes of a provider's answer.  The decision model and the fallback providers are arbitrary: every
 theorem here is for any answer of theirs.
 */
module Decisions {
  import opened Common
  import opened Parameters
  import opened Routes
  import opened Handoff
  import Batch
  import Monitor

  datatype RouteKind = RoutineControl | ReadOnly | DelegateRoute | ClarifyRoute | RefuseRoute

  datatype ResultKind = Execute | Clarify | Confirm | Answer | Refuse

  datatype Candidate = Candidate(id: string, operation: string, name: string, properties: set<string>)

  /** `spoken` and `named` say which of an operation's phrases and which device names stand in the utterance. */
  datatype Request = Request(
    id: string, speech: Batch.Speech, spoken: string -> bool, named: string -> bool, revision: string,
    candidates: seq<Candidate>, confirmation: bool, privacy: Privacy, depth: nat)

  datatype JevDecision = JevDecision(
    route: RouteKind, complexity: Complexity, capabilityId: Option<string>, confidence: real, ambiguity: real, parameters: Values)

  datatype JevAnswer = Decided(decision: JevDecision) | Failed(code: string) | Crashed

  datatype DecisionResult = DecisionResult(
    kind: ResultKind, requestId: string, revision: string, response: string, capabilityId: Option<string>,
    capabilityIds: seq<string>, routeId: Option<string>, text: Option<string>, parameters: Values)

  /** `None` is an exception on its way out of the gateway. */
  type Outcome = Option<DecisionResult>

  datatype PolicyConfig = PolicyConfig(
    domains: set<string>, operations: set<string>, highRisk: set<string>, confidence: real, ambiguity: real,
    maxLatency: int, maxCost: real)

  /** The active profile with what was compiled into it. */
  datatype Home = Home(profile: Monitor.Profile, capabilities: seq<Batch.Capability>)

  // ---------------------------------------------------------------------------------------------------------
  // Policy
  // ---------------------------------------------------------------------------------------------------------

  function Find(s: seq<Batch.Capability>, id: Option<string>): (found: Option<Batch.Capability>)
    ensures found.Some? ==> id == Some(found.value.id) && found.value in s
    ensures found.None? ==> forall c :: c in s ==> id != Some(c.id)
  {
    if s == [] || id.None? then None else if s[0].id == id.value then Some(s[0]) else Find(s[1..], id)
  }

  datatype Verdict = Allowed | NeedsConfirmation | Denied(response: string)

  predicate HighRisk(c: Batch.Capability, config: PolicyConfig) {
    c.risk in {"confirm", "blocked"} || c.domain in config.highRisk
  }

  function Evaluate(home: Home, id: Option<string>, confidence: real, ambiguity: real, confirmed: bool, config: PolicyConfig): Verdict {
    var found := Find(home.capabilities, id);
    if home.profile.status != Monitor.Active then Denied("profile_stale")
    else if !(0.0 <= confidence <= 1.0) || !(0.0 <= ambiguity <= 1.0) then Denied("jev_invalid_response")
    else if found.None? || !found.value.exposed || !found.value.available then Denied("candidate_not_allowed")
    else if found.value.domain !in config.domains || found.value.operation !in config.operations then Denied("policy_denied")
    else if confidence < config.confidence then Denied("confidence_too_low")
    else if ambiguity > config.ambiguity then Denied("ambiguous_request")
    else if found.value.risk == "blocked" then Denied("policy_denied")
    else if HighRisk(found.value, config) && !confirmed then NeedsConfirmation
    else Allowed
  }

  /** What a capability must be for a write to be proposed at all. */
  predicate Writable(home: Home, id: string, config: PolicyConfig) {
    var found := Find(home.capabilities, Some(id));
    && found.Some? && found.value.exposed && found.value.available
    && found.value.domain in config.domains && found.value.operation in config.operations
    && found.value.risk != "blocked"
  }

  // ---------------------------------------------------------------------------------------------------------
  // Decided by the model
  // ---------------------------------------------------------------------------------------------------------

  function ResultOf(request: Request, kind: ResultKind, response: string, decision: Option<JevDecision>): DecisionResult {
    DecisionResult(kind, request.id, request.revision, response,
                   if decision.Some? then decision.value.capabilityId else None, [], None, None,
                   if decision.Some? then decision.value.parameters else map[])
  }

  predicate Offers(request: Request, id: Option<string>) {
    exists c :: c in request.candidates && Some(c.id) == id
  }

  predicate Unsure(response: string) {
    response in {"ambiguous_request", "confidence_too_low"}
  }

  function OrElse(parameters: Values, other: Values): Values {
    if parameters == map[] then other else parameters
  }

  function EvaluateExecution(request: Request, d: JevDecision, home: Home, config: PolicyConfig): DecisionResult {
    if !Offers(request, d.capabilityId) then ResultOf(request, Refuse, "candidate_not_allowed", Some(d))
    else
      var found := Find(home.capabilities, d.capabilityId);
      if found.Some? && !Accepts(Policy, found.value.schema, d.parameters) then ResultOf(request, Refuse, "invalid_parameters", Some(d))
      else
        match Evaluate(home, d.capabilityId, d.confidence, d.ambiguity, request.confirmation, config)
        case NeedsConfirmation => ResultOf(request, Confirm, "confirmation_required", Some(d))
        case Denied(response) => ResultOf(request, if Unsure(response) then Clarify else Refuse, response, Some(d))
        case Allowed => ResultOf(request, Execute, "execute", Some(d))
  }

  /** What stops a batch at one member; `None` when the member passes. */
  function Objection(request: Request, d: JevDecision, id: string, home: Home, config: PolicyConfig): Option<DecisionResult> {
    match Evaluate(home, Some(id), 1.0, 0.0, false, config)
    case NeedsConfirmation => Some(ResultOf(request, Refuse, "batch_confirmation_unsupported", None))
    case Denied(response) => Some(ResultOf(request, if Unsure(response) then Clarify else Refuse, response, Some(d)))
    case Allowed =>
      if Accepts(Policy, Find(home.capabilities, Some(id)).value.schema, map[]) then None
      else Some(ResultOf(request, Refuse, "invalid_parameters", None))
  }

  function FirstObjection(request: Request, d: JevDecision, members: seq<string>, home: Home, config: PolicyConfig): Option<DecisionResult> {
    if members == [] then None
    else
      var objection := Objection(request, d, members[0], home, config);
      if objection.Some? then objection else FirstObjection(request, d, members[1..], home, config)
  }

  /** A result with a repeated capability id cannot be built. */
  function EvaluateBatch(request: Request, d: JevDecision, batch: Batch.BatchGroup, home: Home, config: PolicyConfig): Outcome {
    if d.capabilityId != Some(batch.id) || d.parameters != map[] then Some(ResultOf(request, Refuse, "candidate_not_allowed", None))
    else
      var objection := FirstObjection(request, d, batch.members, home, config);
      if objection.Some? then objection
      else if |batch.members| > Batch.MAX_TARGETS || !Distinct(batch.members) then None
      else Some(DecisionResult(Execute, request.id, request.revision, "batch_execute",
                               if batch.members == [] then d.capabilityId else None, batch.members, None, None, d.parameters))
  }

  // ---------------------------------------------------------------------------------------------------------
  // Decided by a fallback
  // ---------------------------------------------------------------------------------------------------------

  const FALLBACK_OPERATIONS: set<string> :=
    {"turn_on", "turn_off", "toggle", "lock", "unlock", "open_cover", "close_cover", "set_brightness", "set_temperature", "set_volume"}

  /** A fallback may only name a device whose operation and name were spoken. */
  predicate Matches(request: Request, c: Candidate) {
    c.operation in FALLBACK_OPERATIONS && request.spoken(c.operation) && |c.name| >= 3 && request.named(c.name)
  }

  function FirstOffered(candidates: seq<Candidate>, id: string): (found: Option<Candidate>)
    ensures found.Some? ==> found.value in candidates && found.value.id == id
    ensures found.None? ==> forall c :: c in candidates ==> c.id != id
  {
    if candidates == [] then None else if candidates[0].id == id then Some(candidates[0]) else FirstOffered(candidates[1..], id)
  }

  datatype Delegation = NoRoute | Looped | NoBroker(routeId: string) | Dispatched(handoff: HandoffRequest, answer: Handoff.Answer)

  function Delegated(request: Request, kind: ResultKind, response: string, d: JevDecision, routeId: string, id: Option<string>): DecisionResult {
    ResultOf(request, kind, response, Some(d)).(routeId := Some(routeId), capabilityId := if id.Some? then id else d.capabilityId)
  }

  function Proposed(request: Request, d: JevDecision, id: string, parameters: Values, home: Home, config: PolicyConfig, routeId: string):
    DecisionResult
  {
    var candidate, found := FirstOffered(request.candidates, id), Find(home.capabilities, Some(id));
    if candidate.None? || !Matches(request, candidate.value) then
      Delegated(request, Refuse, "fallback_target_unverified", d, routeId, None)
    else if found.None? then Delegated(request, Refuse, "candidate_not_allowed", d, routeId, Some(id))
    else if !Accepts(Policy, found.value.schema, parameters) then Delegated(request, Refuse, "invalid_parameters", d, routeId, Some(id))
    else
      match Evaluate(home, Some(id), 1.0, 0.0, request.confirmation, config)
      case NeedsConfirmation =>
        Delegated(request, Confirm, "confirmation_required", d, routeId, Some(id)).(parameters := OrElse(parameters, d.parameters))
      case Denied(response) => Delegated(request, Refuse, response, d, routeId, Some(id))
      case Allowed => Delegated(request, Execute, "execute", d, routeId, Some(id)).(parameters := OrElse(parameters, d.parameters))
  }

  /** The model's own choice of the group, made for it once a fallback named the group. */
  function GroupChosen(batch: Batch.BatchGroup): JevDecision {
    JevDecision(RoutineControl, Simple, Some(batch.id), 1.0, 0.0, map[])
  }

  function ProposedBatch(request: Request, d: JevDecision, id: string, batch: Batch.BatchGroup, home: Home, config: PolicyConfig, routeId: string):
    Outcome
  {
    if id != batch.id then Some(Delegated(request, Refuse, "fallback_target_unverified", d, routeId, None))
    else
      match EvaluateBatch(request, GroupChosen(batch), batch, home, config)
      case None => None
      case Some(result) => Some(result.(routeId := Some(routeId)))
  }

  function AfterDelegation(request: Request, d: JevDecision, batch: Option<Batch.BatchGroup>, home: Home, config: PolicyConfig,
                           delegation: Delegation): Outcome
  {
    match delegation
    case NoRoute => Some(ResultOf(request, Refuse, "route_not_allowed", Some(d)))
    case Looped => Some(ResultOf(request, Refuse, "handoff_loop_detected", Some(d)))
    case NoBroker(_) => Some(ResultOf(request, Refuse, "handoff_unavailable", Some(d)))
    case Dispatched(handoff, answer) =>
      match answer
      case Raised => None
      case InvalidAnswer => Some(Delegated(request, Refuse, "handoff_invalid_response", d, handoff.routeId, None))
      case NoAnswer => Some(Delegated(request, Refuse, "handoff_unavailable", d, handoff.routeId, None))
      case Answered(_, response) =>
        match response
        case Prose(text) => Some(Delegated(request, Answer, "delegated_prose", d, handoff.routeId, None).(text := Some(text)))
        case Tool(proposal) =>
          if !proposal.Proposal? || proposal.parameters.None? then
            Some(Delegated(request, Refuse, "handoff_invalid_response", d, handoff.routeId, None))
          else if batch.Some? then ProposedBatch(request, d, proposal.capabilityId, batch.value, home, config, handoff.routeId)
          else Some(Proposed(request, d, proposal.capabilityId, proposal.parameters.value, home, config, handoff.routeId))
  }

  // ---------------------------------------------------------------------------------------------------------
  // The funnel
  // ---------------------------------------------------------------------------------------------------------

  datatype Plan = Done(outcome: Outcome) | Delegate(decision: JevDecision)

  /** The stand-in when the model gave no decision. */
  const NO_DECISION := JevDecision(DelegateRoute, Simple, None, 0.0, 0.0, map[])

  function DelegateOr(hasRoutes: bool, d: JevDecision, outcome: Outcome): Plan {
    if hasRoutes then Delegate(d) else Done(outcome)
  }

  function PlanOf(request: Request, batch: Option<Batch.BatchGroup>, home: Home, config: PolicyConfig, hasRoutes: bool, jev: JevAnswer): Plan {
    match jev
    case Failed(code) => DelegateOr(hasRoutes, NO_DECISION, Some(ResultOf(request, Refuse, code, None)))
    case Crashed => DelegateOr(hasRoutes, NO_DECISION, Some(ResultOf(request, Refuse, "jev_invalid_response", None)))
    case Decided(d) =>
      match d.route
      case ClarifyRoute => DelegateOr(hasRoutes, d, Some(ResultOf(request, Clarify, "clarification_required", Some(d))))
      case RefuseRoute => DelegateOr(hasRoutes, d, Some(ResultOf(request, Refuse, "request_refused", Some(d))))
      case ReadOnly => Done(Some(ResultOf(request, Answer, "read_only_answer", Some(d))))
      case DelegateRoute => Delegate(d)
      case RoutineControl =>
        var outcome := if batch.Some? then EvaluateBatch(request, d, batch.value, home, config)
                       else Some(EvaluateExecution(request, d, home, config));
        if outcome.Some? && outcome.value.response in {"confidence_too_low", "ambiguous_request", "invalid_parameters"}
        then DelegateOr(hasRoutes, d, outcome) else Done(outcome)
  }

  function OutcomeOf(request: Request, batch: Option<Batch.BatchGroup>, home: Home, config: PolicyConfig, hasRoutes: bool,
                     jev: JevAnswer, delegation: Delegation): Outcome
  {
    match PlanOf(request, batch, home, config, hasRoutes, jev)
    case Done(outcome) => outcome
    case Delegate(d) => AfterDelegation(request, d, batch, home, config, delegation)
  }

  // ---------------------------------------------------------------------------------------------------------
  // What can be executed
  // ---------------------------------------------------------------------------------------------------------

  lemma AllowedMeans(home: Home, id: string, confidence: real, ambiguity: real, confirmed: bool, config: PolicyConfig)
    ensures Evaluate(home, Some(id), confidence, ambiguity, confirmed, config).Allowed? <==>
      && home.profile.status == Monitor.Active
      && 0.0 <= confidence <= 1.0 && 0.0 <= ambiguity <= 1.0
      && Writable(home, id, config)
      && config.confidence <= confidence && ambiguity <= config.ambiguity
      && (HighRisk(Find(home.capabilities, Some(id)).value, config) ==> confirmed)
    ensures Evaluate(home, Some(id), confidence, ambiguity, confirmed, config).NeedsConfirmation? <==>
      && Evaluate(home, Some(id), confidence, ambiguity, true, config).Allowed?
      && HighRisk(Find(home.capabilities, Some(id)).value, config) && !confirmed
  {
  }

  /** A single execution names a capability that was offered and that every gate passes. */
  predicate SafeSingle(request: Request, home: Home, config: PolicyConfig, r: DecisionResult) {
    && r.capabilityIds == [] && r.capabilityId.Some?
    && Offers(request, r.capabilityId)
    && Writable(home, r.capabilityId.value, config)
    && (HighRisk(Find(home.capabilities, r.capabilityId).value, config) ==> request.confirmation)
  }

  /** A batch execution names every member of the group, and each passes every gate without a confirmation. */
  predicate SafeBatch(batch: Batch.BatchGroup, home: Home, config: PolicyConfig, r: DecisionResult) {
    && r.capabilityIds == batch.members && r.parameters == map[]
    && forall id :: id in batch.members ==>
         && Writable(home, id, config) && !HighRisk(Find(home.capabilities, Some(id)).value, config)
         && Accepts(Policy, Find(home.capabilities, Some(id)).value.schema, map[])
  }

  lemma {:induction false} NoObjectionMeans(request: Request, d: JevDecision, members: seq<string>, home: Home, config: PolicyConfig)
    requires FirstObjection(request, d, members, home, config).None?
    ensures forall id :: id in members ==>
      && Writable(home, id, config) && !HighRisk(Find(home.capabilities, Some(id)).value, config)
      && Accepts(Policy, Find(home.capabilities, Some(id)).value.schema, map[])
  {
    if members == [] {
    } else {
      NoObjectionMeans(request, d, members[1..], home, config);
      AllowedMeans(home, members[0], 1.0, 0.0, false, config);
      assert forall id :: id in members <==> id == members[0] || id in members[1..];
    }
  }

  lemma {:induction false} ObjectionsDoNotExecute(request: Request, d: JevDecision, members: seq<string>, home: Home, config: PolicyConfig)
    ensures FirstObjection(request, d, members, home, config).Some? ==> FirstObjection(request, d, members, home, config).value.kind != Execute
  {
    if members == [] {
    } else {
      ObjectionsDoNotExecute(request, d, members[1..], home, config);
    }
  }

  lemma BatchIsSafe(request: Request, d: JevDecision, batch: Batch.BatchGroup, home: Home, config: PolicyConfig)
    ensures var outcome := EvaluateBatch(request, d, batch, home, config);
      outcome.Some? && outcome.value.kind == Execute ==>
        d.capabilityId == Some(batch.id) && SafeBatch(batch, home, config, outcome.value)
  {
    ObjectionsDoNotExecute(request, d, batch.members, home, config);
    if FirstObjection(request, d, batch.members, home, config).None? {
      NoObjectionMeans(request, d, batch.members, home, config);
    }
  }

  lemma SingleIsSafe(request: Request, d: JevDecision, home: Home, config: PolicyConfig)
    ensures var r := EvaluateExecution(request, d, home, config);
      r.kind == Execute ==> SafeSingle(request, home, config, r) && r.parameters == d.parameters
                            && Accepts(Policy, Find(home.capabilities, r.capabilityId).value.schema, r.parameters)
  {
    if d.capabilityId.Some? {
      AllowedMeans(home, d.capabilityId.value, d.confidence, d.ambiguity, request.confirmation, config);
    }
  }

  lemma ProposalIsSafe(request: Request, d: JevDecision, id: string, parameters: Values, home: Home, config: PolicyConfig, routeId: string)
    ensures var r := Proposed(request, d, id, parameters, home, config, routeId);
      r.kind == Execute ==>
        && SafeSingle(request, home, config, r) && r.capabilityId == Some(id)
        && FirstOffered(request.candidates, id).Some? && Matches(request, FirstOffered(request.candidates, id).value)
        && Accepts(Policy, Find(home.capabilities, Some(id)).value.schema, parameters)
        && r.parameters == OrElse(parameters, d.parameters)
  {
    AllowedMeans(home, id, 1.0, 0.0, request.confirmation, config);
  }

  lemma DelegationIsSafe(request: Request, d: JevDecision, batch: Option<Batch.BatchGroup>, home: Home, config: PolicyConfig, delegation: Delegation)
    ensures var outcome := AfterDelegation(request, d, batch, home, config, delegation);
      outcome.Some? && outcome.value.kind == Execute ==>
        && delegation.Dispatched?
        && if batch.Some? then SafeBatch(batch.value, home, config, outcome.value) else SafeSingle(request, home, config, outcome.value)
  {
    if delegation.Dispatched? && delegation.answer.Answered? && delegation.answer.response.Tool? {
      var proposal := delegation.answer.response.proposal;
      if proposal.Proposal? && proposal.parameters.Some? {
        if batch.Some? {
          BatchIsSafe(request, GroupChosen(batch.value), batch.value, home, config);
        } else {
          ProposalIsSafe(request, d, proposal.capabilityId, proposal.parameters.value, home, config, delegation.handoff.routeId);
        }
      }
    }
  }

  /** An offered capability that every gate but the confirmation passes. */
  predicate AsksOnlyForTheYes(request: Request, home: Home, config: PolicyConfig, r: DecisionResult) {
    && !request.confirmation && r.capabilityId.Some?
    && Offers(request, r.capabilityId)
    && Writable(home, r.capabilityId.value, config)
    && HighRisk(Find(home.capabilities, r.capabilityId).value, config)
  }

  /** What an outcome that asks for a confirmation may be. */
  predicate AsksRightly(request: Request, batch: Option<Batch.BatchGroup>, home: Home, config: PolicyConfig, outcome: Outcome) {
    outcome.Some? && outcome.value.kind == Confirm ==> batch.None? && AsksOnlyForTheYes(request, home, config, outcome.value)
  }

  lemma {:induction false} ObjectionsAskForNothing(request: Request, d: JevDecision, members: seq<string>, home: Home, config: PolicyConfig)
    ensures FirstObjection(request, d, members, home, config).Some? ==> FirstObjection(request, d, members, home, config).value.kind != Confirm
  {
    if members == [] {
    } else {
      ObjectionsAskForNothing(request, d, members[1..], home, config);
    }
  }

  lemma SingleAsksRightly(request: Request, d: JevDecision, home: Home, config: PolicyConfig)
    ensures AsksRightly(request, None, home, config, Some(EvaluateExecution(request, d, home, config)))
  {
    if d.capabilityId.Some? {
      AllowedMeans(home, d.capabilityId.value, d.confidence, d.ambiguity, request.confirmation, config);
      AllowedMeans(home, d.capabilityId.value, d.confidence, d.ambiguity, true, config);
    }
  }

  lemma ProposalAsksRightly(request: Request, d: JevDecision, id: string, parameters: Values, home: Home, config: PolicyConfig, routeId: string)
    ensures AsksRightly(request, None, home, config, Some(Proposed(request, d, id, parameters, home, config, routeId)))
  {
    AllowedMeans(home, id, 1.0, 0.0, request.confirmation, config);
    AllowedMeans(home, id, 1.0, 0.0, true, config);
  }

  lemma DelegationAsksRightly(request: Request, d: JevDecision, batch: Option<Batch.BatchGroup>, home: Home, config: PolicyConfig, delegation: Delegation)
    ensures AsksRightly(request, batch, home, config, AfterDelegation(request, d, batch, home, config, delegation))
  {
    if delegation.Dispatched? && delegation.answer.Answered? && delegation.answer.response.Tool? {
      var proposal := delegation.answer.response.proposal;
      if proposal.Proposal? && proposal.parameters.Some? {
        if batch.Some? {
          ObjectionsAskForNothing(request, GroupChosen(batch.value), batch.value.members, home, config);
        } else {
          ProposalAsksRightly(request, d, proposal.capabilityId, proposal.parameters.value, home, config, delegation.handoff.routeId);
        }
      }
    }
  }

  /** So a yes to what was asked, and nothing less, is all that is missing; a batch never asks. */
  lemma ConfirmationsAskOnlyForTheYes(request: Request, batch: Option<Batch.BatchGroup>, home: Home, config: PolicyConfig, hasRoutes: bool,
                                      jev: JevAnswer, delegation: Delegation)
    ensures AsksRightly(request, batch, home, config, OutcomeOf(request, batch, home, config, hasRoutes, jev, delegation))
  {
    var plan := PlanOf(request, batch, home, config, hasRoutes, jev);
    if plan.Delegate? {
      DelegationAsksRightly(request, plan.decision, batch, home, config, delegation);
    } else if jev.Decided? && jev.decision.route == RoutineControl {
      if batch.Some? {
        ObjectionsAskForNothing(request, jev.decision, batch.value.members, home, config);
      } else {
        SingleAsksRightly(request, jev.decision, home, config);
      }
    }
  }

  /** Whatever the model and the fallbacks answer, only what every gate passes is executed. */
  lemma ExecutionsAreSafe(request: Request, batch: Option<Batch.BatchGroup>, home: Home, config: PolicyConfig, hasRoutes: bool,
                          jev: JevAnswer, delegation: Delegation)
    ensures var outcome := OutcomeOf(request, batch, home, config, hasRoutes, jev, delegation);
      outcome.Some? && outcome.value.kind == Execute ==>
        if batch.Some? then SafeBatch(batch.value, home, config, outcome.value) else SafeSingle(request, home, config, outcome.value)
  {
    var plan := PlanOf(request, batch, home, config, hasRoutes, jev);
    if plan.Delegate? {
      DelegationIsSafe(request, plan.decision, batch, home, config, delegation);
    } else if jev.Decided? && jev.decision.route == RoutineControl {
      if batch.Some? {
        BatchIsSafe(request, jev.decision, batch.value, home, config);
      } else {
        SingleIsSafe(request, jev.decision, home, config);
      }
    }
  }

  /** The parameters of the action that a fallback proposed, if it did. */
  function FallbackParameters(delegation: Delegation): Values {
    if delegation.Dispatched? && delegation.answer.Answered? && delegation.answer.response.Tool? &&
       delegation.answer.response.proposal.Proposal? && delegation.answer.response.proposal.parameters.Some?
    then delegation.answer.response.proposal.parameters.value else map[]
  }

  /**
   The parameters of an execution passed policy for its capability, but for one case: a fallback's empty parameters are
   replaced by the model's own, which were checked for the capability that the model chose.
   */
  lemma ParametersPassPolicyExactly(request: Request, home: Home, config: PolicyConfig, hasRoutes: bool, jev: JevAnswer, delegation: Delegation)
    requires OutcomeOf(request, None, home, config, hasRoutes, jev, delegation).Some?
    requires OutcomeOf(request, None, home, config, hasRoutes, jev, delegation).value.kind == Execute
    ensures var r := OutcomeOf(request, None, home, config, hasRoutes, jev, delegation).value;
      && r.capabilityId.Some? && Find(home.capabilities, r.capabilityId).Some?
      && var schema := Find(home.capabilities, r.capabilityId).value.schema;
         match PlanOf(request, None, home, config, hasRoutes, jev)
         case Done(_) => Accepts(Policy, schema, r.parameters)
         case Delegate(d) =>
           var own := FallbackParameters(delegation);
           Accepts(Policy, schema, r.parameters) <==> (own != map[] || Accepts(Policy, schema, d.parameters))
  {
    var plan := PlanOf(request, None, home, config, hasRoutes, jev);
    ExecutionsAreSafe(request, None, home, config, hasRoutes, jev, delegation);
    if plan.Delegate? && delegation.Dispatched? && delegation.answer.Answered? && delegation.answer.response.Tool? {
      var proposal := delegation.answer.response.proposal;
      if proposal.Proposal? && proposal.parameters.Some? {
        ProposalIsSafe(request, plan.decision, proposal.capabilityId, proposal.parameters.value, home, config, delegation.handoff.routeId);
      }
    } else if jev.Decided? && jev.decision.route == RoutineControl {
      SingleIsSafe(request, jev.decision, home, config);
    }
  }

  /** The client of the model leaves no parameters, or normalised them for the capability that the model chose. */
  predicate Normalised(home: Home, d: JevDecision) {
    d.parameters == map[] || (Find(home.capabilities, d.capabilityId).Some? ==>
                                Accepts(TypedAnswer, Find(home.capabilities, d.capabilityId).value.schema, d.parameters))
  }

  /** So they pass as long as the fallback names what the model chose, if the model chose parameters at all. */
  lemma SameChoiceKeepsPolicy(request: Request, home: Home, config: PolicyConfig, hasRoutes: bool, jev: JevAnswer, delegation: Delegation)
    requires OutcomeOf(request, None, home, config, hasRoutes, jev, delegation).Some?
    requires OutcomeOf(request, None, home, config, hasRoutes, jev, delegation).value.kind == Execute
    requires var plan := PlanOf(request, None, home, config, hasRoutes, jev);
      plan.Delegate? ==>
        && Normalised(home, plan.decision)
        && (plan.decision.parameters == map[]
            || plan.decision.capabilityId == OutcomeOf(request, None, home, config, hasRoutes, jev, delegation).value.capabilityId)
    ensures var r := OutcomeOf(request, None, home, config, hasRoutes, jev, delegation).value;
      Find(home.capabilities, r.capabilityId).Some? && Accepts(Policy, Find(home.capabilities, r.capabilityId).value.schema, r.parameters)
  {
    ParametersPassPolicyExactly(request, home, config, hasRoutes, jev, delegation);
    var plan := PlanOf(request, None, home, config, hasRoutes, jev);
    if plan.Delegate? {
      if plan.decision.parameters == map[] {
        OwnParametersPassed(request, plan.decision, home, config, delegation);
      } else {
        PolicyIsTheWidest(TypedAnswer, Find(home.capabilities, plan.decision.capabilityId).value.schema, plan.decision.parameters);
      }
    }
  }

  lemma OwnParametersPassed(request: Request, d: JevDecision, home: Home, config: PolicyConfig, delegation: Delegation)
    requires AfterDelegation(request, d, None, home, config, delegation).Some?
    requires AfterDelegation(request, d, None, home, config, delegation).value.kind == Execute
    ensures var r := AfterDelegation(request, d, None, home, config, delegation).value;
      && Find(home.capabilities, r.capabilityId).Some?
      && Accepts(Policy, Find(home.capabilities, r.capabilityId).value.schema, FallbackParameters(delegation))
      && r.parameters == OrElse(FallbackParameters(delegation), d.parameters)
  {
    if delegation.Dispatched? && delegation.answer.Answered? && delegation.answer.response.Tool? {
      var proposal := delegation.answer.response.proposal;
      if proposal.Proposal? && proposal.parameters.Some? {
        ProposalIsSafe(request, d, proposal.capabilityId, proposal.parameters.value, home, config, delegation.handoff.routeId);
      }
    }
  }

  const DIMMER := Batch.Capability("capability-a", "adapter-a", "light", "set_brightness", "", "", [], true, true, "routine",
                                   Schema(Some(["brightness"]), map["brightness" := NumberSpec(Some(0.0), Some(100.0))]))
  const PLUG := Batch.Capability("capability-b", "adapter-b", "switch", "turn_on", "", "", [], true, true, "routine", Schema(Some([]), map[]))
  const BRIGHT: Values := map["brightness" := Number(50.0)]

  /** The model was not sure about the dimmer, and the fallback named the plug. */
  const UNSURE := JevDecision(RoutineControl, Simple, Some("capability-a"), 0.5, 0.0, BRIGHT)

  predicate LampAndPlug(request: Request, home: Home) {
    && request.candidates ==
         [Candidate("capability-a", "set_brightness", "lamp", {"brightness"}), Candidate("capability-b", "turn_on", "plug", {})]
    && home.capabilities == [DIMMER, PLUG]
  }

  lemma UnsureIsNormalisedAndDelegated(request: Request, home: Home, config: PolicyConfig)
    requires LampAndPlug(request, home) && home.profile.status == Monitor.Active
    requires config.confidence > 0.5 && DIMMER.domain in config.domains && DIMMER.operation in config.operations
    ensures Accepts(TypedAnswer, DIMMER.schema, BRIGHT)
    ensures PlanOf(request, None, home, config, true, Decided(UNSURE)) == Delegate(UNSURE)
  {
    assert SchemaFits(DIMMER.schema);
    PolicyIsTheWidest(TypedAnswer, DIMMER.schema, BRIGHT);
    assert request.candidates[0] in request.candidates;
    assert Find(home.capabilities, UNSURE.capabilityId) == Some(DIMMER);
  }

  /** An execution that turns the plug on "with brightness 50": the parameters do not pass policy for what is executed. */
  lemma ParametersOfAnotherChoice(request: Request, home: Home, config: PolicyConfig, handoff: HandoffRequest)
    requires LampAndPlug(request, home) && home.profile.status == Monitor.Active && request.spoken("turn_on") && request.named("plug")
    requires 0.5 < config.confidence <= 1.0 && config.ambiguity >= 0.0 && PLUG.domain !in config.highRisk
    requires {"light", "switch"} <= config.domains && {"set_brightness", "turn_on"} <= config.operations
    ensures var delegation := Dispatched(handoff, Answered("r", Tool(Proposal.Proposal(false, "capability-b", true, Some(map[])))));
      var outcome := OutcomeOf(request, None, home, config, true, Decided(UNSURE), delegation);
      && outcome.Some? && outcome.value.kind == Execute && outcome.value.capabilityId == Some("capability-b")
      && outcome.value.parameters == BRIGHT && !Accepts(Policy, PLUG.schema, outcome.value.parameters)
  {
    UnsureIsNormalisedAndDelegated(request, home, config);
    PlugIsProposed(request, home, config, handoff.routeId);
    ActionsAreProposed(request, UNSURE, home, config, handoff, "capability-b", map[]);
    PlugTakesNothing();
  }

  lemma PlugTakesNothing()
    ensures !Accepts(Policy, PLUG.schema, BRIGHT)
  {
    assert "brightness" in BRIGHT;
  }

  lemma ActionsAreProposed(request: Request, d: JevDecision, home: Home, config: PolicyConfig, handoff: HandoffRequest, id: string, parameters: Values)
    ensures var delegation := Dispatched(handoff, Answered("r", Tool(Proposal.Proposal(false, id, true, Some(parameters)))));
      AfterDelegation(request, d, None, home, config, delegation) == Some(Proposed(request, d, id, parameters, home, config, handoff.routeId))
  {
  }

  lemma PlugIsProposed(request: Request, home: Home, config: PolicyConfig, routeId: string)
    requires LampAndPlug(request, home) && home.profile.status == Monitor.Active && request.spoken("turn_on") && request.named("plug")
    requires config.confidence <= 1.0 && config.ambiguity >= 0.0 && PLUG.domain in config.domains - config.highRisk && "turn_on" in config.operations
    ensures Proposed(request, UNSURE, "capability-b", map[], home, config, routeId) ==
      Delegated(request, Execute, "execute", UNSURE, routeId, Some("capability-b")).(parameters := BRIGHT)
  {
    PlugIsAllowed(request, home, config);
    assert Matches(request, request.candidates[1]);
  }

  lemma PlugIsAllowed(request: Request, home: Home, config: PolicyConfig)
    requires LampAndPlug(request, home) && home.profile.status == Monitor.Active
    requires config.confidence <= 1.0 && config.ambiguity >= 0.0 && PLUG.domain in config.domains - config.highRisk && "turn_on" in config.operations
    ensures FirstOffered(request.candidates, "capability-b") == Some(request.candidates[1])
    ensures Find(home.capabilities, Some("capability-b")) == Some(PLUG)
    ensures Evaluate(home, Some("capability-b"), 1.0, 0.0, request.confirmation, config).Allowed? && Accepts(Policy, PLUG.schema, map[])
  {
    FindsThePlug(request, home);
    AllowedMeans(home, "capability-b", 1.0, 0.0, request.confirmation, config);
  }

  lemma FindsThePlug(request: Request, home: Home)
    requires LampAndPlug(request, home)
    ensures FirstOffered(request.candidates, "capability-b") == Some(request.candidates[1])
    ensures Find(home.capabilities, Some("capability-b")) == Some(PLUG)
  {
    assert "capability-a"[11] != "capability-b"[11];
    assert request.candidates[1..] == [request.candidates[1]] && home.capabilities[1..] == [PLUG];
  }
}
