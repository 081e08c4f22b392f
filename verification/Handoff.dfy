/** The bounded handoff: provider answers are validated, and failures move on along the explicit failover chain. */
module Handoff {
  import opened Common
  import opened Parameters
  import opened Routes

  const LATENCY_LIMIT := 120_000
  const MAX_PROSE := 4_000

  /** A capability the provider was offered, with the parameter names of its schema. */
  datatype Fact = Fact(capabilityId: string, properties: set<string>)

  datatype HandoffRequest = HandoffRequest(
    id: string, routeId: string, complexity: Complexity, privacy: Privacy, kinds: seq<ResponseKind>, depth: int, facts: seq<Fact>)

  /** `parameters` is `None` when it is not an object of scalars. */
  datatype Proposal =
    | NotAnObject
    | Proposal(extraFields: bool, capabilityId: string, refsValid: bool, parameters: Option<Values>)

  /** A provider's object; absent fields are `None`, and an unknown response kind is `None` as well. */
  datatype Payload =
    | NoObject
    | Payload(handoffId: string, routeId: Option<string>, depth: Option<int>, rawToolCalls: bool, kind: Option<ResponseKind>,
              sensitive: bool, text: Option<string>, proposals: Option<seq<Proposal>>)

  datatype Response = Prose(text: string) | Tool(proposal: Proposal)

  function KindOf(r: Response): ResponseKind {
    if r.Prose? then ProseResponse else ToolProposal
  }

  function Offered(facts: seq<Fact>, id: string): (fact: Option<Fact>)
    ensures fact.Some? ==> fact.value in facts && fact.value.capabilityId == id
    ensures fact.None? ==> forall f :: f in facts ==> f.capabilityId != id
  {
    if facts == [] then None else if facts[0].capabilityId == id then Some(facts[0]) else Offered(facts[1..], id)
  }

  predicate Envelope(p: Payload, request: HandoffRequest, routeId: string) {
    && p.Payload?
    && p.handoffId == request.id
    && (p.routeId.Some? ==> p.routeId.value == routeId)
    && (p.depth.Some? ==> p.depth.value == 1)
    && !p.rawToolCalls
    && p.kind.Some? && p.kind.value in request.kinds
    && !p.sensitive
  }

  predicate ParametersFit(parameters: Values, fact: Option<Fact>) {
    && |parameters| <= MAX_PARAMETERS
    && (forall name :: name in parameters ==> 0 < |name| <= MAX_NAME)
    && (fact.Some? ==> parameters.Keys <= fact.value.properties)
  }

  predicate Acceptable(p: Proposal, request: HandoffRequest) {
    && p.Proposal? && !p.extraFields && p.capabilityId != "" && p.refsValid
    && p.parameters.Some? && ParametersFit(p.parameters.value, Offered(request.facts, p.capabilityId))
  }

  /** `validate_response`; `None` is the raised invalid-response error. */
  function ValidResponse(p: Payload, request: HandoffRequest, routeId: string): (r: Option<Response>)
    ensures r.Some? ==> KindOf(r.value) in request.kinds && p.Payload? && p.handoffId == request.id && !p.rawToolCalls
    ensures r.Some? && r.value.Tool? ==>
      var proposal := r.value.proposal;
      && proposal.Proposal? && proposal.capabilityId != "" && proposal.parameters.Some?
      && (Offered(request.facts, proposal.capabilityId).Some? ==>
            proposal.parameters.value.Keys <= Offered(request.facts, proposal.capabilityId).value.properties)
  {
    if !Envelope(p, request, routeId) then None
    else
      match p.kind.value
      case ProseResponse =>
        if p.text.Some? && !Blank(p.text.value) && |p.text.value| <= MAX_PROSE && p.proposals.None?
        then Some(Prose(p.text.value)) else None
      case ToolProposal =>
        if p.proposals.Some? && |p.proposals.value| == 1 && Acceptable(p.proposals.value[0], request)
        then Some(Tool(p.proposals.value[0])) else None
  }

  /** An answer is for this handoff and route, of an allowed kind, without raw calls and without sensitive data. */
  predicate Belongs(p: Payload, request: HandoffRequest, routeId: string) {
    && p.Payload? && p.handoffId == request.id
    && p.routeId in {None, Some(routeId)} && p.depth in {None, Some(1)}
    && !p.rawToolCalls && !p.sensitive
  }

  /** The first fact about a capability. */
  predicate FirstFact(facts: seq<Fact>, id: string, k: nat) {
    k < |facts| && facts[k].capabilityId == id && forall j :: 0 <= j < k ==> facts[j].capabilityId != id
  }

  /** One proposal for one named capability, whose parameters lie inside the schema it was offered with, if it was. */
  ghost predicate ProposesOne(p: Payload, request: HandoffRequest, proposal: Proposal) {
    && p.Payload? && p.proposals == Some([proposal])
    && proposal.Proposal? && !proposal.extraFields && proposal.capabilityId != "" && proposal.refsValid
    && proposal.parameters.Some? && |proposal.parameters.value| <= 8
    && (forall name :: name in proposal.parameters.value ==> 1 <= |name| <= 64)
    && forall k: nat :: FirstFact(request.facts, proposal.capabilityId, k) ==> proposal.parameters.value.Keys <= request.facts[k].properties
  }

  lemma {:induction false} OfferedIsTheFirst(facts: seq<Fact>, id: string, k: nat)
    requires FirstFact(facts, id, k)
    ensures Offered(facts, id) == Some(facts[k])
  {
    if k == 0 {
    } else {
      assert FirstFact(facts[1..], id, k - 1);
      OfferedIsTheFirst(facts[1..], id, k - 1);
    }
  }

  lemma {:induction false} FirstOfOffered(facts: seq<Fact>, id: string) returns (k: nat)
    requires Offered(facts, id).Some?
    ensures FirstFact(facts, id, k) && facts[k] == Offered(facts, id).value
  {
    if facts[0].capabilityId == id {
      k := 0;
    } else {
      k := FirstOfOffered(facts[1..], id);
      k := k + 1;
    }
  }

  /** Exactly which answers are accepted, and as what. */
  lemma ResponsesAreValidExactly(p: Payload, request: HandoffRequest, routeId: string, r: Response)
    ensures ValidResponse(p, request, routeId) == Some(r) <==>
      && Belongs(p, request, routeId)
      && match r
         case Prose(text) =>
           && p.kind == Some(ProseResponse) && ProseResponse in request.kinds
           && p.text == Some(text) && !Blank(text) && |text| <= 4_000 && p.proposals.None?
         case Tool(proposal) =>
           p.kind == Some(ToolProposal) && ToolProposal in request.kinds && ProposesOne(p, request, proposal)
  {
    if r.Tool? && r.proposal.Proposal? && r.proposal.parameters.Some? {
      SchemaIsTheFirst(request.facts, r.proposal.capabilityId, r.proposal.parameters.value.Keys);
    }
    if p.Payload? && p.proposals.Some? && |p.proposals.value| == 1 {
      assert p.proposals.value == [p.proposals.value[0]];
    }
  }

  lemma SchemaIsTheFirst(facts: seq<Fact>, id: string, keys: set<string>)
    ensures (Offered(facts, id).Some? ==> keys <= Offered(facts, id).value.properties) <==>
      forall k: nat :: FirstFact(facts, id, k) ==> keys <= facts[k].properties
  {
    if Offered(facts, id).Some? {
      var k := FirstOfOffered(facts, id);
    }
    forall k: nat | FirstFact(facts, id, k) ensures Offered(facts, id) == Some(facts[k]) {
      OfferedIsTheFirst(facts, id, k);
    }
  }

  /** What calling one route's adapter does. */
  datatype Attempt = Returned(payload: Payload) | Rejected | Unavailable | Crashed

  /** How the broker takes it; `Broken` is an error the broker does not catch. */
  datatype Verdict = Valid(response: Response) | Invalid | Down | Broken

  function Judge(attempt: Attempt, request: HandoffRequest, routeId: string): Verdict {
    match attempt
    case Returned(payload) =>
      var response := ValidResponse(payload, request, routeId);
      if response.Some? then Valid(response.value) else Invalid
    case Rejected => Invalid
    case Unavailable => Down
    case Crashed => Broken
  }

  predicate MovesOn(v: Verdict) {
    v.Invalid? || v.Down?
  }

  datatype Answer = Answered(routeId: string, response: Response) | InvalidAnswer | NoAnswer | Raised

  function NeedOf(request: HandoffRequest): Need {
    Need(request.complexity, request.privacy, request.kinds, LATENCY_LIMIT, Unlimited)
  }

  function ChainOf(routes: seq<ModelRoute>, request: HandoffRequest, circuits: map<string, Circuit>, clock: string -> real):
    seq<ModelRoute>
  {
    var route := Get(routes, request.routeId);
    if request.depth == 1 && route.Some? then Chain(routes, route.value, NeedOf(request), circuits, clock) else []
  }

  /** The number of attempts before the one that ends the dispatch. */
  ghost predicate StopsAt(chain: seq<ModelRoute>, request: HandoffRequest, adapter: string -> Attempt, k: nat) {
    && k <= |chain|
    && (forall i :: 0 <= i < k ==> MovesOn(Judge(adapter(chain[i].id), request, chain[i].id)))
    && (k < |chain| ==> !MovesOn(Judge(adapter(chain[k].id), request, chain[k].id)))
  }

  ghost function FailureEntries(chain: seq<ModelRoute>, failedAt: string -> real, k: nat): seq<Entry>
    requires k <= |chain|
  {
    seq(k, i requires 0 <= i < k => Entry(chain[i].id, Failure(failedAt(chain[i].id))))
  }

  /** What a dispatch that stops at `k` adds to the registry's log. */
  ghost function NewEntries(chain: seq<ModelRoute>, request: HandoffRequest, adapter: string -> Attempt, failedAt: string -> real,
                            k: nat): seq<Entry>
    requires k <= |chain|
  {
    FailureEntries(chain, failedAt, k) +
    (if k < |chain| && Judge(adapter(chain[k].id), request, chain[k].id).Valid? then [Entry(chain[k].id, Success)] else [])
  }

  ghost function AnswerAt(chain: seq<ModelRoute>, request: HandoffRequest, adapter: string -> Attempt, k: nat): Answer
    requires StopsAt(chain, request, adapter, k)
  {
    if k < |chain| then
      match Judge(adapter(chain[k].id), request, chain[k].id)
      case Valid(response) => Answered(chain[k].id, response)
      case _ => Raised
    else if k > 0 && Judge(adapter(chain[k - 1].id), request, chain[k - 1].id).Invalid? then InvalidAnswer
    else NoAnswer
  }

  class HandoffBroker {
    const registry: RouteRegistry

    constructor (registry: RouteRegistry)
      ensures this.registry == registry
    {
      this.registry := registry;
    }

    /** Each route of the chain is called at most once, so one function gives what every call does and when it failed. */
    method Dispatch(request: HandoffRequest, adapter: string -> Attempt, clock: string -> real, failedAt: string -> real)
      returns (answer: Answer, ghost k: nat)
      requires registry.Valid()
      modifies registry
      ensures registry.Valid()
      ensures var chain := ChainOf(registry.routes, request, old(registry.circuits), clock);
        && StopsAt(chain, request, adapter, k)
        && answer == AnswerAt(chain, request, adapter, k)
        && registry.log == old(registry.log) + NewEntries(chain, request, adapter, failedAt, k)
    {
      var route := Get(registry.routes, request.routeId);
      if request.depth != 1 || route.None? {
        return NoAnswer, 0;
      }
      ghost var before := registry.circuits;
      var chain := registry.OrderedRoutes(route.value, NeedOf(request), clock);
      ghost var at := ChainIsTheFirstEight(registry.routes, route.value, NeedOf(request), before, clock);
      answer, k := TryEach(chain, request, adapter, failedAt);
    }

    /** One call and the record it leaves; an error the broker does not catch leaves none. */
    method TryOne(routeId: string, request: HandoffRequest, adapter: string -> Attempt, failedAt: string -> real)
      returns (verdict: Verdict)
      requires registry.Valid()
      modifies registry
      ensures registry.Valid()
      ensures verdict == Judge(adapter(routeId), request, routeId)
      ensures registry.log == old(registry.log) +
                              (match verdict
                               case Valid(_) => [Entry(routeId, Success)]
                               case Broken => []
                               case _ => [Entry(routeId, Failure(failedAt(routeId)))])
    {
      verdict := Judge(adapter(routeId), request, routeId);
      if verdict.Valid? {
        registry.Note(routeId, Success);
      } else if MovesOn(verdict) {
        registry.Note(routeId, Failure(failedAt(routeId)));
      }
    }

    /** The attempts, in order. */
    method TryEach(chain: seq<ModelRoute>, request: HandoffRequest, adapter: string -> Attempt, failedAt: string -> real)
      returns (answer: Answer, ghost k: nat)
      requires registry.Valid() && DistinctIds(chain)
      modifies registry
      ensures registry.Valid()
      ensures StopsAt(chain, request, adapter, k)
      ensures answer == AnswerAt(chain, request, adapter, k)
      ensures registry.log == old(registry.log) + NewEntries(chain, request, adapter, failedAt, k)
    {
      k := 0;
      answer := NoAnswer;
      var i := 0;
      while i < |chain|
        invariant registry.Valid() && k == i <= |chain|
        invariant forall j :: 0 <= j < i ==> MovesOn(Judge(adapter(chain[j].id), request, chain[j].id))
        invariant answer == if i > 0 && Judge(adapter(chain[i - 1].id), request, chain[i - 1].id).Invalid? then InvalidAnswer else NoAnswer
        invariant registry.log == old(registry.log) + FailureEntries(chain, failedAt, i)
      {
        assert FailureEntries(chain, failedAt, i + 1) ==
               FailureEntries(chain, failedAt, i) + [Entry(chain[i].id, Failure(failedAt(chain[i].id)))];
        var verdict := TryOne(chain[i].id, request, adapter, failedAt);
        if verdict.Valid? {
          return Answered(chain[i].id, verdict.response), i;
        } else if verdict.Broken? {
          return Raised, i;
        }
        answer := if verdict.Invalid? then InvalidAnswer else NoAnswer;
        i := i + 1;
        k := i;
      }
    }
  }

  lemma {:induction false} OneRecordEach(chain: seq<ModelRoute>, failedAt: string -> real, k: nat, id: string)
    requires DistinctIds(chain) && k <= |chain|
    ensures HistoryOf(FailureEntries(chain, failedAt, k), id) == if id in Ids(chain[..k]) then [Failure(failedAt(id))] else []
    decreases k
  {
    if k == 0 {
    } else {
      OneRecordEach(chain, failedAt, k - 1, id);
      var entries := FailureEntries(chain, failedAt, k);
      assert entries[..k - 1] == FailureEntries(chain, failedAt, k - 1);
      IdsBefore(chain, k - 1);
    }
  }

  lemma IdsBefore(chain: seq<ModelRoute>, i: nat)
    requires DistinctIds(chain) && i < |chain|
    ensures chain[i].id !in Ids(chain[..i])
    ensures Ids(chain[..i + 1]) == Ids(chain[..i]) + {chain[i].id}
  {
    assert chain[..i + 1] == chain[..i] + [chain[i]];
    IdsGrow(chain[..i], chain[i]);
  }

  lemma RecordsAlongTheChain(chain: seq<ModelRoute>, request: HandoffRequest, adapter: string -> Attempt, failedAt: string -> real,
                             k: nat, id: string)
    requires DistinctIds(chain) && k <= |chain|
    ensures HistoryOf(NewEntries(chain, request, adapter, failedAt, k), id) ==
      if id in Ids(chain[..k]) then [Failure(failedAt(id))]
      else if k < |chain| && id == chain[k].id && Judge(adapter(id), request, id).Valid? then [Success]
      else []
  {
    OneRecordEach(chain, failedAt, k, id);
    var entries, failures := NewEntries(chain, request, adapter, failedAt, k), FailureEntries(chain, failedAt, k);
    if entries != failures {
      assert entries[..|entries| - 1] == failures;
      IdsBefore(chain, k);
    }
  }

  /** A route may be asked: ready, for this privacy and complexity, with an answer of an allowed kind, a closed circuit and sane figures. */
  ghost predicate MayBeAsked(r: ModelRoute, request: HandoffRequest, circuits: map<string, Circuit>, now: real) {
    && request.privacy in r.privacyModes && Covers(r.ceiling, request.complexity)
    && r.availability in {"ready", "degraded"} && (exists kind :: kind in request.kinds && kind in r.responseKinds)
    && (r.id in circuits ==> circuits[r.id].openedUntil <= now)
    && 0 <= r.latency <= 120_000 && 0.0 <= r.cost
  }

  /** Every route of a chain fits the request, and its circuit was closed when the chain was built. */
  lemma ChainFitsRequest(routes: seq<ModelRoute>, request: HandoffRequest, circuits: map<string, Circuit>, clock: string -> real)
    ensures var chain := ChainOf(routes, request, circuits, clock);
      && DistinctIds(chain) && |chain| <= 8
      && forall r :: r in chain ==> MayBeAsked(r, request, circuits, clock(r.id))
  {
    var route := Get(routes, request.routeId);
    if request.depth == 1 && route.Some? {
      var at := ChainIsTheFirstEight(routes, route.value, NeedOf(request), circuits, clock);
      forall r | r in ChainOf(routes, request, circuits, clock) ensures Suits(r, NeedOf(request), circuits, clock) {
        EligibleMeans(r, NeedOf(request), circuits, clock);
      }
    }
  }

  /**
   A dispatch answers from the first route of the chain whose payload validates.  Every route it called supports the
   request's privacy mode and complexity and had a closed circuit when the chain was built; those before the winner got
   exactly one failure record, the winner one success, and no other route any record.
   */
  lemma DispatchFollowsTheChain(routes: seq<ModelRoute>, request: HandoffRequest, circuits: map<string, Circuit>,
                                clock: string -> real, adapter: string -> Attempt, failedAt: string -> real, k: nat)
    requires StopsAt(ChainOf(routes, request, circuits, clock), request, adapter, k)
    ensures var chain := ChainOf(routes, request, circuits, clock);
      && (AnswerAt(chain, request, adapter, k).Answered? <==>
            k < |chain| && Judge(adapter(chain[k].id), request, chain[k].id).Valid?)
      && (AnswerAt(chain, request, adapter, k).Answered? ==> AnswerAt(chain, request, adapter, k).routeId == chain[k].id)
      && (forall i :: 0 <= i < |chain| && i <= k ==>
            && (i < k ==> !Judge(adapter(chain[i].id), request, chain[i].id).Valid?)
            && MayBeAsked(chain[i], request, circuits, clock(chain[i].id)))
      && forall id: string :: HistoryOf(NewEntries(chain, request, adapter, failedAt, k), id) ==
           (if id in Ids(chain[..k]) then [Failure(failedAt(id))]
            else if AnswerAt(chain, request, adapter, k).Answered? && id == chain[k].id then [Success]
            else [])
  {
    ChainFitsRequest(routes, request, circuits, clock);
    var chain := ChainOf(routes, request, circuits, clock);
    forall id: string {
      RecordsAlongTheChain(chain, request, adapter, failedAt, k, id);
    }
  }
}
