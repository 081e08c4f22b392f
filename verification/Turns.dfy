/**
 Conversation turns.  A turn begins by looking at what is pending for its conversation, may call the gateway, and through it
 the execution boundary, and ends by storing a continuation.  Turns may overlap: a turn is split where it waits for the
 gateway.
 */
module Turns {
  import opened Common
  import opened Context

  const MAX_OFFERS := 64
  const MAX_TEXT := 2_000

  const AFFIRMATIVE: set<string> := {"yes", "y", "yeah", "yep", "yes please", "confirm", "do it", "okay", "ok", "sure"}
  const NEGATIVE: set<string> := {"no", "n", "nope", "cancel", "cancel that", "never mind", "never mind that"}
  const CONTINUATIONS: set<string> :=
    {"confirmation_required", "clarification_required", "confidence_too_low", "ambiguous_request", "parameter_required"}

  /** `name` is the normalised display name. */
  datatype Offer = Offer(id: string, name: string)

  datatype StateValue = Flag(on: bool) | Words(text: string) | Reading

  datatype ConversationRequest = ConversationRequest(
    text: string, conversation: string, revision: string, offers: seq<Offer>, state: map<string, StateValue>, requestId: string)

  /** A stored request, with the index of the step that stored it. */
  datatype Stored = Stored(request: ConversationRequest, step: nat)

  type Entry = Pending<Stored>

  /** What a user said; the normalisers are functions of the text, and `number` is the number a reply is. */
  datatype Input = Input(text: string, reply: string, choice: string, number: Option<nat>, conversation: string, user: Option<string>, newId: string)

  datatype Reply = Yes | No | Unclear

  function ReplyOf(input: Input): Reply {
    if input.reply in AFFIRMATIVE then Yes else if input.reply in NEGATIVE then No else Unclear
  }

  function Plain(input: Input): ConversationRequest {
    ConversationRequest(input.text, input.conversation, "", [], map[], input.newId)
  }

  function OffersNamed(offers: seq<Offer>, name: string): seq<Offer> {
    if offers == [] then [] else (if offers[0].name == name then [offers[0]] else []) + OffersNamed(offers[1..], name)
  }

  /** The candidates a clarification reply selects: the numbered one, or those with that very name. */
  function Selected(offers: seq<Offer>, input: Input): seq<Offer> {
    if input.number.Some? && 1 <= input.number.value <= |offers| then [offers[input.number.value - 1]]
    else OffersNamed(offers, input.choice)
  }

  /** How a turn goes on: with a request for the gateway, or with a result of its own. */
  datatype Opening = Opening(consumes: bool, request: ConversationRequest, result: Option<string>)

  function Open(pending: Option<Entry>, input: Input): Opening {
    if pending.None? then Opening(false, Plain(input), None)
    else
      var original := pending.value.request.request.(conversation := input.conversation);
      match pending.value.kind
      case Confirmation =>
        (match ReplyOf(input)
         case No => Opening(true, Plain(input), Some("confirmation_cancelled"))
         case Yes => Opening(true, original.(state := original.state["confirmation" := Flag(true)]), None)
         case Unclear => Opening(false, Plain(input), Some("confirmation_required")))
      case Clarification =>
        var selected := Selected(original.offers, input);
        if |selected| == 1 then Opening(true, original.(offers := selected), None)
        else Opening(false, Plain(input), Some("clarification_required"))
      case Parameter => Opening(true, original.(state := original.state["follow_up_value" := Words(input.reply)]), None)
  }

  /** What settles a pending item: a plain yes or no to a confirmation, a reply that selects one candidate, any value. */
  predicate Settles(e: Entry, input: Input) {
    match e.kind
    case Confirmation =>
      || input.reply in {"yes", "y", "yeah", "yep", "yes please", "confirm", "do it", "okay", "ok", "sure"}
      || input.reply in {"no", "n", "nope", "cancel", "cancel that", "never mind", "never mind that"}
    case Clarification => |Selected(e.request.request.offers, input)| == 1
    case Parameter => true
  }

  /** How a turn opens, for every item and reply. */
  lemma OpeningsAre(pending: Option<Entry>, input: Input)
    ensures pending.None? ==> Open(pending, input) == Opening(false, Plain(input), None)
    ensures Open(pending, input).consumes <==> pending.Some? && Settles(pending.value, input)
    ensures pending.Some? && !Settles(pending.value, input) ==>
      && Open(pending, input).request == Plain(input)
      && Open(pending, input).result ==
           Some(if pending.value.kind == Confirmation then "confirmation_required" else "clarification_required")
    ensures pending.Some? && Settles(pending.value, input) ==>
      if pending.value.kind == Confirmation && input.reply in {"no", "n", "nope", "cancel", "cancel that", "never mind", "never mind that"} then
        Open(pending, input) == Opening(true, Plain(input), Some("confirmation_cancelled"))
      else
        var original, turned := pending.value.request.request, Open(pending, input);
        && turned.result.None?
        && turned.request.text == original.text && turned.request.requestId == original.requestId
        && turned.request.revision == original.revision && turned.request.conversation == input.conversation
        && (pending.value.kind == Confirmation ==> turned.request.offers == original.offers && turned.request.state == original.state["confirmation" := Flag(true)])
        && (pending.value.kind == Clarification ==> turned.request.offers == Selected(original.offers, input) && turned.request.state == original.state)
        && (pending.value.kind == Parameter ==> turned.request.offers == original.offers && turned.request.state == original.state["follow_up_value" := Words(input.reply)])
  {
    if pending.Some? && pending.value.kind == Confirmation {
      RepliesAre(input);
    }
  }

  lemma RepliesAre(input: Input)
    ensures ReplyOf(input) == Yes <==> input.reply in {"yes", "y", "yeah", "yep", "yes please", "confirm", "do it", "okay", "ok", "sure"}
    ensures ReplyOf(input) == No <==> input.reply in {"no", "n", "nope", "cancel", "cancel that", "never mind", "never mind that"}
  {
    if input.reply in NEGATIVE {
      assert AFFIRMATIVE !! NEGATIVE by {
        YesIsNotNo();
      }
    }
  }

  /** The two lists have no text in common. */
  lemma YesIsNotNo()
    ensures AFFIRMATIVE !! NEGATIVE
  {
    forall text | text in NEGATIVE ensures text !in AFFIRMATIVE {
      assert text[0] == 'n' || text[0] == 'c';
      assert forall yes :: yes in AFFIRMATIVE && yes[0] == 'c' ==> yes == "confirm";
    }
  }

  lemma {:induction false} NamedOffers(offers: seq<Offer>, name: string, offer: Offer)
    ensures offer in OffersNamed(offers, name) <==> offer in offers && offer.name == name
  {
    if offers == [] {
    } else {
      NamedOffers(offers[1..], name, offer);
      assert offer in offers <==> offer == offers[0] || offer in offers[1..];
    }
  }

  /** A number selects the candidate of that place; any other reply those with exactly that name. */
  lemma SelectedAre(offers: seq<Offer>, input: Input)
    ensures input.number.Some? && 1 <= input.number.value <= |offers| ==> Selected(offers, input) == [offers[input.number.value - 1]]
    ensures !(input.number.Some? && 1 <= input.number.value <= |offers|) ==>
      forall offer :: offer in Selected(offers, input) <==> offer in offers && offer.name == input.choice
  {
    forall offer ensures offer in OffersNamed(offers, input.choice) <==> offer in offers && offer.name == input.choice {
      NamedOffers(offers, input.choice, offer);
    }
  }

  /** What the coordinator adds to a request that has none of it; states are keyed by opaque capability ids. */
  datatype ProfileContext = ProfileContext(revision: string, offers: seq<Offer>, digests: set<string>)

  function StateOf(digests: set<string>): map<string, StateValue> {
    var keys := set d | d in digests :: "capability-" + d;
    map key | key in keys :: Reading
  }

  function Filled(request: ConversationRequest, context: ProfileContext): ConversationRequest {
    request.(revision := if request.revision == "" then context.revision else request.revision,
             offers := if request.offers == [] then context.offers else request.offers,
             state := if request.state == map[] then StateOf(context.digests) else request.state)
  }

  /** The `confirmed` flag the execution boundary gets. */
  predicate Confirmed(request: ConversationRequest) {
    "confirmation" in request.state && request.state["confirmation"] != Flag(false) && request.state["confirmation"] != Words("")
  }

  function Kept(offers: seq<Offer>): seq<Offer> {
    if offers == [] then [] else (if offers[0].id != "" then [offers[0]] else []) + Kept(offers[1..])
  }

  /** What is stored of a request: its identity and candidates, never its state. */
  function Compact(request: ConversationRequest): ConversationRequest {
    request.(offers := Kept(if |request.offers| <= MAX_OFFERS then request.offers else request.offers[..MAX_OFFERS]), state := map[])
  }

  /** The store refuses texts over its bound; the turn then fails with the raised error. */
  predicate Fits(request: ConversationRequest) {
    |request.text| <= MAX_TEXT && |request.revision| <= MAX_TEXT && |request.requestId| <= MAX_TEXT && |request.conversation| <= MAX_TEXT
  }

  function KindFor(response: string): Kind {
    if response == "confirmation_required" then Confirmation
    else if response == "parameter_required" then Parameter
    else Clarification
  }

  lemma {:induction false} KeptOffers(offers: seq<Offer>, offer: Offer)
    ensures offer in Kept(offers) <==> offer in offers && offer.id != ""
  {
    if offers == [] {
    } else {
      KeptOffers(offers[1..], offer);
      assert offer in offers <==> offer == offers[0] || offer in offers[1..];
    }
  }

  /** What a stored request keeps of the one it was made of. */
  lemma CompactKeeps(request: ConversationRequest)
    ensures var stored := Compact(request);
      && stored.text == request.text && stored.conversation == request.conversation && stored.revision == request.revision
      && stored.requestId == request.requestId && stored.state == map[]
      && forall offer :: offer in stored.offers <==> offer.id != "" && exists k :: 0 <= k < |request.offers| && k < 64 && request.offers[k] == offer
  {
    var first := if |request.offers| <= 64 then request.offers else request.offers[..64];
    forall offer ensures offer in Kept(first) <==> offer in first && offer.id != "" {
      KeptOffers(first, offer);
    }
    assert forall k :: 0 <= k < |first| ==> first[k] == request.offers[k];
  }

  /** What is sent: the request's own revision, candidates and state, and the coordinator's only where it has none. */
  lemma FilledKeeps(request: ConversationRequest, context: ProfileContext)
    ensures var sent := Filled(request, context);
      && sent.text == request.text && sent.conversation == request.conversation && sent.requestId == request.requestId
      && (request.revision != "" ==> sent.revision == request.revision) && (request.revision == "" ==> sent.revision == context.revision)
      && (request.offers != [] ==> sent.offers == request.offers) && (request.offers == [] ==> sent.offers == context.offers)
      && (request.state != map[] ==> sent.state == request.state)
      && (request.state == map[] ==> forall key :: key in sent.state ==> exists digest :: digest in context.digests && key == "capability-" + digest)
  {
  }

  /** Which answers leave a question, of which kind, and when the store takes it. */
  lemma QuestionsAre(request: ConversationRequest, response: string)
    ensures response in CONTINUATIONS <==>
      response in {"confirmation_required", "clarification_required", "confidence_too_low", "ambiguous_request", "parameter_required"}
    ensures KindFor("confirmation_required") == Confirmation && KindFor("parameter_required") == Parameter
    ensures response !in {"confirmation_required", "parameter_required"} ==> KindFor(response) == Clarification
    ensures Fits(request) <==>
      |request.text| <= 2_000 && |request.revision| <= 2_000 && |request.requestId| <= 2_000 && |request.conversation| <= 2_000
  {
    assert "confirmation_required"[0] == 'c' && "parameter_required"[0] == 'p';
  }

  // ---------------------------------------------------------------------------------------------------------
  // Overlapping turns
  // ---------------------------------------------------------------------------------------------------------

  /** A turn is named by the index of the step that began it. */
  datatype Step =
    | Begin(input: Input, now: real)
    | Call(turn: nat, context: ProfileContext)            // the gateway is asked; a write it orders gets the flag now
    | Finish(turn: nat, response: string, now: real)

  datatype Turn = Turn(input: Input, request: ConversationRequest, result: Option<string>, called: bool)

  datatype World = World(pending: seq<Entry>, turns: map<nat, Turn>, clock: real, count: nat)

  datatype Bounds = Bounds(ttl: real, maxEntries: nat)

  function SeenIn(pending: seq<Entry>, input: Input, now: real): Option<Entry> {
    var held := Find(Purged(pending, now), input.conversation);
    if held.Some? && held.value.user == input.user then held else None
  }

  function Seen(w: World, input: Input, now: real): Option<Entry> {
    SeenIn(w.pending, input, now)
  }

  /** The store after a turn began. */
  function Taken(pending: seq<Entry>, input: Input, now: real): seq<Entry> {
    var live := Purged(pending, now);
    if Open(SeenIn(pending, input, now), input).consumes then Without(live, input.conversation) else live
  }

  predicate Enabled(w: World, step: Step) {
    match step
    case Begin(input, now) => now >= w.clock && input.conversation != ""
    case Call(turn, _) => turn in w.turns && w.turns[turn].result.None? && !w.turns[turn].called
    case Finish(turn, response, now) =>
      && turn in w.turns && now >= w.clock
      && (w.turns[turn].result.Some? ==> response == w.turns[turn].result.value)
  }

  function Begun(w: World, input: Input, now: real): World {
    var opening := Open(Seen(w, input, now), input);
    World(Taken(w.pending, input, now),
          w.turns[w.count := Turn(input, opening.request, opening.result, false)], now, w.count + 1)
  }

  function Called(w: World, turn: nat, context: ProfileContext): World
    requires turn in w.turns
  {
    w.(turns := w.turns[turn := w.turns[turn].(request := Filled(w.turns[turn].request, context), called := true)], count := w.count + 1)
  }

  function ItemOf(t: Turn, response: string, now: real, bounds: Bounds, step: nat): Entry {
    Pending.Pending(t.request.conversation, t.input.user, KindFor(response), Stored(Compact(t.request), step), now, now + bounds.ttl)
  }

  /** The store after a turn ended. */
  function Left(pending: seq<Entry>, t: Turn, response: string, now: real, bounds: Bounds, step: nat): seq<Entry> {
    if response in CONTINUATIONS && Fits(t.request) then
      var live, item := Purged(pending, now), ItemOf(t, response, now, bounds, step);
      With(Room(live, item.conversation, bounds.maxEntries), item)
    else pending
  }

  function Finished(w: World, turn: nat, response: string, now: real, bounds: Bounds): World
    requires turn in w.turns
  {
    World(Left(w.pending, w.turns[turn], response, now, bounds, w.count), w.turns - {turn}, now, w.count + 1)
  }

  function Next(w: World, step: Step, bounds: Bounds): World
    requires Enabled(w, step)
  {
    match step
    case Begin(input, now) => Begun(w, input, now)
    case Call(turn, context) => Called(w, turn, context)
    case Finish(turn, response, now) => Finished(w, turn, response, now, bounds)
  }

  /** A run: its steps, and the world before each of them and after the last. */
  ghost predicate Run(steps: seq<Step>, bounds: Bounds, ws: seq<World>) {
    && |ws| == |steps| + 1 && ws[0] == World([], map[], 0.0, 0)
    && forall n :: 0 <= n < |steps| ==> Follows(steps, bounds, ws, n)
  }

  predicate Follows(steps: seq<Step>, bounds: Bounds, ws: seq<World>, n: nat)
    requires |ws| == |steps| + 1 && n < |steps|
  {
    Enabled(ws[n], steps[n]) && ws[n + 1] == Next(ws[n], steps[n], bounds)
  }

  lemma RunStep(steps: seq<Step>, bounds: Bounds, ws: seq<World>, n: nat)
    requires Run(steps, bounds, ws) && n < |steps|
    ensures Enabled(ws[n], steps[n]) && ws[n + 1] == Next(ws[n], steps[n], bounds)
  {
    assert Follows(steps, bounds, ws, n);
  }

  lemma {:induction false} CountsSteps(steps: seq<Step>, bounds: Bounds, ws: seq<World>, n: nat)
    requires Run(steps, bounds, ws) && n <= |steps|
    ensures ws[n].count == n
    decreases n
  {
    if n == 0 {
    } else {
      CountsSteps(steps, bounds, ws, n - 1);
      RunStep(steps, bounds, ws, n - 1);
      NextCounts(ws[n - 1], steps[n - 1], bounds);
    }
  }

  lemma NextCounts(w: World, step: Step, bounds: Bounds)
    requires Enabled(w, step)
    ensures Next(w, step, bounds).count == w.count + 1
  {
  }

  // ---------------------------------------------------------------------------------------------------------
  // Where a confirmation comes from
  // ---------------------------------------------------------------------------------------------------------

  /** The entry that the turn begun at step `b` looked at. */
  function SeenAt(steps: seq<Step>, ws: seq<World>, b: nat): Option<Entry>
    requires b < |steps| < |ws|
  {
    if steps[b].Begin? then Seen(ws[b], steps[b].input, steps[b].now) else None
  }

  /** Step `b` began a turn with a yes to an unexpired confirmation of its own conversation and user, and consumed it. */
  predicate Accepts(steps: seq<Step>, ws: seq<World>, b: nat)
    requires |steps| < |ws|
  {
    && b < |steps| && steps[b].Begin? && ReplyOf(steps[b].input) == Yes
    && SeenAt(steps, ws, b).Some?
    && var e := SeenAt(steps, ws, b).value;
       && e.kind == Confirmation && e.conversation == steps[b].input.conversation && e.user == steps[b].input.user
       && steps[b].now < e.expiresAt
  }

  /** Step `f` ended a turn of this conversation and user with a question of this kind, and stored this entry. */
  predicate Asked(steps: seq<Step>, bounds: Bounds, ws: seq<World>, f: nat, e: Entry)
    requires |steps| < |ws|
  {
    && f < |steps| && steps[f].Finish? && steps[f].turn in ws[f].turns
    && e == ItemOf(ws[f].turns[steps[f].turn], steps[f].response, steps[f].now, bounds, f)
  }

  lemma StateIsNotAConfirmation(digests: set<string>)
    ensures "confirmation" !in StateOf(digests)
  {
    forall d: string ensures "capability-" + d != "confirmation" {
      assert ("capability-" + d)[1] == 'a' && "confirmation"[1] == 'o';
    }
  }

  /** Entries are stored without state, each by the step it names. */
  ghost predicate EntriesHold(steps: seq<Step>, bounds: Bounds, ws: seq<World>, n: nat, pending: seq<Entry>)
    requires |steps| < |ws|
  {
    forall k :: 0 <= k < |pending| ==> EntryHolds(steps, bounds, ws, n, pending[k])
  }

  predicate EntryHolds(steps: seq<Step>, bounds: Bounds, ws: seq<World>, n: nat, e: Entry)
    requires |steps| < |ws|
  {
    e.request.request.state == map[] && e.request.step < n && Asked(steps, bounds, ws, e.request.step, e)
  }

  /** A turn in flight carries the flag only if it began by accepting a confirmation. */
  predicate TurnHolds(steps: seq<Step>, ws: seq<World>, n: nat, b: nat, t: Turn)
    requires |steps| < |ws|
  {
    && b < n <= |steps| && steps[b].Begin? && t.input == steps[b].input
    && t.request.conversation == steps[b].input.conversation
    && (Confirmed(t.request) ==> Accepts(steps, ws, b))
  }

  ghost predicate TurnsHold(steps: seq<Step>, ws: seq<World>, n: nat, turns: map<nat, Turn>)
    requires |steps| < |ws|
  {
    forall b :: b in turns ==> TurnHolds(steps, ws, n, b, turns[b])
  }

  lemma WithoutComesFrom(live: seq<Entry>, removed: string)
    ensures forall k :: 0 <= k < |Without(live, removed)| ==> Without(live, removed)[k] in live
  {
    var p, after := Position(live, removed), Without(live, removed);
    forall k | 0 <= k < |after| ensures after[k] in live {
      if p < |live| {
        assert after[k] == live[if k < p then k else k + 1];
      }
    }
  }

  lemma PurgedComesFrom(s: seq<Entry>, now: real, removed: string)
    ensures forall k :: 0 <= k < |Without(Purged(s, now), removed)| ==> Without(Purged(s, now), removed)[k] in s
    ensures forall k :: 0 <= k < |Purged(s, now)| ==> Purged(s, now)[k] in s
  {
    var live := Purged(s, now);
    WithoutComesFrom(live, removed);
    forall k | 0 <= k < |Without(live, removed)| ensures Without(live, removed)[k] in s {
      var j :| 0 <= j < |live| && live[j] == Without(live, removed)[k];
    }
  }

  /** Only a yes to a confirmation sets the flag. */
  lemma OpeningIsAuthorised(seen: Option<Entry>, input: Input)
    requires seen.Some? ==> seen.value.request.request.state == map[]
    ensures Open(seen, input).request.conversation == input.conversation
    ensures Confirmed(Open(seen, input).request) <==> seen.Some? && seen.value.kind == Confirmation && ReplyOf(input) == Yes
    ensures Confirmed(Open(seen, input).request) ==> Open(seen, input).consumes
  {
    if seen.Some? && seen.value.kind == Clarification {
      assert Open(seen, input).request.state == map[];
    }
  }

  lemma SeenIsPending(w: World, input: Input, now: real)
    ensures var seen := Seen(w, input, now);
      seen.Some? ==>
        && seen.value in w.pending && seen.value.conversation == input.conversation && seen.value.user == input.user
        && now < seen.value.expiresAt
  {
  }

  lemma BeginStep(steps: seq<Step>, bounds: Bounds, ws: seq<World>, n: nat)
    requires Run(steps, bounds, ws) && n < |steps| && steps[n].Begin? && ws[n].count == n
    requires EntriesHold(steps, bounds, ws, n, ws[n].pending) && TurnsHold(steps, ws, n, ws[n].turns)
    ensures EntriesHold(steps, bounds, ws, n + 1, ws[n + 1].pending) && TurnsHold(steps, ws, n + 1, ws[n + 1].turns)
  {
    RunStep(steps, bounds, ws, n);
    var w, input, now := ws[n], steps[n].input, steps[n].now;
    var seen := Seen(w, input, now);
    PurgedComesFrom(w.pending, now, input.conversation);
    EntriesStay(steps, bounds, ws, n, w.pending, Taken(w.pending, input, now));
    SeenIsPending(w, input, now);
    if seen.Some? {
      var k :| 0 <= k < |w.pending| && w.pending[k] == seen.value;
      assert EntryHolds(steps, bounds, ws, n, w.pending[k]);
    }
    OpeningIsAuthorised(seen, input);
    var t := Turn(input, Open(seen, input).request, Open(seen, input).result, false);
    assert TurnHolds(steps, ws, n + 1, n, t);
    TurnsStay(steps, ws, n, w.turns);
  }

  lemma EntriesStay(steps: seq<Step>, bounds: Bounds, ws: seq<World>, n: nat, pending: seq<Entry>, after: seq<Entry>)
    requires |steps| < |ws| && EntriesHold(steps, bounds, ws, n, pending) && forall k :: 0 <= k < |after| ==> after[k] in pending
    ensures EntriesHold(steps, bounds, ws, n + 1, after)
  {
    forall k | 0 <= k < |after| ensures EntryHolds(steps, bounds, ws, n + 1, after[k]) {
      var j :| 0 <= j < |pending| && pending[j] == after[k];
      assert EntryHolds(steps, bounds, ws, n, pending[j]);
    }
  }

  lemma TurnsStay(steps: seq<Step>, ws: seq<World>, n: nat, turns: map<nat, Turn>)
    requires |steps| < |ws| && n < |steps| && TurnsHold(steps, ws, n, turns)
    ensures TurnsHold(steps, ws, n + 1, turns)
  {
    forall b | b in turns ensures TurnHolds(steps, ws, n + 1, b, turns[b]) {
      assert TurnHolds(steps, ws, n, b, turns[b]);
    }
  }

  lemma CallStep(steps: seq<Step>, bounds: Bounds, ws: seq<World>, n: nat)
    requires Run(steps, bounds, ws) && n < |steps| && steps[n].Call?
    requires EntriesHold(steps, bounds, ws, n, ws[n].pending) && TurnsHold(steps, ws, n, ws[n].turns)
    ensures EntriesHold(steps, bounds, ws, n + 1, ws[n + 1].pending) && TurnsHold(steps, ws, n + 1, ws[n + 1].turns)
  {
    RunStep(steps, bounds, ws, n);
    var turn, context := steps[n].turn, steps[n].context;
    EntriesStay(steps, bounds, ws, n, ws[n].pending, ws[n].pending);
    TurnsStay(steps, ws, n, ws[n].turns);
    StateIsNotAConfirmation(context.digests);
    assert TurnHolds(steps, ws, n + 1, turn, ws[n].turns[turn]);
    assert TurnHolds(steps, ws, n + 1, turn, ws[n + 1].turns[turn]);
  }

  lemma RoomComesFrom(live: seq<Entry>, conversation: string, bounds: Bounds, item: Entry)
    ensures forall k :: 0 <= k < |With(Room(live, conversation, bounds.maxEntries), item)| ==>
      With(Room(live, conversation, bounds.maxEntries), item)[k] in live || With(Room(live, conversation, bounds.maxEntries), item)[k] == item
  {
    var room := Room(live, conversation, bounds.maxEntries);
    forall k | 0 <= k < |room| ensures room[k] in live {
      if room != live {
        var p := Position(live, live[Oldest(live)].conversation);
        assert room[k] == live[if k < p then k else k + 1];
      }
    }
  }

  lemma FinishStep(steps: seq<Step>, bounds: Bounds, ws: seq<World>, n: nat)
    requires Run(steps, bounds, ws) && n < |steps| && steps[n].Finish? && ws[n].count == n
    requires EntriesHold(steps, bounds, ws, n, ws[n].pending) && TurnsHold(steps, ws, n, ws[n].turns)
    ensures EntriesHold(steps, bounds, ws, n + 1, ws[n + 1].pending) && TurnsHold(steps, ws, n + 1, ws[n + 1].turns)
  {
    RunStep(steps, bounds, ws, n);
    var w, response, now := ws[n], steps[n].response, steps[n].now;
    var t := w.turns[steps[n].turn];
    TurnsStay(steps, ws, n, w.turns);
    assert TurnsHold(steps, ws, n + 1, ws[n + 1].turns);
    if response in CONTINUATIONS && Fits(t.request) {
      var live, item := Purged(w.pending, now), ItemOf(t, response, now, bounds, n);
      PurgedComesFrom(w.pending, now, "");
      EntriesStay(steps, bounds, ws, n, w.pending, live);
      assert EntryHolds(steps, bounds, ws, n + 1, item);
      LeftHolds(steps, bounds, ws, n + 1, live, item);
    } else {
      EntriesStay(steps, bounds, ws, n, w.pending, w.pending);
    }
  }

  lemma LeftHolds(steps: seq<Step>, bounds: Bounds, ws: seq<World>, n: nat, live: seq<Entry>, item: Entry)
    requires |steps| < |ws| && EntriesHold(steps, bounds, ws, n, live) && EntryHolds(steps, bounds, ws, n, item)
    ensures EntriesHold(steps, bounds, ws, n, With(Room(live, item.conversation, bounds.maxEntries), item))
  {
    RoomComesFrom(live, item.conversation, bounds, item);
    var after := With(Room(live, item.conversation, bounds.maxEntries), item);
    forall k | 0 <= k < |after| ensures EntryHolds(steps, bounds, ws, n, after[k]) {
      if after[k] != item {
        var j :| 0 <= j < |live| && live[j] == after[k];
        assert EntryHolds(steps, bounds, ws, n, live[j]);
      }
    }
  }

  lemma {:induction false} InvariantHolds(steps: seq<Step>, bounds: Bounds, ws: seq<World>, n: nat)
    requires Run(steps, bounds, ws) && n <= |steps|
    ensures EntriesHold(steps, bounds, ws, n, ws[n].pending) && TurnsHold(steps, ws, n, ws[n].turns)
    decreases n
  {
    if n == 0 {
    } else {
      InvariantHolds(steps, bounds, ws, n - 1);
      CountsSteps(steps, bounds, ws, n - 1);
      match steps[n - 1] {
        case Begin(_, _) => BeginStep(steps, bounds, ws, n - 1);
        case Call(_, _) => CallStep(steps, bounds, ws, n - 1);
        case Finish(_, _, _) => FinishStep(steps, bounds, ws, n - 1);
      }
    }
  }

  // ---------------------------------------------------------------------------------------------------------
  // Each entry authorises one call
  // ---------------------------------------------------------------------------------------------------------

  /** Step `i` calls the boundary with the flag. */
  predicate CallsConfirmed(steps: seq<Step>, ws: seq<World>, i: nat)
    requires |steps| < |ws|
  {
    && i < |steps| && steps[i].Call? && steps[i].turn in ws[i].turns
    && Confirmed(Filled(ws[i].turns[steps[i].turn].request, steps[i].context))
  }

  /**
   The flag reaches the execution boundary only in a turn that began with a yes to an unexpired confirmation of the same
   conversation and user, which an earlier turn of theirs ended with.
   */
  lemma ConfirmedCallsWereAccepted(steps: seq<Step>, bounds: Bounds, ws: seq<World>, i: nat)
    requires Run(steps, bounds, ws) && CallsConfirmed(steps, ws, i)
    ensures var b := steps[i].turn;
      && b < i && Accepts(steps, ws, b)
      && var e := SeenAt(steps, ws, b).value;
         && e.request.step < b && Asked(steps, bounds, ws, e.request.step, e)
         && steps[e.request.step].response == "confirmation_required"
  {
    var b := steps[i].turn;
    InvariantHolds(steps, bounds, ws, i);
    assert TurnHolds(steps, ws, i, b, ws[i].turns[b]);
    StateIsNotAConfirmation(steps[i].context.digests);
    InvariantHolds(steps, bounds, ws, b);
    var e := SeenAt(steps, ws, b).value;
    SeenIsPending(ws[b], steps[b].input, steps[b].now);
    var k :| 0 <= k < |ws[b].pending| && ws[b].pending[k] == e;
    assert EntryHolds(steps, bounds, ws, b, ws[b].pending[k]);
  }

  /** Nothing pending was stored by step `f`. */
  predicate Gone(pending: seq<Entry>, f: nat) {
    forall k :: 0 <= k < |pending| ==> pending[k].request.step != f
  }

  predicate OneEach(pending: seq<Entry>, count: nat) {
    && DistinctConversations(pending)
    && (forall k :: 0 <= k < |pending| ==> pending[k].request.step < count)
    && forall i, j :: 0 <= i < j < |pending| ==> pending[i].request.step != pending[j].request.step
  }

  lemma WithoutLeavesGone(s: seq<Entry>, removed: string, f: nat)
    requires Gone(s, f)
    ensures Gone(Without(s, removed), f)
  {
  }

  lemma WithoutKeepsSteps(s: seq<Entry>, removed: string, count: nat)
    requires OneEach(s, count)
    ensures OneEach(Without(s, removed), count)
    ensures Find(s, removed).Some? ==> Gone(Without(s, removed), Find(s, removed).value.request.step)
  {
    var p, after := Position(s, removed), Without(s, removed);
    WithoutIsDistinct(s, removed);
    if p < |s| {
      forall i, j | 0 <= i < j < |after| ensures after[i].request.step != after[j].request.step {
        assert after[i] == s[if i < p then i else i + 1] && after[j] == s[if j < p then j else j + 1];
      }
      forall k | 0 <= k < |after| ensures after[k].request.step < count && after[k].request.step != s[p].request.step {
        assert after[k] == s[if k < p then k else k + 1];
      }
    }
  }

  lemma WithoutIsOneEach(s: seq<Entry>, removed: string, count: nat)
    requires OneEach(s, count)
    ensures OneEach(Without(s, removed), count)
    ensures Find(s, removed).Some? ==> Gone(Without(s, removed), Find(s, removed).value.request.step)
    ensures forall f: nat :: Gone(s, f) ==> Gone(Without(s, removed), f)
  {
    WithoutKeepsSteps(s, removed, count);
    forall f: nat | Gone(s, f) ensures Gone(Without(s, removed), f) {
      WithoutLeavesGone(s, removed, f);
    }
  }

  lemma {:induction false} PurgedSteps(s: seq<Entry>, now: real)
    requires forall i, j :: 0 <= i < j < |s| ==> s[i].request.step != s[j].request.step
    ensures forall i, j :: 0 <= i < j < |Purged(s, now)| ==> Purged(s, now)[i].request.step != Purged(s, now)[j].request.step
  {
    if |s| == 0 {
    } else {
      var before := s[..|s| - 1];
      PurgedSteps(before, now);
      assert forall k :: 0 <= k < |Purged(before, now)| ==> Purged(before, now)[k].request.step != s[|s| - 1].request.step;
    }
  }

  lemma PurgedIsOneEach(s: seq<Entry>, now: real, count: nat)
    requires OneEach(s, count)
    ensures OneEach(Purged(s, now), count)
    ensures forall f :: Gone(s, f) ==> Gone(Purged(s, now), f)
  {
    PurgedSteps(s, now);
    PurgedIsDistinct(s, now);
    assert forall k :: 0 <= k < |Purged(s, now)| ==> exists j :: 0 <= j < |s| && s[j] == Purged(s, now)[k];
  }

  lemma WithIsOneEach(s: seq<Entry>, item: Entry, count: nat)
    requires OneEach(s, count) && item.request.step == count
    ensures OneEach(With(s, item), count + 1)
    ensures forall f :: Gone(s, f) && f != count ==> Gone(With(s, item), f)
  {
    WithIs(s, item, item.conversation);
  }

  /** Whatever a step does, what is gone stays gone. */
  predicate Tidy(before: World, after: World) {
    && OneEach(after.pending, after.count) && after.count == before.count + 1
    && forall f: nat :: f < before.count && Gone(before.pending, f) ==> Gone(after.pending, f)
  }

  lemma BeginIsTidy(w: World, input: Input, now: real)
    requires OneEach(w.pending, w.count)
    ensures Tidy(w, Begun(w, input, now))
  {
    PurgedIsOneEach(w.pending, now, w.count);
    WithoutIsOneEach(Purged(w.pending, now), input.conversation, w.count);
  }

  lemma RoomIsOneEach(live: seq<Entry>, conversation: string, bounds: Bounds, count: nat)
    requires OneEach(live, count)
    ensures OneEach(Room(live, conversation, bounds.maxEntries), count)
    ensures forall f :: Gone(live, f) ==> Gone(Room(live, conversation, bounds.maxEntries), f)
  {
    if |live| > 0 {
      WithoutIsOneEach(live, live[Oldest(live)].conversation, count);
    }
  }

  lemma FinishIsTidy(w: World, turn: nat, response: string, now: real, bounds: Bounds)
    requires OneEach(w.pending, w.count) && turn in w.turns
    ensures Tidy(w, Finished(w, turn, response, now, bounds))
  {
    var t, live := w.turns[turn], Purged(w.pending, now);
    PurgedIsOneEach(w.pending, now, w.count);
    RoomIsOneEach(live, t.request.conversation, bounds, w.count);
    WithIsOneEach(Room(live, t.request.conversation, bounds.maxEntries), ItemOf(t, response, now, bounds, w.count), w.count);
  }

  lemma StepIsTidy(w: World, step: Step, bounds: Bounds, next: World)
    requires OneEach(w.pending, w.count) && Enabled(w, step) && next == Next(w, step, bounds)
    ensures Tidy(w, next)
  {
    match step
    case Begin(input, now) => BeginIsTidy(w, input, now);
    case Call(turn, context) =>
    case Finish(turn, response, now) => FinishIsTidy(w, turn, response, now, bounds);
  }

  lemma {:induction false} RunIsTidy(steps: seq<Step>, bounds: Bounds, ws: seq<World>, n: nat)
    requires Run(steps, bounds, ws) && n <= |steps|
    ensures OneEach(ws[n].pending, n) && ws[n].count == n
    decreases n
  {
    if n == 0 {
    } else {
      RunIsTidy(steps, bounds, ws, n - 1);
      RunStep(steps, bounds, ws, n - 1);
      StepIsTidy(ws[n - 1], steps[n - 1], bounds, ws[n]);
    }
  }

  lemma GoneStaysOnce(steps: seq<Step>, bounds: Bounds, ws: seq<World>, n: nat, f: nat)
    requires Run(steps, bounds, ws) && f < n < |steps| && Gone(ws[n].pending, f)
    ensures Gone(ws[n + 1].pending, f)
  {
    RunIsTidy(steps, bounds, ws, n);
    RunStep(steps, bounds, ws, n);
    StepIsTidy(ws[n], steps[n], bounds, ws[n + 1]);
  }

  lemma {:induction false} GoneStays(steps: seq<Step>, bounds: Bounds, ws: seq<World>, n: nat, m: nat, f: nat)
    requires Run(steps, bounds, ws) && f < n <= m < |ws| && Gone(ws[n].pending, f)
    ensures Gone(ws[m].pending, f)
    decreases m - n
  {
    if n < m {
      GoneStays(steps, bounds, ws, n, m - 1, f);
      GoneStaysOnce(steps, bounds, ws, m - 1, f);
    }
  }

  /** A begun turn that accepted an entry has taken it out of the store. */
  lemma TakenIsGone(w: World, input: Input, now: real)
    requires OneEach(w.pending, w.count) && Seen(w, input, now).Some? && Open(Seen(w, input, now), input).consumes
    ensures Seen(w, input, now).value.request.step < w.count
    ensures Gone(Begun(w, input, now).pending, Seen(w, input, now).value.request.step)
  {
    SeenIsPending(w, input, now);
    PurgedIsOneEach(w.pending, now, w.count);
    WithoutIsOneEach(Purged(w.pending, now), input.conversation, w.count);
  }

  /** Step `b` began a turn that settled what was pending for it. */
  predicate SettlesAt(steps: seq<Step>, ws: seq<World>, b: nat)
    requires |steps| < |ws|
  {
    b < |steps| && steps[b].Begin? && SeenAt(steps, ws, b).Some? && Settles(SeenAt(steps, ws, b).value, steps[b].input)
  }

  /** What a turn settled is gone for good. */
  lemma SettledIsGone(steps: seq<Step>, bounds: Bounds, ws: seq<World>, b: nat, n: nat)
    requires Run(steps, bounds, ws) && SettlesAt(steps, ws, b) && b < n < |ws|
    ensures SeenAt(steps, ws, b).value.request.step < b && Gone(ws[n].pending, SeenAt(steps, ws, b).value.request.step)
  {
    RunIsTidy(steps, bounds, ws, b);
    RunStep(steps, bounds, ws, b);
    OpeningsAre(SeenAt(steps, ws, b), steps[b].input);
    TakenIsGone(ws[b], steps[b].input, steps[b].now);
    GoneStays(steps, bounds, ws, b + 1, n, SeenAt(steps, ws, b).value.request.step);
  }

  lemma SettledIsNotSeen(steps: seq<Step>, bounds: Bounds, ws: seq<World>, b: nat, c: nat)
    requires Run(steps, bounds, ws) && SettlesAt(steps, ws, b) && b < c < |steps| && SeenAt(steps, ws, c).Some?
    ensures SeenAt(steps, ws, b).value.request.step != SeenAt(steps, ws, c).value.request.step
  {
    SettledIsGone(steps, bounds, ws, b, c);
    SeenIsPending(ws[c], steps[c].input, steps[c].now);
    var k :| 0 <= k < |ws[c].pending| && ws[c].pending[k] == SeenAt(steps, ws, c).value;
  }

  lemma AcceptingSettles(steps: seq<Step>, ws: seq<World>, b: nat)
    requires |steps| < |ws| && Accepts(steps, ws, b)
    ensures SettlesAt(steps, ws, b)
  {
    RepliesAre(steps[b].input);
  }

  /** No two turns accept the same entry. */
  lemma AcceptedOnce(steps: seq<Step>, bounds: Bounds, ws: seq<World>, b: nat, c: nat)
    requires Run(steps, bounds, ws) && b < c && Accepts(steps, ws, b) && Accepts(steps, ws, c)
    ensures SeenAt(steps, ws, b).value.request.step != SeenAt(steps, ws, c).value.request.step
  {
    AcceptingSettles(steps, ws, b);
    SettledIsNotSeen(steps, bounds, ws, b, c);
  }

  predicate Spent(w: World, turn: nat) {
    turn < w.count && (turn in w.turns ==> w.turns[turn].called)
  }

  lemma SpentStep(w: World, step: Step, bounds: Bounds, turn: nat)
    requires Enabled(w, step) && Spent(w, turn)
    ensures Spent(Next(w, step, bounds), turn)
  {
  }

  lemma {:induction false} SpentStays(steps: seq<Step>, bounds: Bounds, ws: seq<World>, n: nat, m: nat, turn: nat)
    requires Run(steps, bounds, ws) && n <= m < |ws| && Spent(ws[n], turn)
    ensures Spent(ws[m], turn)
    decreases m - n
  {
    if n < m {
      SpentStays(steps, bounds, ws, n, m - 1, turn);
      RunStep(steps, bounds, ws, m - 1);
      SpentStep(ws[m - 1], steps[m - 1], bounds, turn);
    }
  }

  /** A turn calls the boundary at most once. */
  lemma OneCallPerTurn(steps: seq<Step>, bounds: Bounds, ws: seq<World>, i: nat, j: nat)
    requires Run(steps, bounds, ws) && i < j < |steps| && steps[i].Call? && steps[j].Call?
    ensures steps[i].turn != steps[j].turn
  {
    var turn := steps[i].turn;
    RunStep(steps, bounds, ws, i);
    CountsSteps(steps, bounds, ws, i);
    InvariantHolds(steps, bounds, ws, i);
    assert TurnHolds(steps, ws, i, turn, ws[i].turns[turn]);
    SpentStays(steps, bounds, ws, i + 1, j, turn);
    RunStep(steps, bounds, ws, j);
  }

  /** No two calls of any run carry the flag on the strength of the same entry. */
  lemma EachEntryAuthorisesOneCall(steps: seq<Step>, bounds: Bounds, ws: seq<World>, i: nat, j: nat)
    requires Run(steps, bounds, ws) && i < j && CallsConfirmed(steps, ws, i) && CallsConfirmed(steps, ws, j)
    ensures var b, c := steps[i].turn, steps[j].turn;
      && b < i && c < j && SeenAt(steps, ws, b).Some? && SeenAt(steps, ws, c).Some?
      && SeenAt(steps, ws, b).value.request.step != SeenAt(steps, ws, c).value.request.step
  {
    var b, c := steps[i].turn, steps[j].turn;
    ConfirmedCallsWereAccepted(steps, bounds, ws, i);
    ConfirmedCallsWereAccepted(steps, bounds, ws, j);
    OneCallPerTurn(steps, bounds, ws, i, j);
    if b < c {
      AcceptedOnce(steps, bounds, ws, b, c);
    } else {
      AcceptedOnce(steps, bounds, ws, c, b);
    }
  }

  /**
   A no takes the confirmation away: in every run, once a turn answered a confirmation with a no, the entry is gone from the
   store, and no call of the run, whenever its turn began, gets the flag on the strength of it.
   */
  lemma ANoTakesItAway(steps: seq<Step>, bounds: Bounds, ws: seq<World>, b: nat, n: nat, i: nat)
    requires Run(steps, bounds, ws) && b < |steps| && steps[b].Begin?
    requires SeenAt(steps, ws, b).Some? && SeenAt(steps, ws, b).value.kind == Confirmation
    requires steps[b].input.reply in {"no", "n", "nope", "cancel", "cancel that", "never mind", "never mind that"}
    ensures b < n < |ws| ==> Gone(ws[n].pending, SeenAt(steps, ws, b).value.request.step)
    ensures CallsConfirmed(steps, ws, i) ==>
      && steps[i].turn < |steps| && SeenAt(steps, ws, steps[i].turn).Some?
      && SeenAt(steps, ws, steps[i].turn).value.request.step != SeenAt(steps, ws, b).value.request.step
  {
    if b < n < |ws| {
      SettledIsGone(steps, bounds, ws, b, n);
    }
    if CallsConfirmed(steps, ws, i) {
      var c := steps[i].turn;
      ConfirmedCallsWereAccepted(steps, bounds, ws, i);
      RepliesAre(steps[b].input);
      if b < c {
        SettledIsNotSeen(steps, bounds, ws, b, c);
      } else if c < b {
        AcceptingSettles(steps, ws, c);
        SettledIsNotSeen(steps, bounds, ws, c, b);
      }
    }
  }

  /** The flag never outlives its turn: whatever request a turn stores, the next turn that takes it up starts without it. */
  lemma FlagIsNotStored(request: ConversationRequest, user: Option<string>, kind: Kind, input: Input, at: real, until: real, step: nat)
    ensures !Confirmed(Compact(request))
    ensures var e := Pending.Pending(request.conversation, user, kind, Stored(Compact(request), step), at, until);
      Confirmed(Open(Some(e), input).request) <==> kind == Confirmation && ReplyOf(input) == Yes
  {
    OpeningIsAuthorised(Some(Pending.Pending(request.conversation, user, kind, Stored(Compact(request), step), at, until)), input);
  }

  /** A question whose request is over the store's bound is not stored: the store raises, and so does the turn. */
  predicate Raises(request: ConversationRequest, response: string) {
    response in CONTINUATIONS && !Fits(request)
  }

  /**
   A reply that is neither yes nor no takes the place of the request it was asked about: in every run the confirmation that
   is pending after its turn is for the reply's own words, and it is still the one that was asked if and only if those words
   exceed the store's bound, so that the turn raises.
   */
  lemma UnclearReplyTakesTheRequestsPlace(steps: seq<Step>, bounds: Bounds, ws: seq<World>, n: nat, input: Input, now: real, later: real)
    requires Run(steps, bounds, ws) && n <= |steps| && Enabled(ws[n], Begin(input, now)) && now <= later
    requires Seen(ws[n], input, now).Some? && Seen(ws[n], input, now).value.kind == Confirmation && ReplyOf(input) == Unclear
    ensures var begun := Begun(ws[n], input, now);
      && Enabled(begun, Finish(n, "confirmation_required", later)) && begun.turns[n].request == Plain(input)
      && var held := Find(Finished(begun, n, "confirmation_required", later, bounds).pending, input.conversation);
         && held.Some? && held.value.kind == Confirmation && held.value.user == input.user
         && (held == Seen(ws[n], input, now) <==> Raises(Plain(input), "confirmation_required"))
         && (held != Seen(ws[n], input, now) ==> held.value.request.request == Compact(Plain(input)))
  {
    RunIsTidy(steps, bounds, ws, n);
    var t := UnclearOpens(ws[n], input, now);
    SeenIsOld(ws[n], input, now);
    UnclearLeaves(Begun(ws[n], input, now), bounds, t, n, later);
  }

  lemma UnclearOpens(w: World, input: Input, now: real) returns (t: Turn)
    requires DistinctConversations(w.pending)
    requires Seen(w, input, now).Some? && Seen(w, input, now).value.kind == Confirmation && ReplyOf(input) == Unclear
    ensures t == Turn(input, Plain(input), Some("confirmation_required"), false)
    ensures var begun := Begun(w, input, now);
      && DistinctConversations(begun.pending) && begun.turns == w.turns[w.count := t] && begun.clock == now && begun.count == w.count + 1
      && Find(begun.pending, input.conversation) == Seen(w, input, now)
  {
    PurgedIsDistinct(w.pending, now);
    t := Turn(input, Plain(input), Some("confirmation_required"), false);
  }

  lemma UnclearLeaves(begun: World, bounds: Bounds, t: Turn, turn: nat, later: real)
    requires DistinctConversations(begun.pending) && turn in begun.turns && begun.turns[turn] == t && t.request == Plain(t.input)
    ensures Find(Finished(begun, turn, "confirmation_required", later, bounds).pending, t.input.conversation) ==
      if Fits(t.request) then Some(ItemOf(t, "confirmation_required", later, bounds, begun.count)) else Find(begun.pending, t.input.conversation)
  {
    if Fits(t.request) {
      LeftIsThere(begun.pending, t, "confirmation_required", later, bounds, begun.count);
    }
  }

  lemma SeenIsOld(w: World, input: Input, now: real)
    requires OneEach(w.pending, w.count) && Seen(w, input, now).Some?
    ensures Seen(w, input, now).value.request.step < w.count && Seen(w, input, now).value.user == input.user
  {
    SeenIsPending(w, input, now);
  }

  /** A turn that ends with a question leaves it in the store. */
  lemma LeftIsThere(pending: seq<Entry>, t: Turn, response: string, now: real, bounds: Bounds, step: nat)
    requires DistinctConversations(pending) && response in CONTINUATIONS && Fits(t.request)
    ensures Find(Left(pending, t, response, now, bounds, step), t.request.conversation) == Some(ItemOf(t, response, now, bounds, step))
  {
    var live, item := Purged(pending, now), ItemOf(t, response, now, bounds, step);
    PurgedIsDistinct(pending, now);
    if |live| > 0 {
      WithoutIs(live, live[Oldest(live)].conversation, item.conversation);
    }
    WithIs(Room(live, item.conversation, bounds.maxEntries), item, item.conversation);
  }

  // ---------------------------------------------------------------------------------------------------------
  // The id of a confirmed call
  // ---------------------------------------------------------------------------------------------------------

  /** A turn that has not called the gateway has the request it began with. */
  lemma {:induction false} OpeningStays(steps: seq<Step>, bounds: Bounds, ws: seq<World>, n: nat, b: nat)
    requires Run(steps, bounds, ws) && n <= |steps| && b in ws[n].turns && !ws[n].turns[b].called
    ensures b < n && steps[b].Begin? && ws[n].turns[b].request == Open(SeenAt(steps, ws, b), steps[b].input).request
    decreases n
  {
    if n == 0 {
    } else {
      RunStep(steps, bounds, ws, n - 1);
      CountsSteps(steps, bounds, ws, n - 1);
      if b in ws[n - 1].turns && !ws[n - 1].turns[b].called {
        OpeningStays(steps, bounds, ws, n - 1, b);
      }
    }
  }

  /** A confirmed call has the request id of the turn that asked for the confirmation. */
  lemma ConfirmedCallsKeepTheirId(steps: seq<Step>, bounds: Bounds, ws: seq<World>, i: nat)
    requires Run(steps, bounds, ws) && CallsConfirmed(steps, ws, i)
    ensures var b := steps[i].turn;
      && b < i && Accepts(steps, ws, b)
      && var f := SeenAt(steps, ws, b).value.request.step;
         && f < b && steps[f].Finish? && steps[f].response == "confirmation_required" && steps[f].turn in ws[f].turns
         && Filled(ws[i].turns[b].request, steps[i].context).requestId == ws[f].turns[steps[f].turn].request.requestId
  {
    ConfirmedCallsWereAccepted(steps, bounds, ws, i);
    RunStep(steps, bounds, ws, i);
    OpeningStays(steps, bounds, ws, i, steps[i].turn);
  }

  // ---------------------------------------------------------------------------------------------------------
  // The entity
  // ---------------------------------------------------------------------------------------------------------

  /** What a turn settles is no longer in the store, anything else stays. */
  lemma SettledAreTaken(pending: seq<Entry>, input: Input, now: real)
    requires DistinctConversations(pending)
    ensures var seen := SeenIn(pending, input, now);
      if seen.Some? && Settles(seen.value, input) then Find(Taken(pending, input, now), input.conversation).None?
      else Find(Taken(pending, input, now), input.conversation) == Find(Purged(pending, now), input.conversation)
  {
    OpeningsAre(SeenIn(pending, input, now), input);
    PurgedIsDistinct(pending, now);
    WithoutIs(Purged(pending, now), input.conversation, input.conversation);
  }

  class ConversationEntity {
    const store: ConversationContextStore<Stored>

    constructor (store: ConversationContextStore<Stored>)
      ensures this.store == store
    {
      this.store := store;
    }

    /** The part of a turn before the gateway is asked. */
    method BeginTurn(input: Input, now: real) returns (opening: Opening)
      requires store.Valid() && now >= store.clock
      modifies store
      ensures store.Valid() && store.clock == now
      ensures opening == Open(Visible(old(store.log), input.conversation, input.user, now), input)
      ensures opening == Open(SeenIn(old(store.pending), input, now), input)
      ensures store.pending == Taken(old(store.pending), input, now)
      ensures var seen := SeenIn(old(store.pending), input, now);
        if seen.Some? && Settles(seen.value, input) then Find(store.pending, input.conversation).None?
        else Find(store.pending, input.conversation) == Find(Purged(old(store.pending), now), input.conversation)
    {
      var pending := store.Peek(input.conversation, input.user, now);
      opening := Open(pending, input);
      SettledAreTaken(old(store.pending), input, now);
      if opening.consumes {
        PurgedTwice(old(store.pending), now);
        var consumed := store.Consume(input.conversation, input.user, now);
      }
    }

    /** The part after the gateway answered; `false` is the error the store raised. */
    method FinishTurn(turn: Turn, response: string, now: real, step: nat) returns (ok: bool)
      requires store.Valid() && now >= store.clock && turn.request.conversation != ""
      modifies store
      ensures store.Valid()
      ensures ok <==> !Raises(turn.request, response)
      ensures store.pending == Left(old(store.pending), turn, response, now, Bounds(store.ttl, store.maxEntries), step)
    {
      if response !in CONTINUATIONS {
        return true;
      }
      var item := store.PutItem(turn.request.conversation, turn.input.user, KindFor(response), Stored(Compact(turn.request), step),
                                Fits(turn.request), now);
      ok := item.Some?;
      if ok {
        ghost var live := Purged(old(store.pending), now);
        assert item.value == ItemOf(turn, response, now, Bounds(store.ttl, store.maxEntries), step);
        assert store.pending == With(Room(live, item.value.conversation, store.maxEntries), item.value);
      }
    }
  }

  lemma {:induction false} PurgedTwice(s: seq<Entry>, now: real)
    ensures Purged(Purged(s, now), now) == Purged(s, now)
  {
    if |s| == 0 {
    } else {
      PurgedTwice(s[..|s| - 1], now);
      var kept := Purged(s, now);
      if now < s[|s| - 1].expiresAt {
        assert kept[..|kept| - 1] == Purged(s[..|s| - 1], now);
      }
    }
  }
}
