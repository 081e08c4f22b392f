/**
 Model routes, their circuit breakers, and the bounded failover chain: a walk of the declared failover graph, which may be
 cyclic, that keeps the operator's order.
 */
module Routes {
  import opened Common

  const MAX_CHAIN := 8
  const THRESHOLD := 2
  const COOLDOWN := 30.0

  datatype Complexity = Simple | Medium | Complex | Reasoning

  datatype Privacy = LocalOnly | JevHostedAllowed | HostedAllowed

  datatype ResponseKind = ProseResponse | ToolProposal

  /** An upper bound on a route's cost; `Unlimited` is the float infinity the broker passes. */
  datatype CostLimit = AtMost(limit: real) | Unlimited

  datatype ModelRoute = ModelRoute(
    id: string,
    responseKinds: seq<ResponseKind>,
    ceiling: Complexity,
    privacyModes: seq<Privacy>,
    latency: int,
    cost: real,
    availability: string,
    fallbacks: seq<string>)

  /** What a chain is built for. */
  datatype Need = Need(complexity: Complexity, privacy: Privacy, kinds: seq<ResponseKind>, maxLatency: int, maxCost: CostLimit)

  function Rank(c: Complexity): nat {
    match c
    case Simple => 0
    case Medium => 1
    case Complex => 2
    case Reasoning => 3
  }

  predicate Supports(r: ModelRoute, complexity: Complexity, privacy: Privacy) {
    r.availability in {"ready", "degraded"} && Rank(r.ceiling) >= Rank(complexity) && privacy in r.privacyModes
  }

  predicate CostAllowed(cost: real, limit: CostLimit) {
    0.0 <= cost && (limit.AtMost? ==> cost <= limit.limit)
  }

  predicate RouteAllowed(r: ModelRoute, need: Need) {
    && need.privacy in r.privacyModes
    && Rank(r.ceiling) >= Rank(need.complexity)
    && 0 <= r.latency <= need.maxLatency
    && CostAllowed(r.cost, need.maxCost)
  }

  predicate AnswersSome(r: ModelRoute, kinds: seq<ResponseKind>) {
    exists k :: k in kinds && k in r.responseKinds
  }

  // ---------------------------------------------------------------------------------------------------------
  // Circuits
  // ---------------------------------------------------------------------------------------------------------

  datatype Circuit = Circuit(failures: nat, openedUntil: real)

  const CLOSED := Circuit(0, 0.0)

  predicate Available(c: Circuit, now: real) {
    now >= c.openedUntil
  }

  function Failed(c: Circuit, now: real): Circuit {
    Circuit(c.failures + 1, if c.failures + 1 >= THRESHOLD then now + COOLDOWN else c.openedUntil)
  }

  datatype Record = Failure(at: real) | Success

  /** The circuit after a history of records. */
  function Replay(history: seq<Record>): Circuit
    decreases |history|
  {
    if history == [] then CLOSED
    else
      match history[|history| - 1]
      case Failure(at) => Failed(Replay(history[..|history| - 1]), at)
      case Success => CLOSED
  }

  /** One record, and the route it is about. */
  datatype Entry = Entry(id: string, record: Record)

  /** What a log of records says about one route. */
  function HistoryOf(log: seq<Entry>, id: string): seq<Record>
    decreases |log|
  {
    if log == [] then []
    else
      var before, last := HistoryOf(log[..|log| - 1], id), log[|log| - 1];
      if last.id == id then before + [last.record] else before
  }

  function Noted(c: Circuit, record: Record): Circuit {
    match record
    case Failure(at) => Failed(c, at)
    case Success => CLOSED
  }

  lemma ReplayExtends(history: seq<Record>, record: Record)
    ensures Replay(history + [record]) == Noted(Replay(history), record)
  {
    assert (history + [record])[..|history|] == history;
  }

  /** The failures recorded since the last success. */
  function FailuresInARow(history: seq<Record>): nat
    decreases |history|
  {
    if history == [] || history[|history| - 1].Success? then 0
    else 1 + FailuresInARow(history[..|history| - 1])
  }

  /**
   At a time past the clock's origin a circuit is open exactly when at least two failures were recorded with no success
   between them or after them, and the cooldown since the latest one has not passed.
   */
  lemma {:induction false} OpenExactlyAfterTwoFailures(history: seq<Record>, now: real)
    requires now >= 0.0
    ensures !Available(Replay(history), now) <==>
      && FailuresInARow(history) >= 2
      && now < history[|history| - 1].at + 30.0
  {
    FailureCountIsExact(history);
    if history != [] && history[|history| - 1].Failure? && FailuresInARow(history) < THRESHOLD {
      FailureCountIsExact(history[..|history| - 1]);
    }
  }

  lemma {:induction false} FailureCountIsExact(history: seq<Record>)
    ensures Replay(history).failures == FailuresInARow(history)
    ensures FailuresInARow(history) < THRESHOLD ==> Replay(history).openedUntil == 0.0
    ensures FailuresInARow(history) > 0 ==> history != [] && history[|history| - 1].Failure?
    decreases |history|
  {
    if history == [] {
    } else {
      FailureCountIsExact(history[..|history| - 1]);
    }
  }

  function Lookup(circuits: map<string, Circuit>, id: string): Circuit {
    if id in circuits then circuits[id] else CLOSED
  }

  /** `clock` gives the time at which a route's circuit is read; a chain reads each of them at most once. */
  predicate Eligible(r: ModelRoute, need: Need, circuits: map<string, Circuit>, clock: string -> real) {
    && AnswersSome(r, need.kinds)
    && Supports(r, need.complexity, need.privacy)
    && Available(Lookup(circuits, r.id), clock(r.id))
    && RouteAllowed(r, need)
  }

  /** A route of this ceiling takes on requests of this complexity. */
  predicate Covers(ceiling: Complexity, complexity: Complexity) {
    || ceiling == complexity || complexity == Simple || ceiling == Reasoning
    || (complexity == Medium && ceiling == Complex)
  }

  /** What a route must be to be chosen, in its own fields. */
  predicate Suits(r: ModelRoute, need: Need, circuits: map<string, Circuit>, clock: string -> real) {
    && (exists kind :: kind in need.kinds && kind in r.responseKinds)
    && r.availability in {"ready", "degraded"}
    && need.privacy in r.privacyModes && Covers(r.ceiling, need.complexity)
    && (r.id in circuits ==> circuits[r.id].openedUntil <= clock(r.id))
    && (r.id !in circuits ==> 0.0 <= clock(r.id))
    && 0 <= r.latency <= need.maxLatency
    && 0.0 <= r.cost && match need.maxCost
                        case Unlimited => true
                        case AtMost(limit) => r.cost <= limit
  }

  lemma EligibleMeans(r: ModelRoute, need: Need, circuits: map<string, Circuit>, clock: string -> real)
    ensures Eligible(r, need, circuits, clock) <==> Suits(r, need, circuits, clock)
  {
    RanksOrder(r.ceiling, need.complexity);
  }

  lemma RanksOrder(ceiling: Complexity, complexity: Complexity)
    ensures Rank(ceiling) >= Rank(complexity) <==> Covers(ceiling, complexity)
  {
  }

  // ---------------------------------------------------------------------------------------------------------
  // The walk
  // ---------------------------------------------------------------------------------------------------------

  function Get(routes: seq<ModelRoute>, id: string): (found: Option<ModelRoute>)
    ensures found.Some? ==> found.value in routes && found.value.id == id
    ensures found.None? ==> forall r :: r in routes ==> r.id != id
  {
    if routes == [] then None
    else if routes[0].id == id then Some(routes[0])
    else Get(routes[1..], id)
  }

  /** Of several routes with one id the first is meant. */
  lemma {:induction false} GetIsTheFirst(routes: seq<ModelRoute>, id: string) returns (i: nat)
    requires Get(routes, id).Some?
    ensures i < |routes| && routes[i] == Get(routes, id).value && forall j :: 0 <= j < i ==> routes[j].id != id
  {
    if routes[0].id == id {
      i := 0;
    } else {
      i := GetIsTheFirst(routes[1..], id);
      i := i + 1;
    }
  }

  function Ids(routes: seq<ModelRoute>): set<string> {
    set r | r in routes :: r.id
  }

  /** The declared failovers from the `i`-th on that exist and are not visited, in declaration order. */
  function Failovers(routes: seq<ModelRoute>, r: ModelRoute, i: nat, visited: set<string>): (next: seq<ModelRoute>)
    requires i <= |r.fallbacks|
    ensures forall f :: f in next ==> f in routes && f.id !in visited && Get(routes, f.id) == Some(f)
    decreases |r.fallbacks| - i
  {
    if i == |r.fallbacks| then []
    else
      var found := Get(routes, r.fallbacks[i]);
      var rest := Failovers(routes, r, i + 1, visited);
      if found.Some? && found.value.id !in visited then [found.value] + rest else rest
  }

  /** Every route the walk reaches, in the order of first visits, without the bound on the chain. */
  function Visit(routes: seq<ModelRoute>, pending: seq<ModelRoute>, visited: set<string>): seq<ModelRoute>
    decreases Ids(routes) + Ids(pending) - visited, |pending|
  {
    if pending == [] then []
    else
      var r, rest := pending[0], pending[1..];
      IdsOfQueue(pending);
      if r.id in visited then
        assert Ids(routes) + Ids(rest) - visited == Ids(routes) + Ids(pending) - visited;
        Visit(routes, rest, visited)
      else
        var more := Failovers(routes, r, 0, visited + {r.id});
        assert Ids(rest + more) <= Ids(rest) + Ids(routes);
        assert r.id in Ids(routes) + Ids(pending) - visited;
        [r] + Visit(routes, rest + more, visited + {r.id})
  }

  lemma IdsOfQueue(pending: seq<ModelRoute>)
    requires pending != []
    ensures Ids(pending) == {pending[0].id} + Ids(pending[1..])
  {
    assert pending == [pending[0]] + pending[1..];
  }

  function Filter(visit: seq<ModelRoute>, need: Need, circuits: map<string, Circuit>, clock: string -> real): seq<ModelRoute>
    decreases |visit|
  {
    if visit == [] then []
    else
      var before, last := Filter(visit[..|visit| - 1], need, circuits, clock), visit[|visit| - 1];
      if Eligible(last, need, circuits, clock) then before + [last] else before
  }

  function AtMostEight(s: seq<ModelRoute>): seq<ModelRoute> {
    if |s| <= MAX_CHAIN then s else s[..MAX_CHAIN]
  }

  /** The failover chain of `route`. */
  function Chain(routes: seq<ModelRoute>, route: ModelRoute, need: Need, circuits: map<string, Circuit>, clock: string -> real):
    seq<ModelRoute>
  {
    AtMostEight(Filter(Visit(routes, [route], {}), need, circuits, clock))
  }

  // ---------------------------------------------------------------------------------------------------------
  // The walk visits exactly what is reachable, breadth first, in declaration order
  // ---------------------------------------------------------------------------------------------------------

  predicate Known(routes: seq<ModelRoute>, id: string) {
    Get(routes, id).Some?
  }

  /** The position `(k, p)`: the `p`-th failover declared by the `k`-th visited route. */
  datatype Place = Place(k: nat, p: nat)

  predicate Before(a: Place, b: Place) {
    a.k < b.k || (a.k == b.k && a.p < b.p)
  }

  predicate NamedAt(visit: seq<ModelRoute>, id: string, a: Place) {
    a.k < |visit| && a.p < |visit[a.k].fallbacks| && visit[a.k].fallbacks[a.p] == id
  }

  /** `a` is the first place that names the `j`-th visited route, and an earlier route declares it. */
  ghost predicate FirstNamed(visit: seq<ModelRoute>, j: nat, a: Place)
    requires j < |visit|
  {
    a.k < j && NamedAt(visit, visit[j].id, a) && forall b :: Before(b, a) ==> !NamedAt(visit, visit[j].id, b)
  }

  /** Every route but the first is visited in the order of the first places that name them; `places[0]` is not used. */
  ghost predicate InOrder(visit: seq<ModelRoute>, places: seq<Place>) {
    && |visit| == |places|
    && (forall j :: 1 <= j < |visit| ==> FirstNamed(visit, j, places[j]))
    && (forall i, j :: 1 <= i < j < |places| ==> Before(places[i], places[j]))
  }

  predicate DistinctIds(visit: seq<ModelRoute>) {
    forall i, j :: 0 <= i < j < |visit| ==> visit[i].id != visit[j].id
  }

  /** Nothing named by a visited route is left out. */
  ghost predicate Closed(routes: seq<ModelRoute>, visit: seq<ModelRoute>) {
    forall id, a :: NamedAt(visit, id, a) && Known(routes, id) ==> id in Ids(visit)
  }

  /** A breadth-first listing of what `route` reaches. */
  ghost predicate BreadthFirst(routes: seq<ModelRoute>, route: ModelRoute, visit: seq<ModelRoute>) {
    && visit != [] && visit[0] == route
    && DistinctIds(visit)
    && (forall j :: 1 <= j < |visit| ==> Get(routes, visit[j].id) == Some(visit[j]))
    && Closed(routes, visit)
    && exists places :: InOrder(visit, places)
  }

  /** The state of the walk: `done` is visited, and the queue holds the named routes not visited yet, in order of place. */
  ghost predicate Walking(routes: seq<ModelRoute>, done: seq<ModelRoute>, places: seq<Place>, pending: seq<ModelRoute>, queue: seq<Place>) {
    && Listed(routes, done, places)
    && Queued(routes, done, pending, queue)
    && (forall i, t :: 1 <= i < |places| && 0 <= t < |queue| ==> Before(places[i], queue[t]))
    && NothingForgotten(routes, done, queue)
  }

  ghost predicate Listed(routes: seq<ModelRoute>, done: seq<ModelRoute>, places: seq<Place>) {
    && done != [] && DistinctIds(done) && InOrder(done, places)
    && (forall j :: 1 <= j < |done| ==> Get(routes, done[j].id) == Some(done[j]))
  }

  ghost predicate NothingForgotten(routes: seq<ModelRoute>, done: seq<ModelRoute>, queue: seq<Place>) {
    forall id, a :: NamedAt(done, id, a) && Known(routes, id) && id !in Ids(done) ==> a in queue
  }

  ghost predicate Queued(routes: seq<ModelRoute>, done: seq<ModelRoute>, pending: seq<ModelRoute>, queue: seq<Place>) {
    && |queue| == |pending|
    && (forall t :: 0 <= t < |queue| ==> NamedAt(done, pending[t].id, queue[t]) && Get(routes, pending[t].id) == Some(pending[t]))
    && (forall s, t :: 0 <= s < t < |queue| ==> Before(queue[s], queue[t]))
  }

  /** The places of `Failovers`, for the route visited as number `k`. */
  function FailoverPlaces(routes: seq<ModelRoute>, r: ModelRoute, i: nat, visited: set<string>, k: nat): (places: seq<Place>)
    requires i <= |r.fallbacks|
    ensures |places| == |Failovers(routes, r, i, visited)|
    ensures forall t :: 0 <= t < |places| ==> places[t].k == k && i <= places[t].p < |r.fallbacks|
    decreases |r.fallbacks| - i
  {
    if i == |r.fallbacks| then []
    else
      var found := Get(routes, r.fallbacks[i]);
      var rest := FailoverPlaces(routes, r, i + 1, visited, k);
      if found.Some? && found.value.id !in visited then [Place(k, i)] + rest else rest
  }

  lemma {:induction false} PlaceNames(routes: seq<ModelRoute>, r: ModelRoute, i: nat, visited: set<string>, k: nat, t: nat)
    requires i <= |r.fallbacks| && t < |Failovers(routes, r, i, visited)|
    ensures r.fallbacks[FailoverPlaces(routes, r, i, visited, k)[t].p] == Failovers(routes, r, i, visited)[t].id
    decreases |r.fallbacks| - i
  {
    var found := Get(routes, r.fallbacks[i]);
    if !(found.Some? && found.value.id !in visited) {
      PlaceNames(routes, r, i + 1, visited, k, t);
    } else if t > 0 {
      PlaceNames(routes, r, i + 1, visited, k, t - 1);
    }
  }

  lemma {:induction false} PlacesInOrder(routes: seq<ModelRoute>, r: ModelRoute, i: nat, visited: set<string>, k: nat, s: nat, t: nat)
    requires i <= |r.fallbacks| && s < t < |FailoverPlaces(routes, r, i, visited, k)|
    ensures Before(FailoverPlaces(routes, r, i, visited, k)[s], FailoverPlaces(routes, r, i, visited, k)[t])
    decreases |r.fallbacks| - i
  {
    var found := Get(routes, r.fallbacks[i]);
    if !(found.Some? && found.value.id !in visited) {
      PlacesInOrder(routes, r, i + 1, visited, k, s, t);
    } else if s > 0 {
      PlacesInOrder(routes, r, i + 1, visited, k, s - 1, t - 1);
    }
  }

  lemma PlacesName(routes: seq<ModelRoute>, r: ModelRoute, visited: set<string>, k: nat)
    ensures var places, next := FailoverPlaces(routes, r, 0, visited, k), Failovers(routes, r, 0, visited);
      && (forall t :: 0 <= t < |places| ==> r.fallbacks[places[t].p] == next[t].id && Get(routes, next[t].id) == Some(next[t]))
      && forall s, t :: 0 <= s < t < |places| ==> Before(places[s], places[t])
  {
    var places, next := FailoverPlaces(routes, r, 0, visited, k), Failovers(routes, r, 0, visited);
    forall s, t | 0 <= s < t < |places| ensures Before(places[s], places[t]) {
      PlacesInOrder(routes, r, 0, visited, k, s, t);
    }
    forall t | 0 <= t < |places| ensures r.fallbacks[places[t].p] == next[t].id && Get(routes, next[t].id) == Some(next[t]) {
      PlaceNames(routes, r, 0, visited, k, t);
      assert next[t] in next;
    }
  }

  lemma {:induction false} PlaceIsListed(routes: seq<ModelRoute>, r: ModelRoute, i: nat, visited: set<string>, k: nat, p: nat)
    requires i <= p < |r.fallbacks| && Known(routes, r.fallbacks[p]) && r.fallbacks[p] !in visited
    ensures Place(k, p) in FailoverPlaces(routes, r, i, visited, k)
    decreases |r.fallbacks| - i
  {
    var rest := FailoverPlaces(routes, r, i + 1, visited, k);
    if i < p {
      PlaceIsListed(routes, r, i + 1, visited, k, p);
      assert Place(k, p) in [Place(k, i)] + rest;
    } else {
      assert FailoverPlaces(routes, r, i, visited, k) == [Place(k, i)] + rest;
    }
  }

  lemma VisitedAgain(routes: seq<ModelRoute>, done: seq<ModelRoute>, places: seq<Place>, pending: seq<ModelRoute>, queue: seq<Place>)
    requires Walking(routes, done, places, pending, queue) && pending != [] && pending[0].id in Ids(done)
    ensures Walking(routes, done, places, pending[1..], queue[1..])
  {
    forall id, a | NamedAt(done, id, a) && Known(routes, id) && id !in Ids(done) ensures a in queue[1..] {
      assert a in queue && a != queue[0];
    }
  }

  lemma VisitedOrder(routes: seq<ModelRoute>, done: seq<ModelRoute>, places: seq<Place>, pending: seq<ModelRoute>, queue: seq<Place>)
    requires Walking(routes, done, places, pending, queue) && pending != [] && pending[0].id !in Ids(done)
    ensures Listed(routes, done + [pending[0]], places + [queue[0]])
  {
    var r, a := pending[0], queue[0];
    var done', places' := done + [r], places + [a];
    forall i | 0 <= i < |done| ensures done[i].id != r.id {
      assert done[i].id in Ids(done);
    }
    forall j | 1 <= j < |done'| ensures FirstNamed(done', j, places'[j]) {
      if j < |done| {
        assert FirstNamed(done, j, places[j]);
      } else {
        forall b | Before(b, a) ensures !NamedAt(done', r.id, b) {
          assert NamedAt(done, r.id, b) ==> b in queue;
        }
      }
    }
  }

  /** The queue after the first route in it is visited. */
  function NextPending(routes: seq<ModelRoute>, pending: seq<ModelRoute>, visited: set<string>): seq<ModelRoute>
    requires pending != []
  {
    pending[1..] + Failovers(routes, pending[0], 0, visited)
  }

  function NextQueue(routes: seq<ModelRoute>, pending: seq<ModelRoute>, visited: set<string>, queue: seq<Place>, k: nat): seq<Place>
    requires pending != [] && queue != []
  {
    queue[1..] + FailoverPlaces(routes, pending[0], 0, visited, k)
  }

  lemma QueueNames(routes: seq<ModelRoute>, done: seq<ModelRoute>, pending: seq<ModelRoute>, queue: seq<Place>, visited: set<string>, t: nat)
    requires Queued(routes, done, pending, queue) && pending != [] && t < |NextQueue(routes, pending, visited, queue, |done|)|
    ensures var pending', queue' := NextPending(routes, pending, visited), NextQueue(routes, pending, visited, queue, |done|);
      |pending'| == |queue'| && NamedAt(done + [pending[0]], pending'[t].id, queue'[t]) && Get(routes, pending'[t].id) == Some(pending'[t])
  {
    var pending', queue', n := NextPending(routes, pending, visited), NextQueue(routes, pending, visited, queue, |done|), |queue| - 1;
    if t < n {
      assert NamedAt(done, pending[t + 1].id, queue[t + 1]) && Get(routes, pending[t + 1].id) == Some(pending[t + 1]);
    } else {
      var next, places := Failovers(routes, pending[0], 0, visited), FailoverPlaces(routes, pending[0], 0, visited, |done|);
      PlaceNames(routes, pending[0], 0, visited, |done|, t - n);
      assert pending'[t] == next[t - n] && queue'[t] == places[t - n] && next[t - n] in next;
    }
  }

  lemma QueueInOrder(routes: seq<ModelRoute>, done: seq<ModelRoute>, pending: seq<ModelRoute>, queue: seq<Place>, visited: set<string>, s: nat, t: nat)
    requires Queued(routes, done, pending, queue) && pending != [] && s < t < |NextQueue(routes, pending, visited, queue, |done|)|
    ensures Before(NextQueue(routes, pending, visited, queue, |done|)[s], NextQueue(routes, pending, visited, queue, |done|)[t])
  {
    var queue', places, n :=
      NextQueue(routes, pending, visited, queue, |done|), FailoverPlaces(routes, pending[0], 0, visited, |done|), |queue| - 1;
    if t < n {
      assert Before(queue[s + 1], queue[t + 1]);
    } else if s < n {
      assert NamedAt(done, pending[s + 1].id, queue[s + 1]) && queue'[t] == places[t - n];
    } else {
      PlacesInOrder(routes, pending[0], 0, visited, |done|, s - n, t - n);
    }
  }

  lemma QueueGrows(routes: seq<ModelRoute>, done: seq<ModelRoute>, pending: seq<ModelRoute>, queue: seq<Place>, visited: set<string>)
    requires Queued(routes, done, pending, queue) && pending != []
    ensures Queued(routes, done + [pending[0]], NextPending(routes, pending, visited), NextQueue(routes, pending, visited, queue, |done|))
  {
    var queue' := NextQueue(routes, pending, visited, queue, |done|);
    forall t | 0 <= t < |queue'| {
      QueueNames(routes, done, pending, queue, visited, t);
    }
    forall s, t | 0 <= s < t < |queue'| {
      QueueInOrder(routes, done, pending, queue, visited, s, t);
    }
  }

  lemma NothingIsForgotten(routes: seq<ModelRoute>, done: seq<ModelRoute>, pending: seq<ModelRoute>, queue: seq<Place>, visited: set<string>)
    requires Queued(routes, done, pending, queue) && NothingForgotten(routes, done, queue) && pending != []
    requires visited == Ids(done) + {pending[0].id} && visited == Ids(done + [pending[0]])
    ensures NothingForgotten(routes, done + [pending[0]], NextQueue(routes, pending, visited, queue, |done|))
  {
    var done', queue' := done + [pending[0]], NextQueue(routes, pending, visited, queue, |done|);
    forall id, b | NamedAt(done', id, b) && Known(routes, id) && id !in visited ensures b in queue' {
      if b.k < |done| {
        assert NamedAt(done, id, b) && b in queue && b != queue[0];
        assert b in queue[1..];
      } else {
        PlaceIsListed(routes, pending[0], 0, visited, |done|, b.p);
        assert b == Place(|done|, b.p);
      }
    }
  }

  lemma IdsGrow(done: seq<ModelRoute>, r: ModelRoute)
    ensures Ids(done + [r]) == Ids(done) + {r.id}
  {
    assert forall x :: x in done + [r] <==> x in done || x == r;
  }

  lemma VisitedFirst(routes: seq<ModelRoute>, done: seq<ModelRoute>, places: seq<Place>, pending: seq<ModelRoute>, queue: seq<Place>)
    requires Walking(routes, done, places, pending, queue) && pending != [] && pending[0].id !in Ids(done)
    ensures var visited := Ids(done) + {pending[0].id};
      Walking(routes, done + [pending[0]], places + [queue[0]],
              NextPending(routes, pending, visited), NextQueue(routes, pending, visited, queue, |done|))
  {
    var visited := Ids(done) + {pending[0].id};
    var places', queue' := places + [queue[0]], NextQueue(routes, pending, visited, queue, |done|);
    IdsGrow(done, pending[0]);
    VisitedOrder(routes, done, places, pending, queue);
    QueueGrows(routes, done, pending, queue, visited);
    NothingIsForgotten(routes, done, pending, queue, visited);
    forall i, t | 1 <= i < |places'| && 0 <= t < |queue'| ensures Before(places'[i], queue'[t]) {
      if t < |queue| - 1 {
        assert queue'[t] == queue[t + 1];
      } else if i < |places| {
        assert FirstNamed(done, i, places[i]);
      } else {
        assert NamedAt(done, pending[0].id, queue[0]);
      }
    }
  }

  lemma VisitTakesFirst(routes: seq<ModelRoute>, done: seq<ModelRoute>, pending: seq<ModelRoute>, visited: set<string>)
    requires pending != [] && pending[0].id !in visited
    ensures var visited' := visited + {pending[0].id};
      done + Visit(routes, pending, visited) == done + [pending[0]] + Visit(routes, NextPending(routes, pending, visited'), visited')
  {
  }

  lemma WalkEnds(routes: seq<ModelRoute>, done: seq<ModelRoute>, places: seq<Place>)
    requires Walking(routes, done, places, [], [])
    ensures BreadthFirst(routes, done[0], done)
  {
  }

  lemma {:induction false} WalkingVisits(routes: seq<ModelRoute>, done: seq<ModelRoute>, places: seq<Place>,
                                         pending: seq<ModelRoute>, queue: seq<Place>)
    requires Walking(routes, done, places, pending, queue)
    ensures BreadthFirst(routes, done[0], done + Visit(routes, pending, Ids(done)))
    decreases Ids(routes) + Ids(pending) - Ids(done), |pending|
  {
    if pending == [] {
      WalkEnds(routes, done, places);
      assert done + [] == done;
    } else if pending[0].id in Ids(done) {
      IdsOfQueue(pending);
      VisitedAgain(routes, done, places, pending, queue);
      assert Ids(routes) + Ids(pending[1..]) - Ids(done) == Ids(routes) + Ids(pending) - Ids(done);
      WalkingVisits(routes, done, places, pending[1..], queue[1..]);
    } else {
      var done', visited := done + [pending[0]], Ids(done) + {pending[0].id};
      VisitedFirst(routes, done, places, pending, queue);
      IdsGrow(done, pending[0]);
      QueueShrinks(routes, pending, Ids(done));
      VisitTakesFirst(routes, done, pending, Ids(done));
      var pending', queue' := NextPending(routes, pending, visited), NextQueue(routes, pending, visited, queue, |done|);
      WalkingVisits(routes, done', places + [queue[0]], pending', queue');
    }
  }

  lemma QueueShrinks(routes: seq<ModelRoute>, pending: seq<ModelRoute>, visited: set<string>)
    requires pending != [] && pending[0].id !in visited
    ensures var visited' := visited + {pending[0].id};
      Ids(routes) + Ids(NextPending(routes, pending, visited')) - visited' < Ids(routes) + Ids(pending) - visited
  {
    var visited' := visited + {pending[0].id};
    IdsOfQueue(pending);
    var next := NextPending(routes, pending, visited');
    assert Ids(next) <= Ids(pending[1..]) + Ids(routes);
    assert pending[0].id in Ids(routes) + Ids(pending) - visited;
  }

  lemma FirstStep(routes: seq<ModelRoute>, route: ModelRoute)
    ensures Walking(routes, [route], [Place(0, 0)], Failovers(routes, route, 0, {route.id}), FailoverPlaces(routes, route, 0, {route.id}, 0))
  {
    var places := FailoverPlaces(routes, route, 0, {route.id}, 0);
    assert Ids([route]) == {route.id};
    PlacesName(routes, route, {route.id}, 0);
    forall id, a | NamedAt([route], id, a) && Known(routes, id) && id !in {route.id} ensures a in places {
      PlaceIsListed(routes, route, 0, {route.id}, 0, a.p);
      assert a == Place(0, a.p);
    }
  }

  /** On every failover graph, cyclic or not, the walk lists what the route reaches once each, breadth first. */
  lemma WalkIsBreadthFirst(routes: seq<ModelRoute>, route: ModelRoute)
    ensures BreadthFirst(routes, route, Visit(routes, [route], {}))
  {
    var more := Failovers(routes, route, 0, {route.id});
    FirstStep(routes, route);
    WalkingVisits(routes, [route], [Place(0, 0)], more, FailoverPlaces(routes, route, 0, {route.id}, 0));
    assert Ids([route]) == {route.id};
    assert {} + {route.id} == {route.id} && [route][1..] == [] && [] + more == more;
    assert Visit(routes, [route], {}) == [route] + Visit(routes, more, {route.id});
  }

  // ---------------------------------------------------------------------------------------------------------
  // The chain is the first eight eligible routes of that listing
  // ---------------------------------------------------------------------------------------------------------

  /** `kept` are the routes at the increasing positions `at`. */
  ghost predicate KeptAt(visit: seq<ModelRoute>, kept: seq<ModelRoute>, at: seq<nat>) {
    && |at| == |kept|
    && (forall i :: 0 <= i < |at| ==> at[i] < |visit| && visit[at[i]] == kept[i])
    && forall i, j :: 0 <= i < j < |at| ==> at[i] < at[j]
  }

  /** All of them are eligible, and an eligible route is left out only if there are eight before it. */
  ghost predicate FirstEight(visit: seq<ModelRoute>, chain: seq<ModelRoute>, at: seq<nat>, need: Need, circuits: map<string, Circuit>,
                             clock: string -> real)
  {
    && KeptAt(visit, chain, at) && |chain| <= 8
    && (forall r :: r in chain ==> Eligible(r, need, circuits, clock))
    && forall a: nat :: a < |visit| && Eligible(visit[a], need, circuits, clock) && a !in at ==> |at| == 8 && at[7] < a
  }

  lemma KeptAtMore(visit: seq<ModelRoute>, kept: seq<ModelRoute>, at: seq<nat>)
    requires visit != [] && KeptAt(visit[..|visit| - 1], kept, at)
    ensures KeptAt(visit, kept, at) && KeptAt(visit, kept + [visit[|visit| - 1]], at + [|visit| - 1])
  {
  }

  lemma {:induction false} FilterKeepsEligible(visit: seq<ModelRoute>, need: Need, circuits: map<string, Circuit>, clock: string -> real)
    returns (at: seq<nat>)
    ensures KeptAt(visit, Filter(visit, need, circuits, clock), at)
    ensures forall a: nat :: a in at <==> a < |visit| && Eligible(visit[a], need, circuits, clock)
    decreases |visit|
  {
    if visit == [] {
      at := [];
    } else {
      var last := |visit| - 1;
      at := FilterKeepsEligible(visit[..last], need, circuits, clock);
      KeptAtMore(visit, Filter(visit[..last], need, circuits, clock), at);
      if Eligible(visit[last], need, circuits, clock) {
        at := at + [last];
      }
    }
  }

  lemma {:induction false} FilterStartsWith(done: seq<ModelRoute>, more: seq<ModelRoute>, need: Need, circuits: map<string, Circuit>, clock: string -> real)
    ensures Filter(done, need, circuits, clock) <= Filter(done + more, need, circuits, clock)
    decreases |more|
  {
    if more == [] {
      assert done + more == done;
    } else {
      FilterStartsWith(done, more[..|more| - 1], need, circuits, clock);
      assert (done + more)[..|done + more| - 1] == done + more[..|more| - 1];
    }
  }

  /** Cutting the list of kept routes after eight keeps everything before the cut. */
  lemma FirstEightOf(visit: seq<ModelRoute>, all: seq<nat>, need: Need, circuits: map<string, Circuit>, clock: string -> real)
    returns (at: seq<nat>)
    requires KeptAt(visit, Filter(visit, need, circuits, clock), all)
    requires forall a: nat :: a in all <==> a < |visit| && Eligible(visit[a], need, circuits, clock)
    ensures FirstEight(visit, AtMostEight(Filter(visit, need, circuits, clock)), at, need, circuits, clock)
  {
    at := if |all| <= MAX_CHAIN then all else all[..MAX_CHAIN];
    forall a: nat | a < |visit| && Eligible(visit[a], need, circuits, clock) && a !in at
      ensures |at| == MAX_CHAIN && at[MAX_CHAIN - 1] < a
    {
      var i :| 0 <= i < |all| && all[i] == a;
      assert i >= |at|;
    }
    var chain := AtMostEight(Filter(visit, need, circuits, clock));
    forall r | r in chain ensures Eligible(r, need, circuits, clock) {
      var i :| 0 <= i < |chain| && chain[i] == r;
      assert all[i] in all;
    }
  }

  lemma KeptIds(visit: seq<ModelRoute>, chain: seq<ModelRoute>, at: seq<nat>, j: nat)
    requires KeptAt(visit, chain, at) && j < |visit|
    ensures j in at ==> visit[j].id in Ids(chain)
  {
    if j in at {
      var i :| 0 <= i < |at| && at[i] == j;
      assert chain[i] in chain;
    }
  }

  /**
   The chain of a route holds eligible routes only, each once, in the order of the walk, at most eight; and an eligible
   route the walk visits is missing only when eight of them were visited before it.
   */
  lemma ChainIsTheFirstEight(routes: seq<ModelRoute>, route: ModelRoute, need: Need, circuits: map<string, Circuit>, clock: string -> real)
    returns (at: seq<nat>)
    ensures var visit, chain := Visit(routes, [route], {}), Chain(routes, route, need, circuits, clock);
      BreadthFirst(routes, route, visit) && FirstEight(visit, chain, at, need, circuits, clock) && DistinctIds(chain)
  {
    WalkIsBreadthFirst(routes, route);
    var visit := Visit(routes, [route], {});
    var all := FilterKeepsEligible(visit, need, circuits, clock);
    at := FirstEightOf(visit, all, need, circuits, clock);
  }

  /** A declared path of failovers from a route, all of them in the registry. */
  ghost predicate FailoverPath(routes: seq<ModelRoute>, path: seq<string>) {
    && path != []
    && (forall i :: 0 <= i < |path| ==> Known(routes, path[i]))
    && forall i :: 0 <= i < |path| - 1 ==> path[i + 1] in Get(routes, path[i]).value.fallbacks
  }

  lemma {:induction false} PathsAreListed(routes: seq<ModelRoute>, route: ModelRoute, visit: seq<ModelRoute>, path: seq<string>)
    requires BreadthFirst(routes, route, visit) && Get(routes, route.id) == Some(route)
    requires FailoverPath(routes, path) && path[0] == route.id
    ensures path[|path| - 1] in Ids(visit)
    decreases |path|
  {
    if |path| == 1 {
      assert visit[0] in visit;
    } else {
      var before := path[..|path| - 1];
      PathsAreListed(routes, route, visit, before);
      var k :| 0 <= k < |visit| && visit[k].id == before[|before| - 1];
      assert Get(routes, visit[k].id) == Some(visit[k]);
      assert path[|path| - 1] in Get(routes, path[|path| - 2]).value.fallbacks;
      var p :| 0 <= p < |visit[k].fallbacks| && visit[k].fallbacks[p] == path[|path| - 1];
      assert NamedAt(visit, path[|path| - 1], Place(k, p));
    }
  }

  lemma {:induction false} ListedHavePaths(routes: seq<ModelRoute>, route: ModelRoute, visit: seq<ModelRoute>, j: nat)
    returns (path: seq<string>)
    requires BreadthFirst(routes, route, visit) && Get(routes, route.id) == Some(route) && j < |visit|
    ensures FailoverPath(routes, path) && path[0] == route.id && path[|path| - 1] == visit[j].id
    decreases j
  {
    if j == 0 {
      path := [route.id];
    } else {
      var places: seq<Place> :| InOrder(visit, places);
      assert FirstNamed(visit, j, places[j]);
      var before := ListedHavePaths(routes, route, visit, places[j].k);
      assert Get(routes, visit[places[j].k].id) == Some(visit[places[j].k]);
      path := before + [visit[j].id];
    }
  }

  /** A short chain holds exactly the eligible routes that some declared path of failovers leads to. */
  lemma ShortChainsMissNothing(routes: seq<ModelRoute>, route: ModelRoute, need: Need, circuits: map<string, Circuit>, clock: string -> real, id: string)
    requires Get(routes, route.id) == Some(route)
    requires |Chain(routes, route, need, circuits, clock)| < 8
    ensures id in Ids(Chain(routes, route, need, circuits, clock)) <==>
      && Known(routes, id) && Suits(Get(routes, id).value, need, circuits, clock)
      && exists path :: FailoverPath(routes, path) && path[0] == route.id && path[|path| - 1] == id
  {
    var visit, chain := Visit(routes, [route], {}), Chain(routes, route, need, circuits, clock);
    var at := ChainIsTheFirstEight(routes, route, need, circuits, clock);
    if Known(routes, id) {
      EligibleMeans(Get(routes, id).value, need, circuits, clock);
    }
    if id in Ids(chain) {
      var i :| 0 <= i < |chain| && chain[i].id == id;
      assert visit[at[i]] == chain[i] && Get(routes, id) == Some(chain[i]);
      var path := ListedHavePaths(routes, route, visit, at[i]);
      assert FailoverPath(routes, path) && path[0] == route.id && path[|path| - 1] == id;
    } else if path :| FailoverPath(routes, path) && path[0] == route.id && path[|path| - 1] == id {
      PathsAreListed(routes, route, visit, path);
      var j :| 0 <= j < |visit| && visit[j].id == id;
      assert Get(routes, id) == Some(visit[j]);
      KeptIds(visit, chain, at, j);
    }
  }

  // ---------------------------------------------------------------------------------------------------------
  // The registry
  // ---------------------------------------------------------------------------------------------------------

  /** The first route in registry order that suits, or none if none does. */
  ghost predicate FirstThatSuits(routes: seq<ModelRoute>, need: Need, circuits: map<string, Circuit>, clock: string -> real,
                                 selected: Option<ModelRoute>)
  {
    match selected
    case None => forall r :: r in routes ==> !Suits(r, need, circuits, clock)
    case Some(route) => exists i ::
      && 0 <= i < |routes| && routes[i] == route && Suits(route, need, circuits, clock)
      && forall j :: 0 <= j < i ==> !Suits(routes[j], need, circuits, clock)
  }

  lemma {:induction false} SelectedFirst(routes: seq<ModelRoute>, need: Need, circuits: map<string, Circuit>, clock: string -> real) returns (i: nat)
    requires Selected(routes, need, circuits, clock).Some?
    ensures i < |routes| && routes[i] == Selected(routes, need, circuits, clock).value
    ensures Eligible(routes[i], need, circuits, clock) && forall j :: 0 <= j < i ==> !Eligible(routes[j], need, circuits, clock)
  {
    if Eligible(routes[0], need, circuits, clock) {
      i := 0;
    } else {
      i := SelectedFirst(routes[1..], need, circuits, clock);
      i := i + 1;
    }
  }

  lemma SelectedMeans(routes: seq<ModelRoute>, need: Need, circuits: map<string, Circuit>, clock: string -> real)
    ensures FirstThatSuits(routes, need, circuits, clock, Selected(routes, need, circuits, clock))
  {
    forall r ensures Eligible(r, need, circuits, clock) <==> Suits(r, need, circuits, clock) {
      EligibleMeans(r, need, circuits, clock);
    }
    if Selected(routes, need, circuits, clock).Some? {
      var i := SelectedFirst(routes, need, circuits, clock);
    }
  }

  class RouteRegistry {
    const routes: seq<ModelRoute>
    var circuits: map<string, Circuit>
    ghost var log: seq<Entry>

    /** Every circuit is what its records make of it. */
    ghost predicate Valid()
      reads this
    {
      forall id: string :: Lookup(circuits, id) == Replay(HistoryOf(log, id))
    }

    constructor (routes: seq<ModelRoute>)
      ensures this.routes == routes && Valid()
      ensures log == [] && circuits == map[]
    {
      this.routes := routes;
      circuits := map[];
      log := [];
    }

    /** Reading a circuit creates it, which nobody can tell from an unused one. */
    method CircuitAllows(id: string, now: real) returns (allowed: bool)
      requires Valid()
      modifies this`circuits
      ensures Valid()
      ensures allowed == Available(Lookup(old(circuits), id), now)
      ensures forall x: string :: Lookup(circuits, x) == Lookup(old(circuits), x)
    {
      if id !in circuits {
        circuits := circuits[id := CLOSED];
      }
      allowed := Available(circuits[id], now);
      forall x: string ensures Lookup(circuits, x) == Replay(HistoryOf(log, x)) {
        assert Lookup(old(circuits), x) == Replay(HistoryOf(log, x));
      }
    }

    /** One candidate of a chain; its circuit is read only when the conditions before it hold. */
    method Check(r: ModelRoute, need: Need, clock: string -> real) returns (eligible: bool)
      requires Valid()
      modifies this`circuits
      ensures Valid()
      ensures eligible == Eligible(r, need, old(circuits), clock)
      ensures forall x: string :: Lookup(circuits, x) == Lookup(old(circuits), x)
    {
      if !AnswersSome(r, need.kinds) || !Supports(r, need.complexity, need.privacy) {
        return false;
      }
      var allowed := CircuitAllows(r.id, clock(r.id));
      return allowed && RouteAllowed(r, need);
    }

    method Note(id: string, record: Record)
      requires Valid()
      modifies this
      ensures Valid()
      ensures log == old(log) + [Entry(id, record)]
    {
      var before := Lookup(circuits, id);
      ReplayExtends(HistoryOf(log, id), record);
      log := log + [Entry(id, record)];
      circuits := circuits[id := Noted(before, record)];
      assert log[..|log| - 1] == old(log);
      forall x: string ensures Lookup(circuits, x) == Replay(HistoryOf(log, x)) {
        assert Lookup(old(circuits), x) == Replay(HistoryOf(old(log), x));
      }
    }

    method OrderedRoutes(route: ModelRoute, need: Need, clock: string -> real) returns (chain: seq<ModelRoute>)
      requires Valid()
      modifies this`circuits
      ensures Valid()
      ensures chain == Chain(routes, route, need, old(circuits), clock)
      ensures forall x: string :: Lookup(circuits, x) == Lookup(old(circuits), x)
    {
      chain := [];
      var visited: set<string> := {};
      var pending := [route];
      ghost var done: seq<ModelRoute> := [];
      while pending != [] && |chain| < MAX_CHAIN
        invariant Valid()
        invariant forall x: string :: Lookup(circuits, x) == Lookup(old(circuits), x)
        invariant |chain| <= MAX_CHAIN && chain == Filter(done, need, old(circuits), clock)
        invariant done + Visit(routes, pending, visited) == Visit(routes, [route], {})
        decreases Ids(routes) + Ids(pending) - visited, |pending|
      {
        var candidate := pending[0];
        IdsOfQueue(pending);
        if candidate.id in visited {
          assert Ids(routes) + Ids(pending[1..]) - visited == Ids(routes) + Ids(pending) - visited;
          pending := pending[1..];
        } else {
          QueueShrinks(routes, pending, visited);
          VisitTakesFirst(routes, done, pending, visited);
          visited := visited + {candidate.id};
          ghost var now := circuits;
          var eligible := Check(candidate, need, clock);
          assert eligible == Eligible(candidate, need, old(circuits), clock) by {
            assert Lookup(now, candidate.id) == Lookup(old(circuits), candidate.id);
          }
          if eligible {
            chain := chain + [candidate];
          }
          done := done + [candidate];
          assert done[..|done| - 1] + [candidate] == done;
          pending := pending[1..] + Failovers(routes, candidate, 0, visited);
        }
      }
      FilterStartsWith(done, Visit(routes, pending, visited), need, old(circuits), clock);
      assert pending == [] ==> done + [] == done;
    }

    /** The first route in registry order that can answer; `None` is the raised policy error. */
    method SelectRoute(need: Need, clock: string -> real) returns (selected: Option<ModelRoute>)
      requires Valid() && |need.kinds| == 1
      modifies this`circuits
      ensures Valid()
      ensures selected == Selected(routes, need, old(circuits), clock)
      ensures FirstThatSuits(routes, need, old(circuits), clock, selected)
      ensures forall x: string :: Lookup(circuits, x) == Lookup(old(circuits), x)
    {
      selected := None;
      assert routes[0..] == routes;
      for i := 0 to |routes|
        invariant Valid() && forall x: string :: Lookup(circuits, x) == Lookup(old(circuits), x)
        invariant Selected(routes, need, old(circuits), clock) ==
                  if selected.Some? then selected else Selected(routes[i..], need, old(circuits), clock)
      {
        var r := routes[i];
        ghost var now := circuits;
        var eligible := Check(r, need, clock);
        assert eligible == Eligible(r, need, old(circuits), clock) by {
          assert Lookup(now, r.id) == Lookup(old(circuits), r.id);
        }
        assert routes[i..][1..] == routes[i + 1..];
        if eligible && selected.None? {
          selected := Some(r);
        }
      }
      SelectedMeans(routes, need, old(circuits), clock);
    }
  }

  function Selected(routes: seq<ModelRoute>, need: Need, circuits: map<string, Circuit>, clock: string -> real): (s: Option<ModelRoute>)
    ensures s.Some? ==> s.value in routes && Eligible(s.value, need, circuits, clock)
    ensures s.None? <==> forall r :: r in routes ==> !Eligible(r, need, circuits, clock)
  {
    if routes == [] then None
    else if Eligible(routes[0], need, circuits, clock) then Some(routes[0])
    else Selected(routes[1..], need, circuits, clock)
  }
}
