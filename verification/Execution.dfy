/**
 The execution boundary: what Core checks before a write, the stop-on-failure write loop of a batch, and the receipts that
 make a repeated request harmless.  The executor is arbitrary: a `Site` says what each of its calls does.
 */
module Execution {
  import opened Common
  import opened Parameters

  const MAX_BATCH := 32

  /** What Core resolves a capability id to. */
  datatype Target = Target(capabilityId: string, adapterRef: string, entityId: string, domain: string, operation: string,
                           serviceDomain: string, service: string, schema: Schema, risk: string)

  /** What is read back from an entity; numbers that do not parse are missing. */
  datatype Reading = Reading(state: string, brightnessPct: Option<real>, brightness: Option<real>, volumeLevel: Option<real>,
                             temperature: Option<real>, hvacMode: Option<string>, lastTriggered: Option<string>)

  /** A service call that returned, and the reading after it. */
  datatype Written = Written(ok: bool, after: Reading)

  /** `Raises` is an error the boundary turns into a result, `Escapes` any other exception. */
  datatype Fallible<+T> = Value(value: T) | Raises | Escapes

  /** What the executor does during one call: `current(k)` is the answer to the k-th freshness check, `write(k)` the k-th write. */
  datatype Site = Site(
    resolve: string -> Fallible<Option<Target>>,
    before: string -> Fallible<Reading>,
    current: nat -> Fallible<bool>,
    write: nat -> Fallible<Written>)

  /** The idempotency key; the digest of its parts is taken to be injective. */
  datatype Key = Key(requestId: string, ids: seq<string>, operation: string)

  datatype Report =
    | BatchReport(ok: bool, response: string, verified: nat, total: nat)
    | SingleReport(ok: bool, response: string)

  type Receipts = map<Key, Report>

  /** How a call ends: a report, or an exception on its way out of the call. */
  datatype Ending = Reported(report: Report) | Raised | Escaped

  /** `writes` are the entities a service was called for, in order. */
  datatype Effect = Effect(receipts: Receipts, ending: Ending, writes: seq<string>)

  predicate Unreadable(reading: Reading) {
    reading.state in {"unknown", "unavailable"}
  }

  /** The states an operation may leave behind, when it is judged by the state alone. */
  function StatesAfter(operation: string): Option<set<string>> {
    match operation
    case "turn_on" => Some({"on", "playing"})
    case "turn_off" => Some({"off"})
    case "play" => Some({"playing"})
    case "pause" => Some({"paused"})
    case "stop" => Some({"idle", "off", "standby"})
    case "lock" => Some({"locked"})
    case "unlock" => Some({"unlocked"})
    case "open_cover" => Some({"open", "opening"})
    case "close_cover" => Some({"closed", "closing"})
    case _ => None
  }

  predicate Near(actual: Option<real>, parameters: Values, name: string, tolerance: real) {
    && actual.Some? && name in parameters && parameters[name].Number?
    && -tolerance <= actual.value - parameters[name].n <= tolerance
  }

  function Brightness(r: Reading): Option<real> {
    if r.brightnessPct.Some? then r.brightnessPct
    else if r.brightness.Some? then Some(r.brightness.value * 100.0 / 255.0)
    else None
  }

  predicate ModeMatches(mode: Option<string>, parameters: Values) {
    if "hvac_mode" in parameters then mode.Some? && parameters["hvac_mode"] == Text(mode.value) else mode.None?
  }

  /** Whether the reading after a call shows what the operation promised. */
  predicate Verified(operation: string, parameters: Values, before: Reading, w: Written) {
    && w.ok && !Unreadable(w.after)
    && if StatesAfter(operation).Some? then w.after.state in StatesAfter(operation).value
       else match operation
            case "toggle" => w.after.state != before.state
            case "set_brightness" => Near(Brightness(w.after), parameters, "brightness", 2.0)
            case "set_volume" => Near(w.after.volumeLevel, parameters, "volume", 0.02)
            case "set_temperature" => Near(w.after.temperature, parameters, "temperature", 0.2)
            case "set_hvac_mode" => ModeMatches(w.after.hvacMode, parameters) || ModeMatches(Some(w.after.state), parameters)
            case "activate" => w.after.lastTriggered != before.lastTriggered
            case _ => false
  }

  // ---------------------------------------------------------------------------------------------------------
  // Batches
  // ---------------------------------------------------------------------------------------------------------

  const BATCH_DOMAINS: set<string> := {"light", "switch", "fan"}
  const BATCH_OPERATIONS: set<string> := {"turn_on", "turn_off"}

  predicate BatchTarget(t: Target) {
    t.domain in BATCH_DOMAINS && t.operation in BATCH_OPERATIONS && t.risk == "routine" && Accepts(Core, t.schema, map[])
  }

  datatype BatchCall = BatchCall(ids: seq<string>, expected: string, current: string, requestId: string, site: Site)

  /** A target ready to be written, with the reading before the write. */
  datatype Prepared = Prepared(target: Target, before: Reading)

  datatype Preflight = Passed(targets: seq<Prepared>) | Refused(response: string) | Stopped(ending: Ending)

  /** One target of a batch, or how it ends the preflight. */
  function Prepare(site: Site, id: string): (r: Result<Prepared, Preflight>)
    ensures r.Err? ==> !r.error.Passed?
  {
    match site.resolve(id)
    case Raises => Err(Stopped(Raised))
    case Escapes => Err(Stopped(Escaped))
    case Value(found) =>
      if found.None? || !BatchTarget(found.value) then Err(Refused("batch_target_unavailable"))
      else
        match site.before(found.value.entityId)
        case Raises => Err(Stopped(Raised))
        case Escapes => Err(Stopped(Escaped))
        case Value(reading) =>
          if Unreadable(reading) then Err(Refused("batch_target_unavailable")) else Ok(Prepared(found.value, reading))
  }

  function PreflightFrom(ids: seq<string>, site: Site, targets: seq<Prepared>): Preflight
    decreases |ids|
  {
    if ids == [] then Passed(targets)
    else
      match Prepare(site, ids[0])
      case Err(stop) => stop
      case Ok(prepared) => PreflightFrom(ids[1..], site, targets + [prepared])
  }

  function Entities(targets: seq<Prepared>): seq<string> {
    seq(|targets|, i requires 0 <= i < |targets| => targets[i].target.entityId)
  }

  predicate OneOperation(targets: seq<Prepared>) {
    forall i :: 0 <= i < |targets| ==> targets[i].target.operation == targets[0].target.operation
  }

  predicate BatchShape(c: BatchCall) {
    1 <= |c.ids| <= MAX_BATCH && Distinct(c.ids)
  }

  /** The checks before the first write. */
  function PreflightOf(c: BatchCall): Preflight {
    if !BatchShape(c) then Refused("batch_invalid")
    else if c.expected != c.current then Refused("profile_stale")
    else
      match c.site.current(0)
      case Raises => Stopped(Raised)
      case Escapes => Stopped(Escaped)
      case Value(isCurrent) =>
        if !isCurrent then Refused("profile_stale")
        else
          var p := PreflightFrom(c.ids, c.site, []);
          if p.Passed? && !(Distinct(Entities(p.targets)) && OneOperation(p.targets)) then Refused("batch_invalid") else p
  }

  /** `all` are the targets found so far and one for each id still to look at. */
  predicate Prepares(ids: seq<string>, site: Site, targets: seq<Prepared>, all: seq<Prepared>) {
    && |all| == |targets| + |ids| && all[..|targets|] == targets
    && forall k :: 0 <= k < |ids| ==> Prepare(site, ids[k]) == Ok(all[|targets| + k])
  }

  /** Looking one further into the ids is looking one further into the prepared targets. */
  lemma ShiftByOne(ids: seq<string>, site: Site, targets: seq<Prepared>, all: seq<Prepared>, prepared: Prepared)
    requires ids != [] && |all| == |targets| + |ids|
    ensures all[..|targets| + 1] == targets + [prepared] <==> all[..|targets|] == targets && all[|targets|] == prepared
    ensures (forall k :: 0 <= k < |ids| ==> Prepare(site, ids[k]) == Ok(all[|targets| + k])) <==>
      && Prepare(site, ids[0]) == Ok(all[|targets|])
      && forall k :: 0 <= k < |ids[1..]| ==> Prepare(site, ids[1..][k]) == Ok(all[|targets| + 1 + k])
  {
    assert all[..|targets| + 1] == all[..|targets|] + [all[|targets|]];
    var rest := ids[1..];
    if forall k :: 0 <= k < |ids| ==> Prepare(site, ids[k]) == Ok(all[|targets| + k]) {
      forall k | 0 <= k < |rest| ensures Prepare(site, rest[k]) == Ok(all[|targets| + 1 + k]) {
        assert rest[k] == ids[k + 1];
      }
    }
    if Prepare(site, ids[0]) == Ok(all[|targets|]) && forall k :: 0 <= k < |rest| ==> Prepare(site, rest[k]) == Ok(all[|targets| + 1 + k]) {
      forall k | 0 <= k < |ids| ensures Prepare(site, ids[k]) == Ok(all[|targets| + k]) {
        if k > 0 {
          assert rest[k - 1] == ids[k];
        }
      }
    }
  }

  lemma PreparesOneMore(ids: seq<string>, site: Site, targets: seq<Prepared>, all: seq<Prepared>, prepared: Prepared)
    requires ids != [] && Prepare(site, ids[0]) == Ok(prepared)
    ensures Prepares(ids, site, targets, all) <==> Prepares(ids[1..], site, targets + [prepared], all)
  {
    if |all| == |targets| + |ids| {
      ShiftByOne(ids, site, targets, all, prepared);
    }
  }

  lemma {:induction false} PreflightFromPassesExactly(ids: seq<string>, site: Site, targets: seq<Prepared>, all: seq<Prepared>)
    ensures PreflightFrom(ids, site, targets) == Passed(all) <==> Prepares(ids, site, targets, all)
    decreases |ids|
  {
    if ids == [] {
      assert |all| == |targets| ==> all[..|targets|] == all;
    } else if Prepare(site, ids[0]).Ok? {
      var prepared := Prepare(site, ids[0]).value;
      PreflightFromPassesExactly(ids[1..], site, targets + [prepared], all);
      PreparesOneMore(ids, site, targets, all, prepared);
    }
  }

  /** What a batch may write: a routine light, switch or fan that is turned on or off without parameters. */
  lemma BatchTargetsAre(t: Target)
    ensures BatchTarget(t) <==>
      t.domain in {"light", "switch", "fan"} && t.operation in {"turn_on", "turn_off"} && t.risk == "routine" && Accepts(Core, t.schema, map[])
  {
  }

  /** A batch is written only when every target was found writable and readable, all before the first write. */
  lemma PreflightPassesExactly(c: BatchCall, all: seq<Prepared>)
    ensures PreflightOf(c) == Passed(all) <==>
      && 1 <= |c.ids| <= 32 && Distinct(c.ids) && c.expected == c.current && c.site.current(0) == Value(true)
      && |all| == |c.ids| && Distinct(Entities(all)) && OneOperation(all)
      && forall k :: 0 <= k < |c.ids| ==>
           && c.site.resolve(c.ids[k]) == Value(Some(all[k].target)) && BatchTarget(all[k].target)
           && c.site.before(all[k].target.entityId) == Value(all[k].before) && all[k].before.state !in {"unknown", "unavailable"}
  {
    PreflightFromPassesExactly(c.ids, c.site, [], all);
    if |all| == |c.ids| {
      forall k | 0 <= k < |c.ids|
        ensures Prepare(c.site, c.ids[k]) == Ok(all[k]) <==>
          && c.site.resolve(c.ids[k]) == Value(Some(all[k].target)) && BatchTarget(all[k].target)
          && c.site.before(all[k].target.entityId) == Value(all[k].before) && !Unreadable(all[k].before)
      {
      }
    }
  }

  /** The k-th write returned and its reading shows what was asked for. */
  predicate Succeeds(targets: seq<Prepared>, site: Site, k: nat)
    requires k < |targets|
  {
    site.write(k).Value? && Verified(targets[k].target.operation, map[], targets[k].before, site.write(k).value)
  }

  /** The write loop from target `i` on: how it ends, and how many targets were written in all. */
  function WriteFrom(targets: seq<Prepared>, site: Site, i: nat): (r: (Ending, nat))
    requires i <= |targets|
    ensures i <= r.1 <= |targets|
    decreases |targets| - i
  {
    var partial := Reported(BatchReport(false, "batch_partial_failure", i, |targets|));
    if i == |targets| then (Reported(BatchReport(true, "batch_execute_verified", i, |targets|)), i)
    else
      match site.current(i + 1)
      case Raises => (Raised, i)
      case Escapes => (Escaped, i)
      case Value(isCurrent) =>
        if !isCurrent then (partial, i)
        else if site.write(i).Escapes? then (Escaped, i + 1)
        else if Succeeds(targets, site, i) then WriteFrom(targets, site, i + 1)
        else (partial, i + 1)
  }

  function BatchKey(c: BatchCall, targets: seq<Prepared>): Key
    requires targets != []
  {
    Key(c.requestId, c.ids, targets[0].target.operation)
  }

  function Stored(receipts: Receipts, key: Key, ending: Ending): Receipts {
    if key.requestId != "" && ending.Reported? then receipts[key := ending.report] else receipts
  }

  lemma PassedIsNotEmpty(c: BatchCall)
    ensures PreflightOf(c).Passed? ==> |PreflightOf(c).targets| == |c.ids| && 0 < |c.ids|
  {
    if PreflightOf(c).Passed? {
      PreflightPassesExactly(c, PreflightOf(c).targets);
    }
  }

  /** The inner call; `Raised` is what the wrapper catches. */
  function BatchInner(receipts: Receipts, c: BatchCall): Effect {
    match PreflightOf(c)
    case Stopped(ending) => Effect(receipts, ending, [])
    case Refused(response) => Effect(receipts, Reported(BatchReport(false, response, 0, |c.ids|)), [])
    case Passed(targets) =>
      PassedIsNotEmpty(c);
      var key := BatchKey(c, targets);
      if c.requestId != "" && key in receipts then Effect(receipts, Reported(receipts[key]), [])
      else
        var (ending, written) := WriteFrom(targets, c.site, 0);
        Effect(Stored(receipts, key, ending), ending, Entities(targets)[..written])
  }

  /** The public call: an error it knows becomes a report of no verified targets. */
  function BatchOuter(receipts: Receipts, c: BatchCall): Effect {
    var inner := BatchInner(receipts, c);
    if inner.ending == Raised then inner.(ending := Reported(BatchReport(false, "batch_partial_failure", 0, |c.ids|))) else inner
  }

  /** The call goes into its write loop with these targets. */
  predicate Writes(receipts: Receipts, c: BatchCall, targets: seq<Prepared>) {
    && targets != [] && PreflightOf(c) == Passed(targets)
    && (c.requestId == "" || BatchKey(c, targets) !in receipts)
  }

  /** Nothing stops the loop at target `j`. */
  predicate Passes(targets: seq<Prepared>, site: Site, j: nat)
    requires j < |targets|
  {
    site.current(j + 1) == Value(true) && Succeeds(targets, site, j)
  }

  /** The loop got past the first `k` targets. */
  predicate GotPast(targets: seq<Prepared>, site: Site, k: nat) {
    k <= |targets| && forall j :: 0 <= j < k ==> Passes(targets, site, j)
  }

  /** The loop verified exactly the first `k` targets, wrote `written` of them and ended so. */
  predicate StopsAt(targets: seq<Prepared>, site: Site, k: nat, ending: Ending, written: nat) {
    && GotPast(targets, site, k) && k <= written <= k + 1
    && (ending.Reported? ==>
          ending.report == BatchReport(k == |targets|, if k == |targets| then "batch_execute_verified" else "batch_partial_failure", k, |targets|))
    && (k == |targets| ==> ending.Reported? && written == k)
    && (k < |targets| ==> !Passes(targets, site, k) && (written == k + 1 <==> site.current(k + 1) == Value(true)))
    && (ending == Raised <==> k < |targets| && site.current(k + 1) == Raises)
  }

  lemma {:induction false} LoopStops(targets: seq<Prepared>, site: Site, i: nat) returns (k: nat)
    requires GotPast(targets, site, i)
    ensures i <= k && StopsAt(targets, site, k, WriteFrom(targets, site, i).0, WriteFrom(targets, site, i).1)
    decreases |targets| - i
  {
    if i < |targets| && Passes(targets, site, i) {
      assert GotPast(targets, site, i + 1);
      k := LoopStops(targets, site, i + 1);
    } else {
      k := i;
    }
  }

  lemma LoopStopsOnce(targets: seq<Prepared>, site: Site, stop: nat, k: nat)
    requires k < |targets| && GotPast(targets, site, k) && site.current(k + 1) == Raises
    requires GotPast(targets, site, stop) && (stop < |targets| ==> !Passes(targets, site, stop))
    ensures stop == k
  {
    assert k < stop ==> Passes(targets, site, k);
  }

  /**
   A batch that goes into its loop writes a prefix of its targets.  The report counts the targets that were verified, in
   order, and all of them exactly when it is positive; one more target may have been written, and nothing beyond it.
   */
  lemma BatchCountsWhatItVerified(receipts: Receipts, c: BatchCall, targets: seq<Prepared>)
    requires Writes(receipts, c, targets) && BatchInner(receipts, c).ending.Reported?
    ensures var e := BatchOuter(receipts, c);
      && e.writes <= Entities(targets)
      && e.ending.Reported? && e.ending.report.BatchReport?
      && var report := e.ending.report;
         && report.total == |c.ids| == |targets|
         && (report.ok <==> report.verified == report.total)
         && report.verified <= |e.writes| <= report.verified + 1
         && GotPast(targets, c.site, report.verified)
         && (!report.ok ==> !Passes(targets, c.site, report.verified))
  {
    PassedIsNotEmpty(c);
    var k := LoopStops(targets, c.site, 0);
  }

  /** Nothing is written by a batch that does not reach its loop. */
  lemma NoWriteWithoutPreflight(receipts: Receipts, c: BatchCall)
    requires BatchOuter(receipts, c).writes != []
    ensures exists targets :: Writes(receipts, c, targets) && BatchOuter(receipts, c).writes <= Entities(targets)
  {
    PassedIsNotEmpty(c);
    assert Writes(receipts, c, PreflightOf(c).targets);
  }

  /**
   The wrapper reports zero verified targets for every call that raised.  That hides writes exactly when a freshness check
   raised after the first write; every write it hides was verified.
   */
  lemma WrapperMiscountsExactly(receipts: Receipts, c: BatchCall, targets: seq<Prepared>)
    requires Writes(receipts, c, targets)
    ensures BatchInner(receipts, c).ending == Raised ==> BatchOuter(receipts, c).ending.Reported? && BatchOuter(receipts, c).ending.report.verified == 0
    ensures (BatchInner(receipts, c).ending == Raised && BatchOuter(receipts, c).writes != []) <==>
      exists k: nat :: 0 < k < |targets| && GotPast(targets, c.site, k) && c.site.current(k + 1) == Raises
  {
    PassedIsNotEmpty(c);
    var stop := LoopStops(targets, c.site, 0);
    if k: nat :| 0 < k < |targets| && GotPast(targets, c.site, k) && c.site.current(k + 1) == Raises {
      LoopStopsOnce(targets, c.site, stop, k);
    }
  }

  /**
   The check of the executor that ships reads attributes and does not raise; then a report of zero verified targets for a
   call that raised hides no write.
   */
  lemma ChecksThatDoNotRaiseHideNothing(receipts: Receipts, c: BatchCall)
    requires forall k: nat :: c.site.current(k).Value?
    ensures BatchInner(receipts, c).ending == Raised ==> BatchOuter(receipts, c).writes == []
  {
    PassedIsNotEmpty(c);
    if PreflightOf(c).Passed? && Writes(receipts, c, PreflightOf(c).targets) {
      WrapperMiscountsExactly(receipts, c, PreflightOf(c).targets);
    }
  }

  function Showing(state: string): Reading {
    Reading(state, None, None, None, None, None, None)
  }

  function Lamp(id: string): Target {
    Target(id, "", "light." + id, "light", "turn_on", "light", "turn_on", Schema(Some([]), map[]), "routine")
  }

  /** Every reading and write succeeds, but the check before the second write raises. */
  const RAISING := Site(id => Value(Some(Lamp(id))), entity => Value(Showing("off")),
                        (k: nat) => if k == 2 then Raises else Value(true), (k: nat) => Value(Written(true, Showing("on"))))

  const LAMPS: seq<Prepared> := [Prepared(Lamp("a"), Showing("off")), Prepared(Lamp("b"), Showing("off"))]

  lemma TwoLampsPass(c: BatchCall)
    requires c == BatchCall(["a", "b"], "r1", "r1", "", RAISING)
    ensures PreflightOf(c) == Passed(LAMPS)
  {
    assert Lamp("a").entityId[6] == 'a' && Lamp("b").entityId[6] == 'b';
    PreflightPassesExactly(c, LAMPS);
  }

  lemma SecondLampRaises()
    ensures WriteFrom(LAMPS, RAISING, 0) == (Raised, 1) && Entities(LAMPS)[..1] == ["light.a"]
  {
    assert Succeeds(LAMPS, RAISING, 0);
    assert WriteFrom(LAMPS, RAISING, 1) == (Raised, 1);
    assert "light." + "a" == "light.a";
  }

  /** Another executor's check may raise before the second of two writes; the first one then goes unreported. */
  lemma ARaisingCheckHidesAWrite() returns (c: BatchCall)
    ensures BatchOuter(map[], c) == Effect(map[], Reported(BatchReport(false, "batch_partial_failure", 0, 2)), ["light.a"])
  {
    c := BatchCall(["a", "b"], "r1", "r1", "", RAISING);
    TwoLampsPass(c);
    SecondLampRaises();
  }

  // ---------------------------------------------------------------------------------------------------------
  // Single proposals
  // ---------------------------------------------------------------------------------------------------------

  datatype SingleCall = SingleCall(id: string, parameters: Values, expected: string, current: string, confirmed: bool,
                                   requestId: string, site: Site)

  /** The pairs of domain and operation Core executes at all. */
  const EXECUTABLE: set<(string, string)> :=
    {("light", "turn_on"), ("light", "turn_off"), ("light", "toggle"), ("light", "set_brightness"),
     ("switch", "turn_on"), ("switch", "turn_off"), ("switch", "toggle"),
     ("fan", "turn_on"), ("fan", "turn_off"), ("fan", "toggle"),
     ("media_player", "turn_on"), ("media_player", "turn_off"), ("media_player", "play"), ("media_player", "pause"),
     ("media_player", "stop"), ("media_player", "set_volume"),
     ("climate", "set_temperature"), ("climate", "set_hvac_mode"),
     ("lock", "lock"), ("lock", "unlock"),
     ("cover", "open_cover"), ("cover", "close_cover"), ("garage", "open_cover"), ("garage", "close_cover")}

  predicate Executable(t: Target) {
    (t.domain, t.operation) in EXECUTABLE
  }

  /** What the target of a single proposal is checked for, in order; `None` when it passes. */
  function Objection(t: Target, parameters: Values, confirmed: bool): Option<string> {
    if !Executable(t) then Some("candidate_not_allowed")
    else if !Accepts(Core, t.schema, parameters) then Some("invalid_parameters")
    else if t.risk == "blocked" then Some("policy_denied")
    else if t.risk == "confirm" && !confirmed then Some("confirmation_required")
    else None
  }

  function SingleRefusal(receipts: Receipts, response: string): Effect {
    Effect(receipts, Reported(SingleReport(false, response)), [])
  }

  /** A toggle has no key: repeating it is another toggle. */
  function SingleKey(c: SingleCall, t: Target): Option<Key> {
    if c.requestId != "" && t.operation != "toggle" then Some(Key(c.requestId, [c.id], t.operation)) else None
  }

  function SingleOutcome(verified: bool): Report {
    SingleReport(verified, if verified then "execute_verified" else "post_action_unverified")
  }

  /** From the reading before the write to the stored receipt. */
  function SingleWrite(receipts: Receipts, c: SingleCall, t: Target): Effect {
    match c.site.before(t.entityId)
    case Escapes => Effect(receipts, Escaped, [])
    case Raises => SingleRefusal(receipts, "execution_failed")
    case Value(before) =>
      if Unreadable(before) then SingleRefusal(receipts, "candidate_not_allowed")
      else
        match c.site.write(0)
        case Escapes => Effect(receipts, Escaped, [t.entityId])
        case Raises => Effect(receipts, Reported(SingleReport(false, "execution_failed")), [t.entityId])
        case Value(w) =>
          var report := SingleOutcome(Verified(t.operation, c.parameters, before, w));
          Effect(if SingleKey(c, t).Some? then receipts[SingleKey(c, t).value := report] else receipts,
                 Reported(report), [t.entityId])
  }

  function SingleTarget(receipts: Receipts, c: SingleCall, t: Target): Effect {
    var objection := Objection(t, c.parameters, c.confirmed);
    if objection.Some? then SingleRefusal(receipts, objection.value)
    else if SingleKey(c, t).Some? && SingleKey(c, t).value in receipts then
      Effect(receipts, Reported(receipts[SingleKey(c, t).value]), [])
    else SingleWrite(receipts, c, t)
  }

  /** The target a single call gets as far as, or how it ends before. */
  function SingleFound(c: SingleCall): Result<Target, Ending> {
    if c.expected != c.current then Err(Reported(SingleReport(false, "profile_stale")))
    else
      match c.site.current(0)
      case Raises => Err(Raised)
      case Escapes => Err(Escaped)
      case Value(isCurrent) =>
        if !isCurrent then Err(Reported(SingleReport(false, "profile_stale")))
        else
          match c.site.resolve(c.id)
          case Raises => Err(Raised)
          case Escapes => Err(Escaped)
          case Value(found) =>
            if found.None? then Err(Reported(SingleReport(false, "candidate_not_allowed"))) else Ok(found.value)
  }

  function SingleInner(receipts: Receipts, c: SingleCall): Effect {
    match SingleFound(c)
    case Err(ending) => Effect(receipts, ending, [])
    case Ok(t) => SingleTarget(receipts, c, t)
  }

  function SingleOuter(receipts: Receipts, c: SingleCall): Effect {
    var inner := SingleInner(receipts, c);
    if inner.ending == Raised then inner.(ending := Reported(SingleReport(false, "execution_failed"))) else inner
  }

  /** Exactly when a single proposal calls a service: what was resolved, allowed, confirmed, not done before and readable. */
  lemma SingleWritesExactly(receipts: Receipts, c: SingleCall)
    ensures SingleOuter(receipts, c).writes != [] <==>
      && c.expected == c.current && c.site.current(0) == Value(true)
      && c.site.resolve(c.id).Value? && c.site.resolve(c.id).value.Some?
      && var t := c.site.resolve(c.id).value.value;
         && Executable(t) && Accepts(Core, t.schema, c.parameters)
         && t.risk != "blocked" && (t.risk == "confirm" ==> c.confirmed)
         && (c.requestId != "" && t.operation != "toggle" ==> Key(c.requestId, [c.id], t.operation) !in receipts)
         && c.site.before(t.entityId).Value? && c.site.before(t.entityId).value.state !in {"unknown", "unavailable"}
    ensures |SingleOuter(receipts, c).writes| <= 1
    ensures SingleOuter(receipts, c).writes != [] ==> SingleOuter(receipts, c).writes == [c.site.resolve(c.id).value.value.entityId]
  {
    if SingleFound(c).Ok? {
      var t := SingleFound(c).value;
      assert SingleOuter(receipts, c).writes == SingleTarget(receipts, c, t).writes;
      SingleTargetWritesExactly(receipts, c, t);
    }
  }

  lemma SingleTargetWritesExactly(receipts: Receipts, c: SingleCall, t: Target)
    ensures var writes := SingleTarget(receipts, c, t).writes;
      && (writes == [] || writes == [t.entityId])
      && (writes != [] <==>
           && Objection(t, c.parameters, c.confirmed).None?
           && (SingleKey(c, t).Some? ==> SingleKey(c, t).value !in receipts)
           && c.site.before(t.entityId).Value? && !Unreadable(c.site.before(t.entityId).value))
  {
    if Objection(t, c.parameters, c.confirmed).None? && (SingleKey(c, t).Some? ==> SingleKey(c, t).value !in receipts) {
      assert SingleTarget(receipts, c, t) == SingleWrite(receipts, c, t);
      match c.site.before(t.entityId) {
        case Escapes =>
        case Raises =>
        case Value(before) =>
          match c.site.write(0) {
            case Escapes =>
            case Raises =>
            case Value(_) =>
          }
      }
    }
  }

  // ---------------------------------------------------------------------------------------------------------
  // The boundary
  // ---------------------------------------------------------------------------------------------------------

  class ExecutionBoundary {
    var receipts: Receipts

    constructor ()
      ensures receipts == map[]
    {
      receipts := map[];
    }

    /** Every target is resolved, checked and read before the first write. */
    method PrepareBatch(c: BatchCall) returns (p: Preflight)
      ensures p == PreflightOf(c)
    {
      if !BatchShape(c) {
        return Refused("batch_invalid");
      }
      if c.expected != c.current {
        return Refused("profile_stale");
      }
      match c.site.current(0) {
        case Raises => return Stopped(Raised);
        case Escapes => return Stopped(Escaped);
        case Value(isCurrent) =>
          if !isCurrent {
            return Refused("profile_stale");
          }
      }
      var targets: seq<Prepared> := [];
      for i := 0 to |c.ids|
        invariant PreflightFrom(c.ids, c.site, []) == PreflightFrom(c.ids[i..], c.site, targets)
      {
        var checked := Prepare(c.site, c.ids[i]);
        assert c.ids[i..][0] == c.ids[i] && c.ids[i..][1..] == c.ids[i + 1..];
        if checked.Err? {
          return checked.error;
        }
        targets := targets + [checked.value];
      }
      if !Distinct(Entities(targets)) || !OneOperation(targets) {
        return Refused("batch_invalid");
      }
      return Passed(targets);
    }

    /** The sequential writes of a batch; every way out of the loop but an exception leaves a receipt. */
    method WriteBatch(c: BatchCall, targets: seq<Prepared>) returns (ending: Ending, writes: seq<string>)
      requires targets != []
      modifies this
      ensures ending == WriteFrom(targets, c.site, 0).0
      ensures writes == Entities(targets)[..WriteFrom(targets, c.site, 0).1]
      ensures receipts == Stored(old(receipts), BatchKey(c, targets), ending)
    {
      var key := BatchKey(c, targets);
      writes := [];
      for i := 0 to |targets|
        invariant WriteFrom(targets, c.site, 0) == WriteFrom(targets, c.site, i)
        invariant writes == Entities(targets)[..i]
        invariant receipts == old(receipts)
      {
        var partial := Reported(BatchReport(false, "batch_partial_failure", i, |targets|));
        var isCurrent := c.site.current(i + 1);
        if !isCurrent.Value? {
          return if isCurrent.Raises? then Raised else Escaped, writes;
        }
        if !isCurrent.value {
          receipts := Stored(receipts, key, partial);
          return partial, writes;
        }
        writes := writes + [targets[i].target.entityId];
        assert writes == Entities(targets)[..i + 1];
        if c.site.write(i).Escapes? {
          return Escaped, writes;
        }
        if !Succeeds(targets, c.site, i) {
          receipts := Stored(receipts, key, partial);
          return partial, writes;
        }
      }
      ending := Reported(BatchReport(true, "batch_execute_verified", |targets|, |targets|));
      receipts := Stored(receipts, key, ending);
    }

    method ExecuteBatch(c: BatchCall) returns (ending: Ending, writes: seq<string>)
      modifies this
      ensures BatchOuter(old(receipts), c) == Effect(receipts, ending, writes)
    {
      var p := PrepareBatch(c);
      writes := [];
      match p {
        case Stopped(stop) => ending := stop;
        case Refused(response) => ending := Reported(BatchReport(false, response, 0, |c.ids|));
        case Passed(targets) =>
          PassedIsNotEmpty(c);
          if c.requestId != "" && BatchKey(c, targets) in receipts {
            ending := Reported(receipts[BatchKey(c, targets)]);
          } else {
            ending, writes := WriteBatch(c, targets);
          }
      }
      if ending == Raised {
        ending := Reported(BatchReport(false, "batch_partial_failure", 0, |c.ids|));
      }
    }

    method WriteSingle(c: SingleCall, t: Target) returns (ending: Ending, writes: seq<string>)
      modifies this
      ensures SingleWrite(old(receipts), c, t) == Effect(receipts, ending, writes)
    {
      writes := [];
      var before := c.site.before(t.entityId);
      if before.Escapes? {
        return Escaped, [];
      }
      if before.Raises? {
        return Reported(SingleReport(false, "execution_failed")), [];
      }
      if Unreadable(before.value) {
        return Reported(SingleReport(false, "candidate_not_allowed")), [];
      }
      writes := [t.entityId];
      match c.site.write(0) {
        case Escapes => ending := Escaped;
        case Raises => ending := Reported(SingleReport(false, "execution_failed"));
        case Value(w) =>
          ending := Reported(SingleOutcome(Verified(t.operation, c.parameters, before.value, w)));
          if SingleKey(c, t).Some? {
            receipts := receipts[SingleKey(c, t).value := ending.report];
          }
      }
    }

    method ExecuteSingle(c: SingleCall) returns (ending: Ending, writes: seq<string>)
      modifies this
      ensures SingleOuter(old(receipts), c) == Effect(receipts, ending, writes)
    {
      writes := [];
      var found := SingleFound(c);
      match found {
        case Err(stop) => ending := stop;
        case Ok(t) =>
          var objection := Objection(t, c.parameters, c.confirmed);
          if objection.Some? {
            ending := Reported(SingleReport(false, objection.value));
          } else if SingleKey(c, t).Some? && SingleKey(c, t).value in receipts {
            ending := Reported(receipts[SingleKey(c, t).value]);
          } else {
            ending, writes := WriteSingle(c, t);
          }
      }
      if ending == Raised {
        ending := Reported(SingleReport(false, "execution_failed"));
      }
    }
  }

  // ---------------------------------------------------------------------------------------------------------
  // Receipts over runs of calls, one after the other
  // ---------------------------------------------------------------------------------------------------------

  datatype Call = Batch(batch: BatchCall) | Single(single: SingleCall)

  function Perform(receipts: Receipts, call: Call): Effect {
    match call
    case Batch(c) => BatchOuter(receipts, c)
    case Single(c) => SingleOuter(receipts, c)
  }

  /** The key a call would look its receipt up under, when it gets as far as looking. */
  function LookupKey(call: Call): Option<Key> {
    match call
    case Batch(c) =>
      PassedIsNotEmpty(c);
      if PreflightOf(c).Passed? && c.requestId != "" then Some(BatchKey(c, PreflightOf(c).targets)) else None
    case Single(c) =>
      if SingleFound(c).Ok? && Objection(SingleFound(c).value, c.parameters, c.confirmed).None?
      then SingleKey(c, SingleFound(c).value) else None
  }

  /** What one call does to the receipts: nothing, or it adds its own report under its own key, after a write or a stop. */
  lemma BatchStoresOnce(receipts: Receipts, c: BatchCall)
    ensures var e := BatchOuter(receipts, c);
      var key := LookupKey(Batch(c));
      && (key.Some? && key.value in receipts ==> e == Effect(receipts, Reported(receipts[key.value]), []))
      && (e.receipts == receipts || (key.Some? && key.value !in receipts && e.ending.Reported? && e.receipts == receipts[key.value := e.ending.report]))
      && (key.Some? && e.writes != [] ==> (e.receipts != receipts <==> BatchInner(receipts, c).ending.Reported?))
  {
    PassedIsNotEmpty(c);
    if PreflightOf(c).Passed? && LookupKey(Batch(c)).Some? {
      var key := LookupKey(Batch(c)).value;
      var ending := BatchInner(receipts, c).ending;
      assert key !in receipts && ending.Reported? ==> key in Stored(receipts, key, ending);
    }
  }

  lemma SingleStoresOnce(receipts: Receipts, c: SingleCall)
    ensures var e := SingleOuter(receipts, c);
      var key := LookupKey(Single(c));
      && (key.Some? && key.value in receipts ==> e == Effect(receipts, Reported(receipts[key.value]), []))
      && (e.receipts == receipts || (key.Some? && key.value !in receipts && e.ending.Reported? && e.receipts == receipts[key.value := e.ending.report]))
      && (key.Some? && e.writes != [] ==> (e.receipts != receipts <==> c.site.write(0).Value?))
  {
    if LookupKey(Single(c)).Some? && LookupKey(Single(c)).value !in receipts {
      var key := LookupKey(Single(c)).value;
      var t := SingleFound(c).value;
      assert SingleInner(receipts, c) == SingleWrite(receipts, c, t);
      SingleWriteStores(receipts, c, t);
    }
  }

  lemma SingleWriteStores(receipts: Receipts, c: SingleCall, t: Target)
    requires SingleKey(c, t).Some? && SingleKey(c, t).value !in receipts
    ensures var e := SingleWrite(receipts, c, t);
      var key := SingleKey(c, t).value;
      && e.ending != Raised
      && if e.writes != [] && c.site.write(0).Value? then e.ending.Reported? && e.receipts == receipts[key := e.ending.report] && e.receipts != receipts
         else e.receipts == receipts
  {
    if c.site.before(t.entityId).Value? && c.site.write(0).Value? {
      var report := SingleOutcome(Verified(t.operation, c.parameters, c.site.before(t.entityId).value, c.site.write(0).value));
      assert SingleKey(c, t).value in receipts[SingleKey(c, t).value := report];
    }
  }

  /** The call ran its writes to an end that is worth remembering. */
  predicate Completes(receipts: Receipts, call: Call) {
    match call
    case Batch(c) => BatchInner(receipts, c).ending.Reported?
    case Single(c) => c.site.write(0).Value?
  }

  /** One call of a run as the receipts see it. */
  datatype Entry = Entry(before: Receipts, key: Option<Key>, effect: Effect, completes: bool)

  /** An entry answers from the receipt of its key; or it leaves the receipts alone, or adds its report when it completes. */
  predicate Orderly(x: Entry) {
    && (x.key.Some? && x.key.value in x.before ==> x.effect == Effect(x.before, Reported(x.before[x.key.value]), []))
    && (x.effect.receipts == x.before
        || (x.key.Some? && x.key.value !in x.before && x.effect.ending.Reported?
            && x.effect.receipts == x.before[x.key.value := x.effect.ending.report]))
    && (x.key.Some? && x.effect.writes != [] ==> (x.effect.receipts != x.before <==> x.completes))
  }

  /** A run from an empty boundary. */
  predicate Log(log: seq<Entry>) {
    && (log != [] ==> log[0].before == map[])
    && (forall k :: 0 <= k < |log| ==> Orderly(log[k]))
    && forall k :: 0 < k < |log| ==> log[k].before == log[k - 1].effect.receipts
  }

  function EntryOf(receipts: Receipts, call: Call): Entry {
    Entry(receipts, LookupKey(call), Perform(receipts, call), Completes(receipts, call))
  }

  lemma PerformStoresOnce(receipts: Receipts, call: Call)
    ensures Orderly(EntryOf(receipts, call))
  {
    match call
    case Batch(c) => BatchStoresOnce(receipts, c);
    case Single(c) => SingleStoresOnce(receipts, c);
  }

  /** What a run of calls, one after the other, leaves in the log. */
  function LogOf(calls: seq<Call>): (log: seq<Entry>)
    ensures |log| == |calls|
  {
    if calls == [] then []
    else
      var n := |calls| - 1;
      var log := LogOf(calls[..n]);
      log + [EntryOf(if n == 0 then map[] else log[n - 1].effect.receipts, calls[n])]
  }

  lemma {:induction false} RunsAreLogs(calls: seq<Call>)
    ensures Log(LogOf(calls))
  {
    if calls == [] {
    } else {
      var n := |calls| - 1;
      RunsAreLogs(calls[..n]);
      PerformStoresOnce(if n == 0 then map[] else LogOf(calls[..n])[n - 1].effect.receipts, calls[n]);
    }
  }

  /** A receipt is never changed or dropped. */
  lemma {:induction false} ReceiptsAreFinal(log: seq<Entry>, i: nat, j: nat, key: Key)
    requires Log(log) && i <= j < |log| && key in log[i].before
    ensures key in log[j].before && log[j].before[key] == log[i].before[key]
    decreases j - i
  {
    if i < j {
      ReceiptsAreFinal(log, i, j - 1, key);
      assert Orderly(log[j - 1]);
    }
  }

  /** Once there is a receipt for a key, every later call that looks it up answers with it and writes nothing. */
  lemma RepeatsAreHarmless(log: seq<Entry>, i: nat, k: nat, key: Key)
    requires Log(log) && i <= k < |log| && key in log[i].before && log[k].key == Some(key)
    ensures log[k].effect == Effect(log[k].before, Reported(log[i].before[key]), [])
  {
    ReceiptsAreFinal(log, i, k, key);
    assert Orderly(log[k]);
  }

  /** Two calls of a run write under the same key only if the earlier one was cut short by an exception. */
  lemma OneWritePassPerKey(log: seq<Entry>, i: nat, k: nat, key: Key)
    requires Log(log) && i < k < |log| && log[i].key == Some(key) == log[k].key
    requires log[i].effect.writes != [] && log[k].effect.writes != []
    ensures !log[i].completes
  {
    assert Orderly(log[i]);
    if key in log[i + 1].before {
      RepeatsAreHarmless(log, i + 1, k, key);
    }
  }

  /** A receipt is the report of one earlier call that looked this key up and found nothing. */
  lemma {:induction false} ReceiptsAreReports(log: seq<Entry>, n: nat, key: Key) returns (i: nat)
    requires Log(log) && n < |log| && key in log[n].before
    ensures i < n && log[i].key == Some(key) && key !in log[i].before
    ensures log[i].effect.ending == Reported(log[n].before[key])
  {
    assert Orderly(log[n - 1]);
    if key in log[n - 1].before {
      i := ReceiptsAreReports(log, n - 1, key);
    } else {
      i := n - 1;
    }
  }
}
