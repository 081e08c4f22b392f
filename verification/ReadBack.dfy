/** What "verified" means: the service call succeeded, and the entity was read back as the operation promises. */
module ReadBack {
  import opened Common
  import opened Execution
  import opened Parameters

  /** The states that show that an operation was carried out. */
  const SHOWN: set<(string, string)> := {
    ("turn_on", "on"), ("turn_on", "playing"), ("turn_off", "off"), ("play", "playing"), ("pause", "paused"),
    ("stop", "idle"), ("stop", "off"), ("stop", "standby"), ("lock", "locked"), ("unlock", "unlocked"),
    ("open_cover", "open"), ("open_cover", "opening"), ("close_cover", "closed"), ("close_cover", "closing")}

  /** A number was asked for under this name. */
  predicate Asked(parameters: Values, name: string, n: real) {
    name in parameters && parameters[name] == Number(n)
  }

  predicate Within(actual: real, n: real, tolerance: real) {
    n - tolerance <= actual <= n + tolerance
  }

  /** A reading of the brightness in percent, or else the one of 255. */
  ghost predicate ShowsBrightness(r: Reading, n: real) {
    match (r.brightnessPct, r.brightness)
    case (Some(pct), _) => Within(pct, n, 2.0)
    case (None, Some(raw)) => 255.0 * (n - 2.0) <= 100.0 * raw <= 255.0 * (n + 2.0)
    case (None, None) => false
  }

  ghost predicate Shows(operation: string, parameters: Values, before: Reading, after: Reading) {
    && after.state !in {"unknown", "unavailable"}
    && ((operation, after.state) in SHOWN
        || (operation == "toggle" && after.state != before.state)
        || (operation == "set_brightness" && exists n :: Asked(parameters, "brightness", n) && ShowsBrightness(after, n))
        || (operation == "set_volume" && exists n :: Asked(parameters, "volume", n) && after.volumeLevel.Some? && Within(after.volumeLevel.value, n, 0.02))
        || (operation == "set_temperature" && exists n :: Asked(parameters, "temperature", n) && after.temperature.Some? && Within(after.temperature.value, n, 0.2))
        || (operation == "set_hvac_mode" && ShowsMode(parameters, after))
        || (operation == "activate" && after.lastTriggered != before.lastTriggered))
  }

  /** The mode that was asked for is the one read back, as an attribute or as the state; without one, none is. */
  predicate ShowsMode(parameters: Values, after: Reading) {
    if "hvac_mode" !in parameters then after.hvacMode.None?
    else parameters["hvac_mode"] == Text(after.state) || (after.hvacMode.Some? && parameters["hvac_mode"] == Text(after.hvacMode.value))
  }

  lemma StatesMean(operation: string, state: string)
    ensures (operation, state) in SHOWN <==> StatesAfter(operation).Some? && state in StatesAfter(operation).value
    ensures operation in {"toggle", "set_brightness", "set_volume", "set_temperature", "set_hvac_mode", "activate"} ==> StatesAfter(operation).None?
  {
    assert "turn_on" != "turn_off" && "lock" != "unlock" by {
      assert |"turn_on"| != |"turn_off"| && |"lock"| != |"unlock"|;
    }
  }

  lemma NearMeans(actual: Option<real>, parameters: Values, name: string, tolerance: real)
    ensures Near(actual, parameters, name, tolerance) <==>
      exists n :: Asked(parameters, name, n) && actual.Some? && Within(actual.value, n, tolerance)
  {
    if name in parameters && parameters[name].Number? {
      assert Asked(parameters, name, parameters[name].n);
    }
  }

  lemma BrightnessMeans(r: Reading, parameters: Values)
    ensures Near(Brightness(r), parameters, "brightness", 2.0) <==> exists n :: Asked(parameters, "brightness", n) && ShowsBrightness(r, n)
  {
    NearMeans(Brightness(r), parameters, "brightness", 2.0);
    forall n | Asked(parameters, "brightness", n)
      ensures ShowsBrightness(r, n) <==> Brightness(r).Some? && Within(Brightness(r).value, n, 2.0)
    {
    }
  }

  lemma ModeMeans(parameters: Values, after: Reading)
    ensures (ModeMatches(after.hvacMode, parameters) || ModeMatches(Some(after.state), parameters)) <==> ShowsMode(parameters, after)
  {
  }

  /** The verdict on a write, for every operation. */
  lemma VerifiedMeans(operation: string, parameters: Values, before: Reading, w: Written)
    ensures Verified(operation, parameters, before, w) <==> w.ok && Shows(operation, parameters, before, w.after)
  {
    StatesMean(operation, w.after.state);
    BrightnessMeans(w.after, parameters);
    NearMeans(w.after.volumeLevel, parameters, "volume", 0.02);
    NearMeans(w.after.temperature, parameters, "temperature", 0.2);
    ModeMeans(parameters, w.after);
  }

  // ---------------------------------------------------------------------------------------------------------
  // Reports
  // ---------------------------------------------------------------------------------------------------------

  /**
   A single call that reaches its service reports success if and only if the service returned, said so, and the entity reads
   back as the operation promises; then and only then does it store a success.
   */
  lemma SingleVerdictExactly(receipts: Receipts, c: SingleCall)
    requires SingleOuter(receipts, c).writes != []
    ensures var e, t := SingleOuter(receipts, c), c.site.resolve(c.id).value.value;
      && (e.ending == Reported(SingleReport(true, "execute_verified")) <==>
            exists w :: c.site.write(0) == Value(w) && w.ok && Shows(t.operation, c.parameters, c.site.before(t.entityId).value, w.after))
      && (c.site.write(0).Value? && e.ending != Reported(SingleReport(true, "execute_verified")) ==>
            e.ending == Reported(SingleReport(false, "post_action_unverified")))
      && (c.site.write(0) == Raises ==> e.ending == Reported(SingleReport(false, "execution_failed")) && e.receipts == receipts)
      && (c.site.write(0).Value? ==>
            e.receipts == if c.requestId != "" && t.operation != "toggle" then receipts[Key(c.requestId, [c.id], t.operation) := e.ending.report]
                          else receipts)
  {
    SingleWritesExactly(receipts, c);
    var t := c.site.resolve(c.id).value.value;
    assert SingleOuter(receipts, c) == SingleWrite(receipts, c, t);
    if c.site.write(0).Value? {
      VerifiedMeans(t.operation, c.parameters, c.site.before(t.entityId).value, c.site.write(0).value);
    }
  }

  /** A call that reaches no service reports a success only as the stored receipt of an earlier one. */
  lemma NoSuccessWithoutService(receipts: Receipts, c: SingleCall)
    requires SingleOuter(receipts, c).writes == [] && SingleOuter(receipts, c).ending.Reported? && SingleOuter(receipts, c).ending.report.ok
    ensures SingleFound(c).Ok?
    ensures var t := SingleFound(c).value;
      && c.requestId != "" && t.operation != "toggle"
      && Key(c.requestId, [c.id], t.operation) in receipts
      && SingleOuter(receipts, c) == Effect(receipts, Reported(receipts[Key(c.requestId, [c.id], t.operation)]), [])
  {
  }

  /**
   The first `verified` targets of a batch that wrote were called successfully and read back on or off, as the batch was to turn
   them; if the report is positive that is every target, and if not the next one was not current or not turned so.
   */
  lemma BatchVerdictMeans(receipts: Receipts, c: BatchCall, targets: seq<Prepared>)
    requires Writes(receipts, c, targets) && BatchInner(receipts, c).ending.Reported?
    ensures var report := BatchOuter(receipts, c).ending.report;
      && report.BatchReport? && report.verified <= |targets| && (report.ok <==> report.verified == |targets|)
      && (forall j :: 0 <= j < report.verified ==> TurnedAs(targets[j], c.site.write(j)))
      && (!report.ok ==> !(c.site.current(report.verified + 1) == Value(true) && TurnedAs(targets[report.verified], c.site.write(report.verified))))
  {
    PassedIsNotEmpty(c);
    PreflightPassesExactly(c, targets);
    BatchCountsWhatItVerified(receipts, c, targets);
    var k := BatchOuter(receipts, c).ending.report.verified;
    forall j | 0 <= j < k ensures TurnedAs(targets[j], c.site.write(j)) {
      assert Execution.Passes(targets, c.site, j);
      assert BatchTarget(targets[j].target);
      TurnedMeans(targets[j], c.site.write(j).value);
    }
    if k < |targets| && c.site.write(k).Value? {
      assert BatchTarget(targets[k].target);
      TurnedMeans(targets[k], c.site.write(k).value);
    }
  }

  predicate TurnedAs(p: Prepared, written: Fallible<Written>) {
    && written.Value? && written.value.ok
    && (p.target.operation == "turn_on" ==> written.value.after.state in {"on", "playing"})
    && (p.target.operation == "turn_off" ==> written.value.after.state == "off")
    && p.target.operation in {"turn_on", "turn_off"}
  }

  lemma TurnedMeans(p: Prepared, w: Written)
    requires BatchTarget(p.target)
    ensures Verified(p.target.operation, map[], p.before, w) <==> TurnedAs(p, Value(w))
  {
    VerifiedMeans(p.target.operation, map[], p.before, w);
    BatchTargetsAre(p.target);
  }

  /** Why a single call reaches no service: the first gate that fails names itself. */
  lemma SingleRefusedBecause(receipts: Receipts, c: SingleCall)
    requires SingleOuter(receipts, c).writes == []
    ensures var ending := SingleOuter(receipts, c).ending;
      && (c.expected != c.current ==> ending == Reported(SingleReport(false, "profile_stale")))
      && (c.expected == c.current && c.site.current(0) == Value(false) ==> ending == Reported(SingleReport(false, "profile_stale")))
      && (c.expected == c.current && c.site.current(0) == Raises ==> ending == Reported(SingleReport(false, "execution_failed")))
      && (c.expected == c.current && c.site.current(0) == Value(true) ==>
            && (c.site.resolve(c.id) == Raises ==> ending == Reported(SingleReport(false, "execution_failed")))
            && (c.site.resolve(c.id) == Value(None) ==> ending == Reported(SingleReport(false, "candidate_not_allowed")))
            && (c.site.resolve(c.id).Value? && c.site.resolve(c.id).value.Some? ==> RefusedFor(receipts, c, c.site.resolve(c.id).value.value)))
  {
    if SingleFound(c).Ok? {
      FoundIsRefused(receipts, c, SingleFound(c).value);
    }
  }

  lemma FoundIsRefused(receipts: Receipts, c: SingleCall, t: Target)
    requires SingleFound(c) == Ok(t) && SingleOuter(receipts, c).writes == []
    ensures RefusedFor(receipts, c, t)
  {
    assert SingleInner(receipts, c) == SingleTarget(receipts, c, t);
  }

  predicate RefusedFor(receipts: Receipts, c: SingleCall, t: Target) {
    var ending := SingleOuter(receipts, c).ending;
    if (t.domain, t.operation) !in EXECUTABLE then ending == Reported(SingleReport(false, "candidate_not_allowed"))
    else if !Accepts(Core, t.schema, c.parameters) then ending == Reported(SingleReport(false, "invalid_parameters"))
    else if t.risk == "blocked" then ending == Reported(SingleReport(false, "policy_denied"))
    else if t.risk == "confirm" && !c.confirmed then ending == Reported(SingleReport(false, "confirmation_required"))
    else if c.requestId != "" && t.operation != "toggle" && Key(c.requestId, [c.id], t.operation) in receipts then
      ending == Reported(receipts[Key(c.requestId, [c.id], t.operation)])
    else
      match c.site.before(t.entityId)
      case Value(before) => ending == Reported(SingleReport(false, "candidate_not_allowed"))
      case Raises => ending == Reported(SingleReport(false, "execution_failed"))
      case Escapes => ending == Escaped
  }

  /** Why a batch does not pass its preflight, as far as nothing raises. */
  lemma BatchRefusedBecause(c: BatchCall)
    requires !PreflightOf(c).Passed?
    ensures !(1 <= |c.ids| <= 32 && Distinct(c.ids)) ==> PreflightOf(c) == Refused("batch_invalid")
    ensures 1 <= |c.ids| <= 32 && Distinct(c.ids) && (c.expected != c.current || c.site.current(0) == Value(false)) ==>
      PreflightOf(c) == Refused("profile_stale")
    ensures PreflightOf(c).Refused? ==> PreflightOf(c).response in {"batch_invalid", "profile_stale", "batch_target_unavailable"}
  {
    PreflightRefuses(c.ids, c.site, []);
  }

  lemma {:induction false} PreflightRefuses(ids: seq<string>, site: Site, targets: seq<Prepared>)
    ensures PreflightFrom(ids, site, targets).Refused? ==> PreflightFrom(ids, site, targets).response == "batch_target_unavailable"
    decreases |ids|
  {
    if ids == [] {
    } else if Prepare(site, ids[0]).Ok? {
      PreflightRefuses(ids[1..], site, targets + [Prepare(site, ids[0]).value]);
    }
  }
}
