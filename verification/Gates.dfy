/** The gates of the gateway and those of Core, applied to one scan that both were built from. */
module Gates {
  import opened Common
  import opened Parameters
  import opened Decisions
  import Adapter
  import Batch
  import Execution
  import GroupCompiler
  import Monitor

  /** The gateway compiled this scan: its entity actions, and routines that have ids of their own. */
  ghost predicate CompiledFrom(home: Home, states: seq<Adapter.State>, services: Adapter.Services, hex: string -> string,
                               routines: seq<Batch.Capability>)
  {
    && Adapter.Opaque(hex) && Adapter.DistinctEntities(states)
    && home.capabilities == Adapter.AllActions(Adapter.BuildOf(states, services, hex).rows, hex) + routines
    && forall c :: c in routines ==> c.operation == "activate" && exists ref :: c.id == Adapter.RoutineId(hex, ref)
  }

  lemma {:induction false} FindInFirst(s: seq<Batch.Capability>, t: seq<Batch.Capability>, c: Batch.Capability)
    requires c in s && forall d :: d in s && d.id == c.id ==> d == c
    ensures Find(s + t, Some(c.id)) == Some(c)
  {
    if s[0].id != c.id {
      assert (s + t)[1..] == s[1..] + t;
      FindInFirst(s[1..], t, c);
    } else {
      assert s[0] in s;
    }
  }

  /** Core resolves an id exactly when the gateway finds an entity action under it, and both see the same thing. */
  lemma ResolvedAlike(home: Home, states: seq<Adapter.State>, services: Adapter.Services, hex: string -> string,
                      routines: seq<Batch.Capability>, id: string)
    requires CompiledFrom(home, states, services, hex, routines)
    ensures var targets := Adapter.BuildOf(states, services, hex).targets;
      id in targets ==> Find(home.capabilities, Some(id)).Some? && Adapter.Agree(Find(home.capabilities, Some(id)).value, targets[id])
    ensures Find(home.capabilities, Some(id)).Some? && id !in Adapter.BuildOf(states, services, hex).targets ==>
      Find(home.capabilities, Some(id)).value in routines
  {
    var actions := Adapter.AllActions(Adapter.BuildOf(states, services, hex).rows, hex);
    Adapter.BothSidesAgree(states, services, hex);
    if id in Adapter.BuildOf(states, services, hex).targets {
      var c := Adapter.TargetHasAction(states, services, hex, id);
      FindInFirst(actions, routines, c);
    }
  }

  lemma RisksAreKnown(states: seq<Adapter.State>, services: Adapter.Services, hex: string -> string, id: string)
    requires Adapter.Opaque(hex) && Adapter.DistinctEntities(states) && id in Adapter.BuildOf(states, services, hex).targets
    ensures var t := Adapter.BuildOf(states, services, hex).targets[id];
      Execution.Executable(t) && t.risk in {"routine", "confirm"}
  {
    var k, o := Adapter.TargetsComeFrom(states, services, hex, |states|, id);
    Adapter.TargetsAreThere(states, services, hex, |states|, k, o);
    Adapter.TableIsExecutable(Adapter.DomainOf(states[k].entityId), o);
  }

  /** Core sends the ids of its own targets as candidates, so scripts and scenes are never among them. */
  predicate SentByCore(request: Request, targets: Adapter.Targets) {
    forall c :: c in request.candidates ==> c.id in targets
  }

  /**
   What the gateway executes for such candidates Core resolves, and of Core's own checks only that of the parameters can
   still fail, as long as the confirmation that the gateway saw reaches Core.
   */
  lemma OnlyParametersCanFail(home: Home, states: seq<Adapter.State>, services: Adapter.Services, hex: string -> string,
                              routines: seq<Batch.Capability>, request: Request, config: PolicyConfig, r: DecisionResult, confirmed: bool)
    requires CompiledFrom(home, states, services, hex, routines) && SafeSingle(request, home, config, r)
    requires SentByCore(request, Adapter.BuildOf(states, services, hex).targets) && (request.confirmation ==> confirmed)
    ensures var targets, id := Adapter.BuildOf(states, services, hex).targets, r.capabilityId.value;
      && id in targets
      && (Execution.Objection(targets[id], r.parameters, confirmed).None? <==> Accepts(Core, targets[id].schema, r.parameters))
  {
    var targets, id := Adapter.BuildOf(states, services, hex).targets, r.capabilityId.value;
    assert id in targets;
    ResolvedAlike(home, states, services, hex, routines, id);
    RisksAreKnown(states, services, hex, id);
  }

  lemma ChosenFor(capabilities: seq<Batch.Capability>, p: Batch.Capability -> bool, id: string) returns (c: Batch.Capability)
    requires id in Batch.IdsOf(Batch.Sort(Batch.Select(capabilities, p)))
    ensures c in capabilities && p(c) && c.id == id
  {
    var chosen := Batch.Sort(Batch.Select(capabilities, p));
    Batch.SortedSelection(capabilities, p);
    var k :| 0 <= k < |chosen| && Batch.IdsOf(chosen)[k] == id;
    c := chosen[k];
    assert c in chosen;
  }

  lemma BuiltFrom(speech: Batch.Speech, revision: string, catalog: Batch.Catalog, digest: string -> string, batch: Batch.BatchGroup, id: string)
    returns (c: Batch.Capability)
    requires Batch.BuildBatch(speech, revision, catalog, digest) == Ok(Some(batch)) && id in batch.members
    ensures c in catalog.capabilities && c.id == id
    ensures c.operation == batch.operation && batch.operation in Execution.BATCH_OPERATIONS
    ensures !speech.saysGroup ==> c.domain in Batch.DOMAINS
  {
    if speech.saysGroup {
      var group := Batch.GroupsNamed(catalog.groups, speech)[0];
      c := ChosenFor(catalog.capabilities, Batch.OfGroup(group.members, batch.operation), id);
    } else {
      var scope := Batch.ScopedBatchIs(speech, revision, catalog, digest, batch);
      c := ChosenFor(catalog.capabilities, Batch.OfScope(batch.domain, batch.operation, scope), id);
      assert batch.domain in Batch.DomainsNamed(speech, Batch.DOMAINS);
    }
  }

  /**
   Core resolves every member of a batch that the gateway lets through, and takes it in a batch exactly when it is a light, a
   switch or a fan: always when a domain was spoken, but a named group may contain others.
   */
  lemma BatchesPassByDomain(home: Home, states: seq<Adapter.State>, services: Adapter.Services, hex: string -> string,
                            routines: seq<Batch.Capability>, groups: seq<GroupCompiler.ProfileGroup>, speech: Batch.Speech, digest: string -> string,
                            batch: Batch.BatchGroup, config: PolicyConfig, r: DecisionResult, id: string)
    requires CompiledFrom(home, states, services, hex, routines) && SafeBatch(batch, home, config, r) && id in batch.members
    requires Batch.BuildBatch(speech, r.revision, Batch.Catalog(home.capabilities, groups), digest) == Ok(Some(batch))
    ensures var targets := Adapter.BuildOf(states, services, hex).targets;
      && id in targets
      && (Execution.BatchTarget(targets[id]) <==> targets[id].domain in Execution.BATCH_DOMAINS)
      && (!speech.saysGroup ==> Execution.BatchTarget(targets[id]))
  {
    var targets := Adapter.BuildOf(states, services, hex).targets;
    var c := BuiltFrom(speech, r.revision, Batch.Catalog(home.capabilities, groups), digest, batch, id);
    NotARoutine(c.operation);
    Adapter.BothSidesAgree(states, services, hex);
    ResolvedAlike(home, states, services, hex, routines, id);
    RisksAreKnown(states, services, hex, id);
    CoreIsStricterExactly(targets[id].schema, map[]);
  }

  lemma NotARoutine(operation: string)
    requires operation in Execution.BATCH_OPERATIONS
    ensures operation != "activate"
  {
    assert "activate"[0] == 'a' && "turn_on"[0] == 't' && "turn_off"[0] == 't';
  }

  /** The capabilities behind a batch's members. */
  ghost predicate Behind(chosen: seq<Batch.Capability>, actions: seq<Batch.Capability>, batch: Batch.BatchGroup) {
    && batch.members == Batch.IdsOf(chosen) && 1 <= |chosen| <= Batch.MAX_TARGETS && Batch.DistinctRefs(chosen)
    && forall c :: c in chosen ==> c in actions && c.operation == batch.operation
  }

  lemma BuiltFromActions(home: Home, states: seq<Adapter.State>, services: Adapter.Services, hex: string -> string,
                         routines: seq<Batch.Capability>, groups: seq<GroupCompiler.ProfileGroup>, speech: Batch.Speech, revision: string,
                         digest: string -> string, batch: Batch.BatchGroup) returns (chosen: seq<Batch.Capability>)
    requires CompiledFrom(home, states, services, hex, routines) && Batch.Compiled(Batch.Catalog(home.capabilities, groups))
    requires Batch.BuildBatch(speech, revision, Batch.Catalog(home.capabilities, groups), digest) == Ok(Some(batch))
    ensures Behind(chosen, Adapter.AllActions(Adapter.BuildOf(states, services, hex).rows, hex), batch)
  {
    var catalog := Batch.Catalog(home.capabilities, groups);
    if speech.saysGroup {
      Batch.NamedBatchesSelectExactly(speech, revision, catalog, digest, batch);
      var group :| group in groups && Batch.NamesGroup(speech, catalog, group, batch);
      chosen := Batch.NamedTargets(catalog, group.members, batch.operation);
    } else {
      Batch.ScopedBatchesSelectExactly(speech, revision, catalog, digest, batch);
      var scope :| Batch.ScopeSpoken(speech, catalog, batch, scope)
        && Batch.Chosen(catalog, batch, Batch.OfScope(batch.domain, batch.operation, scope),
                        Batch.ScopedTargets(catalog, batch.domain, batch.operation, scope));
      chosen := Batch.ScopedTargets(catalog, batch.domain, batch.operation, scope);
    }
    NotARoutine(batch.operation);
  }

  lemma TargetNamesItsEntity(states: seq<Adapter.State>, services: Adapter.Services, hex: string -> string, id: string)
    requires Adapter.Opaque(hex) && Adapter.DistinctEntities(states) && id in Adapter.BuildOf(states, services, hex).targets
    ensures var t := Adapter.BuildOf(states, services, hex).targets[id]; t.adapterRef == Adapter.AdapterRef(hex, t.entityId)
  {
    var k, o := Adapter.TargetsComeFrom(states, services, hex, |states|, id);
    Adapter.TargetsAreThere(states, services, hex, |states|, k, o);
  }

  /** Core's targets for the members: one for each, for different entities and the same operation. */
  lemma MembersDiffer(states: seq<Adapter.State>, services: Adapter.Services, hex: string -> string, batch: Batch.BatchGroup,
                      chosen: seq<Batch.Capability>, i: nat, j: nat)
    requires Adapter.Opaque(hex) && Adapter.DistinctEntities(states)
    requires Behind(chosen, Adapter.AllActions(Adapter.BuildOf(states, services, hex).rows, hex), batch) && i < |chosen| && j < |chosen|
    ensures var targets := Adapter.BuildOf(states, services, hex).targets;
      && batch.members[i] in targets && batch.members[j] in targets
      && targets[batch.members[i]].domain == chosen[i].domain && targets[batch.members[i]].operation == batch.operation
      && (i < j ==> batch.members[i] != batch.members[j] && targets[batch.members[i]].entityId != targets[batch.members[j]].entityId)
  {
    var c, d := chosen[i], chosen[j];
    assert c in chosen && d in chosen;
    Adapter.ActionHasTarget(states, services, hex, c);
    Adapter.ActionHasTarget(states, services, hex, d);
    TargetNamesItsEntity(states, services, hex, c.id);
    TargetNamesItsEntity(states, services, hex, d.id);
    if i < j && c.id == d.id {
      Adapter.ActionsHaveOwnIds(states, services, hex, c, d);
    }
  }

  predicate Readable(site: Execution.Site, t: Execution.Target) {
    site.before(t.entityId).Value? && !Execution.Unreadable(site.before(t.entityId).value)
  }

  /** A call for the members of a batch, at a Core that has these targets. */
  predicate CallsFor(c: Execution.BatchCall, members: seq<string>, targets: Adapter.Targets) {
    c.ids == members && forall id :: id in members ==> id in targets && c.site.resolve(id) == Execution.Value(Some(targets[id]))
  }

  lemma MembersPrepared(c: Execution.BatchCall, members: seq<string>, targets: Adapter.Targets) returns (all: seq<Execution.Prepared>)
    requires CallsFor(c, members, targets) && forall id :: id in members ==> Readable(c.site, targets[id])
    ensures |all| == |members|
    ensures forall k :: 0 <= k < |members| ==> all[k].target == targets[members[k]] && c.site.before(all[k].target.entityId) == Execution.Value(all[k].before)
  {
    all := seq(|members|, k requires 0 <= k < |members| && members[k] in targets && Readable(c.site, targets[members[k]]) =>
      Execution.Prepared(targets[members[k]], c.site.before(targets[members[k]].entityId).value));
  }

  /** Different entities and one operation, as far as the members are concerned. */
  ghost predicate Orderly(members: seq<string>, targets: Adapter.Targets, operation: string) {
    && 1 <= |members| <= Execution.MAX_BATCH && Distinct(members)
    && (forall id :: id in members ==> id in targets && targets[id].operation == operation)
    && forall i, j :: 0 <= i < j < |members| ==> targets[members[i]].entityId != targets[members[j]].entityId
  }

  /** For such members a call passes Core's preflight exactly when Core is current and every target is writable and readable. */
  lemma OrderlyCallsPassExactly(c: Execution.BatchCall, members: seq<string>, targets: Adapter.Targets, operation: string)
    requires CallsFor(c, members, targets) && Orderly(members, targets, operation)
    ensures Execution.PreflightOf(c).Passed? <==>
      && c.expected == c.current && c.site.current(0) == Execution.Value(true)
      && forall id :: id in members ==> Execution.BatchTarget(targets[id]) && Readable(c.site, targets[id])
  {
    var p := Execution.PreflightOf(c);
    if p.Passed? {
      Execution.PreflightPassesExactly(c, p.targets);
      forall id | id in members ensures Execution.BatchTarget(targets[id]) && Readable(c.site, targets[id]) {
        var k :| 0 <= k < |members| && members[k] == id;
        assert c.site.resolve(c.ids[k]) == Execution.Value(Some(p.targets[k].target));
      }
    }
    if c.expected == c.current && c.site.current(0) == Execution.Value(true)
       && forall id :: id in members ==> Execution.BatchTarget(targets[id]) && Readable(c.site, targets[id])
    {
      var all := MembersPrepared(c, members, targets);
      assert forall k :: 0 <= k < |members| ==> members[k] in members;
      Execution.PreflightPassesExactly(c, all);
    }
  }

  lemma BatchesAreOrderly(states: seq<Adapter.State>, services: Adapter.Services, hex: string -> string, batch: Batch.BatchGroup,
                          chosen: seq<Batch.Capability>)
    requires Adapter.Opaque(hex) && Adapter.DistinctEntities(states)
    requires Behind(chosen, Adapter.AllActions(Adapter.BuildOf(states, services, hex).rows, hex), batch)
    ensures Orderly(batch.members, Adapter.BuildOf(states, services, hex).targets, batch.operation)
  {
    forall i, j | 0 <= i < |chosen| && 0 <= j < |chosen|
      ensures var targets := Adapter.BuildOf(states, services, hex).targets;
        && batch.members[i] in targets && batch.members[j] in targets && targets[batch.members[i]].operation == batch.operation
        && (i < j ==> batch.members[i] != batch.members[j] && targets[batch.members[i]].entityId != targets[batch.members[j]].entityId)
    {
      MembersDiffer(states, services, hex, batch, chosen, i, j);
    }
  }

  /**
   A batch that the gateway built and lets through passes the whole of Core's preflight exactly when the profile is current,
   every target is readable, and every member is a light, a switch or a fan, which for a spoken domain they always are.
   */
  lemma BatchesPassPreflightExactly(home: Home, states: seq<Adapter.State>, services: Adapter.Services, hex: string -> string,
                                    routines: seq<Batch.Capability>, groups: seq<GroupCompiler.ProfileGroup>, speech: Batch.Speech,
                                    digest: string -> string, batch: Batch.BatchGroup, config: PolicyConfig, r: DecisionResult,
                                    c: Execution.BatchCall)
    requires CompiledFrom(home, states, services, hex, routines) && Batch.Compiled(Batch.Catalog(home.capabilities, groups))
    requires SafeBatch(batch, home, config, r)
    requires Batch.BuildBatch(speech, r.revision, Batch.Catalog(home.capabilities, groups), digest) == Ok(Some(batch))
    requires CallsFor(c, r.capabilityIds, Adapter.BuildOf(states, services, hex).targets)
    ensures var targets := Adapter.BuildOf(states, services, hex).targets;
      && (Execution.PreflightOf(c).Passed? <==>
            && c.expected == c.current && c.site.current(0) == Execution.Value(true)
            && forall id :: id in c.ids ==> targets[id].domain in Execution.BATCH_DOMAINS && Readable(c.site, targets[id]))
      && (!speech.saysGroup ==> forall id :: id in c.ids ==> targets[id].domain in Execution.BATCH_DOMAINS)
  {
    var targets := Adapter.BuildOf(states, services, hex).targets;
    var chosen := BuiltFromActions(home, states, services, hex, routines, groups, speech, r.revision, digest, batch);
    BatchesAreOrderly(states, services, hex, batch, chosen);
    OrderlyCallsPassExactly(c, batch.members, targets, batch.operation);
    forall id | id in batch.members
      ensures Execution.BatchTarget(targets[id]) <==> targets[id].domain in Execution.BATCH_DOMAINS
      ensures !speech.saysGroup ==> Execution.BatchTarget(targets[id])
    {
      BatchesPassByDomain(home, states, services, hex, routines, groups, speech, digest, batch, config, r, id);
    }
  }

  // ---------------------------------------------------------------------------------------------------------
  // A group with a media player
  // ---------------------------------------------------------------------------------------------------------

  /** An exposed media player whose domain has `turn_on` as its only service. */
  ghost predicate Player(s: Adapter.State, services: Adapter.Services) {
    && Adapter.DomainOf(s.entityId) == "media_player" && '.' in s.entityId
    && !s.disabled && s.exposed && s.available
    && forall service: string :: services("media_player", service) <==> service == "turn_on"
  }

  lemma {:induction false} DomainStops(domain: string, rest: string)
    requires '.' !in domain
    ensures Adapter.DomainOf(domain + "." + rest) == domain
  {
    if domain != "" {
      assert (domain + "." + rest)[1..] == domain[1..] + "." + rest;
      DomainStops(domain[1..], rest);
    }
  }

  lemma {:induction false} NothingElseOffered(s: Adapter.State, services: Adapter.Services, first: string, rest: seq<string>)
    requires Adapter.Offers(s, services, first) && forall o :: o in rest ==> !Adapter.Offers(s, services, o)
    ensures Adapter.Offered(s, services, [first] + rest) == [first]
  {
    var all := [first] + rest;
    assert all[..|all| - 1] == if rest == [] then [] else [first] + rest[..|rest| - 1];
    if rest == [] {
    } else {
      NothingElseOffered(s, services, first, rest[..|rest| - 1]);
    }
  }

  lemma MediaPlayerServices(o: string)
    ensures Adapter.SpecOf("media_player", o).Some? ==>
      && Adapter.SpecOf("media_player", o).value.service == (if o in {"turn_on", "turn_off"} then o else if o == "set_volume" then "volume_set" else "media_" + o)
  {
    assert "media_player"[0] == 'm' && "light"[0] == 'l' && "switch"[0] == 's' && "fan"[0] == 'f';
  }

  lemma TurnOnIsAService()
    ensures Adapter.SpecOf("media_player", "turn_on") == Some(Adapter.OperationSpec("media_player", "turn_on", Adapter.EMPTY, "routine"))
  {
    assert "media_player"[0] == 'm' && "light"[0] == 'l' && "switch"[0] == 's' && "fan"[0] == 'f';
  }

  lemma OtherServicesHaveOtherNames(o: string)
    requires o != "turn_on"
    ensures Adapter.SpecOf("media_player", o).Some? ==> Adapter.SpecOf("media_player", o).value.service != "turn_on"
  {
    MediaPlayerServices(o);
    assert "turn_on"[0] == 't' && "volume_set"[0] == 'v' && ("media_" + o)[0] == 'm';
  }

  lemma PlayerIsTurnedOn(s: Adapter.State, services: Adapter.Services)
    requires Player(s, services)
    ensures Adapter.OperationsOf(s, services) == ["turn_on"]
  {
    var rest := ["turn_off", "play", "pause", "stop", "set_volume"];
    forall o | o in rest ensures !Adapter.Offers(s, services, o) {
      assert o != "turn_on" by {
        assert |"turn_off"| != |"turn_on"|;
      }
      OtherServicesHaveOtherNames(o);
    }
    TurnOnIsAService();
    NothingElseOffered(s, services, "turn_on", rest);
    MediaPlayerOperations(rest);
  }

  lemma MediaPlayerOperations(rest: seq<string>)
    requires rest == ["turn_off", "play", "pause", "stop", "set_volume"]
    ensures Adapter.OperationsFor("media_player") == ["turn_on"] + rest
  {
  }

  lemma PlayerHasRow(s: Adapter.State, services: Adapter.Services)
    requires Player(s, services)
    ensures Adapter.HasRow(s) && !Adapter.IsRoutine(s) && Adapter.RiskOf("media_player") == "routine"
  {
    assert "media_player"[0] == 'm' && "script"[0] == 's' && "scene"[0] == 's' && "group"[0] == 'g';
    assert "lock"[0] == 'l' && "cover"[0] == 'c' && "garage"[0] == 'g';
  }

  lemma TurnOnTakesNothing(attributes: Adapter.Attributes)
    ensures Adapter.SchemaFor("media_player", "turn_on", attributes) == Adapter.EMPTY
  {
    TurnOnIsAService();
    assert "turn_on"[0] == 't' && "set_temperature"[0] == 's' && "set_hvac_mode"[0] == 's';
  }

  /** The capability that the gateway compiles for it. */
  function TurnOn(s: Adapter.State, hex: string -> string): Batch.Capability {
    var ref := Adapter.AdapterRef(hex, s.entityId);
    Batch.Capability(Adapter.CapabilityId(hex, ref, "turn_on"), ref, "media_player", "turn_on", s.area, s.floor, s.labels, true, true,
                     "routine", Adapter.EMPTY)
  }

  lemma PlayerAction(s: Adapter.State, services: Adapter.Services, hex: string -> string)
    requires Player(s, services)
    ensures Adapter.ActionOf(Adapter.RowOf(s, services, hex), hex, "turn_on") == TurnOn(s, hex)
  {
    PlayerIsTurnedOn(s, services);
    PlayerHasRow(s, services);
    TurnOnTakesNothing(s.attributes);
    assert "turn_on" in Adapter.SchemasOf(s, ["turn_on"]);
  }

  lemma PlayerIsTheOnlyRow(s: Adapter.State, services: Adapter.Services, hex: string -> string)
    requires Player(s, services)
    ensures Adapter.BuildOf([s], services, hex).rows == [Adapter.RowOf(s, services, hex)]
  {
    PlayerHasRow(s, services);
    assert Adapter.BuildTo([s], services, hex, 0).rows == [];
  }

  lemma OneAction(row: Adapter.Row, hex: string -> string)
    requires row.exposed && row.operations == ["turn_on"]
    ensures Adapter.AllActions([row], hex) == [Adapter.ActionOf(row, hex, "turn_on")]
  {
    assert [row][..0] == [] && ["turn_on"][..0] == [];
    assert Adapter.Actions(row, hex, ["turn_on"]) == [Adapter.ActionOf(row, hex, "turn_on")];
  }

  lemma PlayerIsTheOnlyAction(s: Adapter.State, services: Adapter.Services, hex: string -> string)
    requires Player(s, services)
    ensures Adapter.AllActions(Adapter.BuildOf([s], services, hex).rows, hex) == [TurnOn(s, hex)]
  {
    PlayerIsTurnedOn(s, services);
    PlayerIsTheOnlyRow(s, services, hex);
    OneAction(Adapter.RowOf(s, services, hex), hex);
    PlayerAction(s, services, hex);
  }

  predicate Permits(config: PolicyConfig) {
    && "media_player" in config.domains && "turn_on" in config.operations && "media_player" !in config.highRisk
    && config.confidence <= 1.0 && 0.0 <= config.ambiguity
  }

  lemma OneTarget(c: Batch.Capability, members: seq<string>, operation: string)
    requires c.adapterRef in members && c.operation == operation && c.exposed
    ensures Batch.NamedTargets(Batch.Catalog([c], []), members, operation) == [c]
  {
    assert [c][1..] == [] && Batch.Sort([c]) == [c];
    assert Batch.Select([c], Batch.OfGroup(members, operation)) == [c];
  }

  lemma OnlyGroup(group: GroupCompiler.ProfileGroup, speech: Batch.Speech)
    requires speech.names(group.name)
    ensures Batch.GroupsNamed([group], speech) == [group]
  {
  }

  /** "Turn on the group ..." for a group of this one player: the gateway makes a batch of it, */
  lemma PlayerGroupIsBuilt(c: Batch.Capability, group: GroupCompiler.ProfileGroup, speech: Batch.Speech, revision: string, digest: string -> string)
    requires c.exposed && Batch.Routine(c) && c.operation == "turn_on" && group.valid && group.members == [c.adapterRef]
    requires speech.saysGroup && speech.action == Some(true) && speech.names(group.name)
    ensures var built := Batch.BuildBatch(speech, revision, Batch.Catalog([c], [group]), digest);
      built.Ok? && built.value.Some? && built.value.value.members == [c.id]
  {
    OnlyGroup(group, speech);
    OneTarget(c, group.members, "turn_on");
    var catalog := Batch.Catalog([c], [group]);
    assert Batch.NamedTargets(catalog, group.members, "turn_on") == [c];
    assert Batch.IdsOf([c]) == [c.id];
  }

  /** and lets it through, */
  lemma PlayerGroupIsExecuted(s: Adapter.State, hex: string -> string, batch: Batch.BatchGroup, request: Request, home: Home, config: PolicyConfig)
    requires home.capabilities == [TurnOn(s, hex)] && home.profile.status == Monitor.Active && Permits(config)
    requires batch.members == [TurnOn(s, hex).id]
    ensures var outcome := EvaluateBatch(request, GroupChosen(batch), batch, home, config);
      outcome.Some? && outcome.value.kind == Execute && outcome.value.capabilityIds == batch.members
  {
    AllowedMeans(home, batch.members[0], 1.0, 0.0, false, config);
    assert Find(home.capabilities, Some(batch.members[0])) == Some(TurnOn(s, hex));
    assert Accepts(Policy, Adapter.EMPTY, map[]);
    assert batch.members[1..] == [];
    assert Objection(request, GroupChosen(batch), batch.members[0], home, config).None?;
    assert FirstObjection(request, GroupChosen(batch), batch.members, home, config).None?;
  }

  /** and Core, which has the same capability from the same scan, refuses it before any write. */
  lemma MediaPlayerGroupsAreRefused(s: Adapter.State, services: Adapter.Services, hex: string -> string, home: Home, group: GroupCompiler.ProfileGroup,
                                    speech: Batch.Speech, digest: string -> string, request: Request, config: PolicyConfig, site: Execution.Site)
    requires Player(s, services) && CompiledFrom(home, [s], services, hex, []) && home.profile.status == Monitor.Active && Permits(config)
    requires group.valid && group.members == [Adapter.AdapterRef(hex, s.entityId)]
    requires speech.saysGroup && speech.action == Some(true) && speech.names(group.name)
    ensures var targets, id := Adapter.BuildOf([s], services, hex).targets, TurnOn(s, hex).id;
      var built := Batch.BuildBatch(speech, request.revision, Batch.Catalog(home.capabilities, [group]), digest);
      && built.Ok? && built.value.Some?
      && var outcome := EvaluateBatch(request, GroupChosen(built.value.value), built.value.value, home, config);
         && outcome.Some? && outcome.value.kind == Execute && outcome.value.capabilityIds == [id]
         && id in targets
         && (site.resolve(id) == Execution.Value(Some(targets[id])) ==>
               Execution.Prepare(site, id) == Err(Execution.Refused("batch_target_unavailable")))
  {
    PlayerIsTheOnlyAction(s, services, hex);
    assert [TurnOn(s, hex)] + [] == [TurnOn(s, hex)];
    PlayerGroupIsBuilt(TurnOn(s, hex), group, speech, request.revision, digest);
    var batch := Batch.BuildBatch(speech, request.revision, Batch.Catalog(home.capabilities, [group]), digest).value.value;
    PlayerGroupIsExecuted(s, hex, batch, request, home, config);
    Adapter.BothSidesAgree([s], services, hex);
    assert TurnOn(s, hex) in Adapter.AllActions(Adapter.BuildOf([s], services, hex).rows, hex);
    NotABatchTarget(Adapter.BuildOf([s], services, hex).targets[TurnOn(s, hex).id]);
  }

  lemma NotABatchTarget(t: Execution.Target)
    requires t.domain == "media_player"
    ensures !Execution.BatchTarget(t)
  {
    assert "media_player"[0] == 'm' && "light"[0] == 'l' && "switch"[0] == 's' && "fan"[0] == 'f';
  }

  /** `media_player.tv` is one, with a registry of that one service. */
  lemma SomePlayer()
    ensures Player(Adapter.State("media_player.tv", false, true, true, "", "", [], Adapter.Attributes(None, None, None)),
                   (domain, service) => domain == "media_player" && service == "turn_on")
  {
    var id := "media_player" + "." + "tv";
    DomainStops("media_player", "tv");
    assert id[12] == '.';
    assert id == "media_player.tv";
  }
}
