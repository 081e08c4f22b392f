/**
 Routine groups for one spoken command: an explicitly named Home Assistant group, or a domain narrowed by at most one area,
 floor or label.  The regular expressions are not part of this model: a `Speech` says which of them match.
 */
module Batch {
  import opened Common
  import opened Parameters
  import Groups
  import GroupCompiler

  const MAX_TARGETS := 32
  const DOMAINS := ["light", "switch", "fan"]

  datatype Capability = Capability(
    id: string, adapterRef: string, domain: string, operation: string, area: string, floor: string, labels: seq<string>,
    exposed: bool, available: bool, risk: string, schema: Schema)

  /** What a compile makes of one snapshot. */
  datatype Catalog = Catalog(capabilities: seq<Capability>, groups: seq<GroupCompiler.ProfileGroup>)

  datatype Speech = Speech(
    names: string -> bool,          // a group, area, floor or label name stands in the text
    plural: string -> bool,         // the plural noun of a domain stands in the text
    saysGroup: bool,
    action: Option<bool>,           // a verb followed by "on" or "off"
    verb: bool, negated: bool,
    everything: bool)               // "all", "every", "each", "the lights", "my fans", ...

  datatype BatchGroup = BatchGroup(id: string, domain: string, operation: string, members: seq<string>)

  function OperationOf(on: bool): string {
    if on then "turn_on" else "turn_off"
  }

  function IdsOf(s: seq<Capability>): seq<string> {
    seq(|s|, i requires 0 <= i < |s| => s[i].id)
  }

  function RefsOf(s: seq<Capability>): set<string> {
    set c | c in s :: c.adapterRef
  }

  predicate DistinctRefs(s: seq<Capability>) {
    forall i, j :: 0 <= i < j < |s| ==> s[i].adapterRef != s[j].adapterRef
  }

  predicate Routine(c: Capability) {
    c.available && c.risk == "routine"
  }

  // ---------------------------------------------------------------------------------------------------------
  // Selecting and sorting
  // ---------------------------------------------------------------------------------------------------------

  function Select(s: seq<Capability>, p: Capability -> bool): seq<Capability> {
    if s == [] then [] else (if p(s[0]) then [s[0]] else []) + Select(s[1..], p)
  }

  /** Strings in code-point order. */
  predicate Leq(a: string, b: string) {
    a == "" || (b != "" && (a[0] < b[0] || (a[0] == b[0] && Leq(a[1..], b[1..]))))
  }

  predicate InOrder(s: seq<Capability>) {
    forall i :: 0 < i < |s| ==> Leq(s[i - 1].id, s[i].id)
  }

  function Insert(c: Capability, s: seq<Capability>): seq<Capability> {
    if s == [] || Leq(c.id, s[0].id) then [c] + s else [s[0]] + Insert(c, s[1..])
  }

  function Sort(s: seq<Capability>): seq<Capability> {
    if s == [] then [] else Insert(s[0], Sort(s[1..]))
  }

  lemma {:induction false} SelectIsExact(s: seq<Capability>, p: Capability -> bool, c: Capability)
    ensures multiset(Select(s, p))[c] == if p(c) then multiset(s)[c] else 0
  {
    if s == [] {
    } else {
      SelectIsExact(s[1..], p, c);
      assert s == [s[0]] + s[1..];
    }
  }

  lemma {:induction false} LeqIsTotal(a: string, b: string)
    ensures Leq(a, b) || Leq(b, a)
  {
    if a != "" && b != "" && a[0] == b[0] {
      LeqIsTotal(a[1..], b[1..]);
    }
  }

  lemma {:induction false} InsertAdds(c: Capability, s: seq<Capability>)
    ensures multiset(Insert(c, s)) == multiset(s) + multiset{c}
  {
    if s == [] || Leq(c.id, s[0].id) {
    } else {
      InsertAdds(c, s[1..]);
      assert s == [s[0]] + s[1..];
    }
  }

  lemma {:induction false} InsertKeepsOrder(c: Capability, s: seq<Capability>)
    requires InOrder(s)
    ensures InOrder(Insert(c, s)) && Insert(c, s) != []
    ensures Insert(c, s)[0] == c || (s != [] && Insert(c, s)[0] == s[0])
  {
    if s == [] || Leq(c.id, s[0].id) {
    } else {
      InsertKeepsOrder(c, s[1..]);
      LeqIsTotal(c.id, s[0].id);
    }
  }

  lemma {:induction false} SortIsAPermutation(s: seq<Capability>)
    ensures multiset(Sort(s)) == multiset(s) && InOrder(Sort(s))
  {
    if s == [] {
    } else {
      SortIsAPermutation(s[1..]);
      InsertAdds(s[0], Sort(s[1..]));
      InsertKeepsOrder(s[0], Sort(s[1..]));
      assert s == [s[0]] + s[1..];
    }
  }

  /** `chosen` is exactly the capabilities that satisfy `p`, with their multiplicities, in the order of their ids. */
  ghost predicate IsSelection(s: seq<Capability>, p: Capability -> bool, chosen: seq<Capability>) {
    && InOrder(chosen)
    && forall c :: multiset(chosen)[c] == if p(c) then multiset(s)[c] else 0
  }

  lemma SortedSelection(s: seq<Capability>, p: Capability -> bool)
    ensures IsSelection(s, p, Sort(Select(s, p)))
    ensures forall c :: c in Sort(Select(s, p)) <==> c in s && p(c)
  {
    var chosen := Sort(Select(s, p));
    SortIsAPermutation(Select(s, p));
    forall c ensures multiset(chosen)[c] == if p(c) then multiset(s)[c] else 0 {
      SelectIsExact(s, p, c);
    }
    forall c ensures c in chosen <==> c in s && p(c) {
      assert c in chosen <==> c in multiset(chosen);
      assert c in s <==> c in multiset(s);
    }
  }

  // ---------------------------------------------------------------------------------------------------------
  // Named groups
  // ---------------------------------------------------------------------------------------------------------

  function GroupsNamed(groups: seq<GroupCompiler.ProfileGroup>, speech: Speech): (named: seq<GroupCompiler.ProfileGroup>)
    ensures forall g :: g in named <==> g in groups && speech.names(g.name)
  {
    if groups == [] then []
    else (if speech.names(groups[0].name) then [groups[0]] else []) + GroupsNamed(groups[1..], speech)
  }

  function OfGroup(members: seq<string>, operation: string): Capability -> bool {
    (c: Capability) => c.adapterRef in members && c.operation == operation && c.exposed
  }

  function NamedTargets(catalog: Catalog, members: seq<string>, operation: string): seq<Capability> {
    Sort(Select(catalog.capabilities, OfGroup(members, operation)))
  }

  predicate OneDomain(s: seq<Capability>) {
    s != [] && forall c :: c in s ==> c.domain == s[0].domain
  }

  function NamedGroup(speech: Speech, revision: string, catalog: Catalog, digest: string -> string): Result<BatchGroup, string> {
    var named := GroupsNamed(catalog.groups, speech);
    if |named| != 1 then Err(if named == [] then "batch_group_unknown" else "batch_scope_ambiguous")
    else if !named[0].valid then Err("batch_group_invalid")
    else if speech.action.None? then Err("batch_scope_ambiguous")
    else
      var operation := OperationOf(speech.action.value);
      var matching := NamedTargets(catalog, named[0].members, operation);
      if |matching| != |named[0].members| then Err("batch_target_unavailable")
      else if |matching| > MAX_TARGETS || !DistinctRefs(matching) then Err("batch_scope_ambiguous")
      else if exists c :: c in matching && !Routine(c) then Err("batch_target_unavailable")
      else Ok(BatchGroup(digest(revision + ":" + named[0].ref + ":" + operation),
                         if OneDomain(matching) then matching[0].domain else "mixed", operation, IdsOf(matching)))
  }

  lemma {:induction false} DistinctRefsCount(s: seq<Capability>)
    requires DistinctRefs(s)
    ensures |RefsOf(s)| == |s|
  {
    if s == [] {
    } else {
      DistinctRefsCount(s[1..]);
      assert s[0].adapterRef !in RefsOf(s[1..]);
      assert RefsOf(s) == {s[0].adapterRef} + RefsOf(s[1..]) by {
        assert forall c :: c in s <==> c == s[0] || c in s[1..];
      }
    }
  }

  function SetOf(s: seq<string>): set<string> {
    set x | x in s
  }

  lemma {:induction false} SetOfIsSmall(s: seq<string>)
    ensures |SetOf(s)| <= |s|
    ensures Distinct(s) ==> |SetOf(s)| == |s|
  {
    if s == [] {
    } else {
      SetOfIsSmall(s[1..]);
      assert SetOf(s) == {s[0]} + SetOf(s[1..]) by {
        assert forall x :: x in s <==> x == s[0] || x in s[1..];
      }
      assert Distinct(s) ==> Distinct(s[1..]) && s[0] !in s[1..];
    }
  }

  lemma EqualByCount(a: set<string>, b: set<string>)
    requires a <= b && |a| >= |b|
    ensures a == b
  {
    assert |b - a| == |b| - |a|;
  }

  /** As many targets with distinct references as the group has members: then they are one for each member. */
  lemma TargetsCoverExactly(catalog: Catalog, members: seq<string>, operation: string)
    requires Distinct(members)
    ensures var matching := NamedTargets(catalog, members, operation);
      (|matching| == |members| && DistinctRefs(matching)) <==> (RefsOf(matching) == SetOf(members) && DistinctRefs(matching))
  {
    var matching := NamedTargets(catalog, members, operation);
    SortedSelection(catalog.capabilities, OfGroup(members, operation));
    SetOfIsSmall(members);
    assert RefsOf(matching) <= SetOf(members);
    if DistinctRefs(matching) {
      DistinctRefsCount(matching);
      if |matching| == |members| {
        EqualByCount(RefsOf(matching), SetOf(members));
      }
    }
  }

  /**
   A named group becomes a batch exactly when it is the only group named, is valid, and every member has exactly one exposed
   capability for the spoken operation, each available and routine.
   */
  lemma NamedGroupExactly(speech: Speech, revision: string, catalog: Catalog, digest: string -> string, group: GroupCompiler.ProfileGroup)
    requires GroupsNamed(catalog.groups, speech) == [group]
    requires Distinct(group.members) && |group.members| <= MAX_TARGETS
    ensures NamedGroup(speech, revision, catalog, digest).Ok? <==>
      && group.valid && speech.action.Some?
      && var matching := NamedTargets(catalog, group.members, if speech.action.value then "turn_on" else "turn_off");
         && RefsOf(matching) == SetOf(group.members) && DistinctRefs(matching)
         && forall c :: c in matching ==> Routine(c)
  {
    if speech.action.Some? {
      TargetsCoverExactly(catalog, group.members, OperationOf(speech.action.value));
      DistinctRefsCountIf(NamedTargets(catalog, group.members, OperationOf(speech.action.value)));
      SetOfIsSmall(group.members);
    }
  }

  lemma DistinctRefsCountIf(s: seq<Capability>)
    ensures DistinctRefs(s) ==> |RefsOf(s)| == |s|
  {
    if DistinctRefs(s) {
      DistinctRefsCount(s);
    }
  }

  // ---------------------------------------------------------------------------------------------------------
  // Scopes
  // ---------------------------------------------------------------------------------------------------------

  function DomainsNamed(speech: Speech, domains: seq<string>): (named: seq<string>)
    ensures forall d :: d in named <==> d in domains && speech.plural(d)
  {
    if domains == [] then []
    else (if speech.plural(domains[0]) then [domains[0]] else []) + DomainsNamed(speech, domains[1..])
  }

  function AreasNamed(catalog: Catalog, domain: string, speech: Speech): set<string> {
    set c | c in catalog.capabilities && c.domain == domain && c.area != "" && speech.names(c.area) :: c.area
  }

  function FloorsNamed(catalog: Catalog, domain: string, speech: Speech): set<string> {
    set c | c in catalog.capabilities && c.domain == domain && c.floor != "" && speech.names(c.floor) :: c.floor
  }

  function LabelsNamed(catalog: Catalog, domain: string, speech: Speech): set<string> {
    set c, name | c in catalog.capabilities && c.domain == domain && name in c.labels && name != "" && speech.names(name) :: name
  }

  lemma OnlyOne(s: set<string>, x: string, y: string)
    requires |s| <= 1 && x in s && y in s
    ensures x == y
  {
    assert |s - {x}| == |s| - 1;
    assert s - {x} == {};
    assert y != x ==> y in s - {x};
  }

  function Only(s: set<string>): (only: Option<string>)
    requires |s| <= 1
    ensures only.None? ==> s == {}
    ensures only.Some? ==> s == {only.value}
  {
    if s == {} then None
    else
      assert forall x, y :: x in s && y in s ==> x == y by {
        forall x, y | x in s && y in s ensures x == y {
          OnlyOne(s, x, y);
        }
      }
      var x :| x in s;
      Some(x)
  }

  datatype Scope = Scope(area: Option<string>, floor: Option<string>, tag: Option<string>)

  function Count(scope: Scope): nat {
    (if scope.area.Some? then 1 else 0) + (if scope.floor.Some? then 1 else 0) + (if scope.tag.Some? then 1 else 0)
  }

  predicate Within(c: Capability, scope: Scope) {
    && (scope.area.Some? ==> c.area == scope.area.value)
    && (scope.floor.Some? ==> c.floor == scope.floor.value)
    && (scope.tag.Some? ==> scope.tag.value in c.labels)
  }

  function OfScope(domain: string, operation: string, scope: Scope): Capability -> bool {
    (c: Capability) => c.domain == domain && c.operation == operation && c.exposed && Within(c, scope)
  }

  function ScopeName(scope: Scope): string {
    if scope.area.Some? then scope.area.value
    else if scope.floor.Some? then scope.floor.value
    else if scope.tag.Some? then scope.tag.value
    else "*"
  }

  /** The one area, floor or label that is named, if any; `Err` when there is more than one. */
  function ScopeOf(catalog: Catalog, domain: string, speech: Speech): Result<Scope, string> {
    var areas, floors, labels := AreasNamed(catalog, domain, speech), FloorsNamed(catalog, domain, speech), LabelsNamed(catalog, domain, speech);
    if |areas| > 1 || |floors| > 1 || |labels| > 1 then Err("batch_scope_ambiguous")
    else
      var scope := Scope(Only(areas), Only(floors), Only(labels));
      if Count(scope) > 1 then Err("batch_scope_ambiguous") else Ok(scope)
  }

  function ScopedTargets(catalog: Catalog, domain: string, operation: string, scope: Scope): seq<Capability> {
    Sort(Select(catalog.capabilities, OfScope(domain, operation, scope)))
  }

  function ScopedGroup(speech: Speech, revision: string, catalog: Catalog, digest: string -> string): Result<Option<BatchGroup>, string> {
    var domains := DomainsNamed(speech, DOMAINS);
    if domains == [] then Ok(None)
    else if |domains| != 1 || speech.negated then Err("batch_scope_ambiguous")
    else if !speech.verb then Ok(None)
    else if speech.action.None? then Err("batch_scope_ambiguous")
    else
      var domain, operation := domains[0], OperationOf(speech.action.value);
      match ScopeOf(catalog, domain, speech)
      case Err(code) => Err(code)
      case Ok(scope) =>
        if Count(scope) == 0 && !speech.everything then Ok(None)
        else
          var matching := ScopedTargets(catalog, domain, operation, scope);
          if matching == [] then Err("batch_no_targets")
          else if |matching| > MAX_TARGETS then Err("batch_too_large")
          else if exists c :: c in matching && !Routine(c) then Err("batch_target_unavailable")
          else if !DistinctRefs(matching) then Err("batch_scope_ambiguous")
          else Ok(Some(BatchGroup(digest(revision + ":" + domain + ":" + operation + ":" + ScopeName(scope)), domain, operation, IdsOf(matching))))
  }

  function BuildBatch(speech: Speech, revision: string, catalog: Catalog, digest: string -> string): Result<Option<BatchGroup>, string> {
    if speech.saysGroup then
      match NamedGroup(speech, revision, catalog, digest)
      case Ok(group) => Ok(Some(group))
      case Err(code) => Err(code)
    else ScopedGroup(speech, revision, catalog, digest)
  }

  // ---------------------------------------------------------------------------------------------------------
  // What a batch is
  // ---------------------------------------------------------------------------------------------------------

  /** The compile only lets through groups that are valid when, and only when, they have members. */
  predicate Compiled(catalog: Catalog) {
    forall g :: g in catalog.groups ==>
      (g.valid <==> g.members != []) && |g.members| <= MAX_TARGETS && Distinct(g.members)
  }

  /** The members of a batch are the ids of these capabilities. */
  ghost predicate Chosen(catalog: Catalog, g: BatchGroup, p: Capability -> bool, chosen: seq<Capability>) {
    && g.members == IdsOf(chosen) && IsSelection(catalog.capabilities, p, chosen)
    && 1 <= |chosen| <= MAX_TARGETS && DistinctRefs(chosen)
    && forall c :: c in chosen ==> c in catalog.capabilities && p(c) && c.exposed && c.operation == g.operation && Routine(c)
  }

  /** At most one area, floor or label name of the domain's capabilities stands in the text. */
  predicate OneScope(catalog: Catalog, domain: string, speech: Speech) {
    |AreasNamed(catalog, domain, speech)| + |FloorsNamed(catalog, domain, speech)| + |LabelsNamed(catalog, domain, speech)| <= 1
  }

  /** The scope is what was named: a name that was spoken narrows it, and nothing else does. */
  predicate ScopeIsNamed(catalog: Catalog, domain: string, speech: Speech, scope: Scope) {
    && AreasNamed(catalog, domain, speech) == Names(scope.area)
    && FloorsNamed(catalog, domain, speech) == Names(scope.floor)
    && LabelsNamed(catalog, domain, speech) == Names(scope.tag)
  }

  function Names(name: Option<string>): set<string> {
    if name.Some? then {name.value} else {}
  }

  lemma ScopeIsFoundExactly(catalog: Catalog, domain: string, speech: Speech)
    ensures ScopeOf(catalog, domain, speech).Ok? <==> OneScope(catalog, domain, speech)
    ensures ScopeOf(catalog, domain, speech).Ok? ==> ScopeIsNamed(catalog, domain, speech, ScopeOf(catalog, domain, speech).value)
  {
    var areas, floors, tags := AreasNamed(catalog, domain, speech), FloorsNamed(catalog, domain, speech), LabelsNamed(catalog, domain, speech);
    if |areas| <= 1 && |floors| <= 1 && |tags| <= 1 {
      OnlyNames(areas);
      OnlyNames(floors);
      OnlyNames(tags);
    }
  }

  lemma OnlyNames(s: set<string>)
    requires |s| <= 1
    ensures s == Names(Only(s)) && (Only(s).Some? <==> |s| == 1)
  {
  }

  /** The names that count for a scope: non-empty, spoken, and of a capability of the domain. */
  lemma NamesAreSpoken(catalog: Catalog, domain: string, speech: Speech, name: string)
    ensures name in AreasNamed(catalog, domain, speech) <==>
      name != "" && speech.names(name) && exists c :: c in catalog.capabilities && c.domain == domain && c.area == name
    ensures name in FloorsNamed(catalog, domain, speech) <==>
      name != "" && speech.names(name) && exists c :: c in catalog.capabilities && c.domain == domain && c.floor == name
    ensures name in LabelsNamed(catalog, domain, speech) <==>
      name != "" && speech.names(name) && exists c :: c in catalog.capabilities && c.domain == domain && name in c.labels
  {
  }

  /** What a batch may contain, in the fields of a capability. */
  lemma TargetsAre(catalog: Catalog, domain: string, operation: string, scope: Scope, members: seq<string>, c: Capability)
    ensures c in ScopedTargets(catalog, domain, operation, scope) <==>
      && c in catalog.capabilities && c.domain == domain && c.operation == operation && c.exposed
      && (scope.area.None? || c.area == scope.area.value) && (scope.floor.None? || c.floor == scope.floor.value)
      && (scope.tag.None? || scope.tag.value in c.labels)
    ensures c in NamedTargets(catalog, members, operation) <==>
      c in catalog.capabilities && c.adapterRef in members && c.operation == operation && c.exposed
    ensures Routine(c) <==> c.available && c.risk == "routine"
  {
    SortedSelection(catalog.capabilities, OfScope(domain, operation, scope));
    SortedSelection(catalog.capabilities, OfGroup(members, operation));
  }

  /** Why a named group is not made into a batch. */
  lemma NamedGroupRefused(speech: Speech, revision: string, catalog: Catalog, digest: string -> string)
    ensures var made, named := NamedGroup(speech, revision, catalog, digest), GroupsNamed(catalog.groups, speech);
      && (named == [] ==> made == Err("batch_group_unknown"))
      && (|named| > 1 ==> made == Err("batch_scope_ambiguous"))
      && (|named| == 1 && !named[0].valid ==> made == Err("batch_group_invalid"))
      && (|named| == 1 && named[0].valid && speech.action.None? ==> made == Err("batch_scope_ambiguous"))
      && (made.Err? ==> made.error in {"batch_group_unknown", "batch_scope_ambiguous", "batch_group_invalid", "batch_target_unavailable"})
  {
  }

  /** Why a spoken domain is not made into a batch. */
  lemma ScopedGroupRefused(speech: Speech, revision: string, catalog: Catalog, digest: string -> string)
    ensures var made, domains := ScopedGroup(speech, revision, catalog, digest), DomainsNamed(speech, ["light", "switch", "fan"]);
      && (domains == [] ==> made == Ok(None))
      && (domains != [] && (|domains| > 1 || speech.negated) ==> made == Err("batch_scope_ambiguous"))
      && (|domains| == 1 && !speech.negated && !speech.verb ==> made == Ok(None))
      && (|domains| == 1 && !speech.negated && speech.verb && speech.action.None? ==> made == Err("batch_scope_ambiguous"))
      && (|domains| == 1 && !speech.negated && speech.verb && speech.action.Some? && !OneScope(catalog, domains[0], speech) ==>
            made == Err("batch_scope_ambiguous"))
      && (made.Err? ==> made.error in {"batch_scope_ambiguous", "batch_no_targets", "batch_too_large", "batch_target_unavailable"})
  {
    if |DomainsNamed(speech, DOMAINS)| == 1 {
      ScopeIsFoundExactly(catalog, DomainsNamed(speech, DOMAINS)[0], speech);
    }
  }

  /** Ids are sorted by code points: the first difference decides, and a prefix comes first. */
  lemma {:induction false} LeqMeans(a: string, b: string)
    ensures Leq(a, b) <==> a <= b || exists k :: FirstDifference(a, b, k) && a[k] < b[k]
  {
    if a == "" || b == "" {
    } else if a[0] != b[0] {
      assert FirstDifference(a, b, 0);
    } else {
      LeqMeans(a[1..], b[1..]);
      forall k: nat ensures FirstDifference(a[1..], b[1..], k) <==> FirstDifference(a, b, k + 1) {
        DifferenceShifts(a, b, k);
      }
      assert a <= b <==> a[1..] <= b[1..];
      if exists k :: FirstDifference(a, b, k) && a[k] < b[k] {
        var k :| FirstDifference(a, b, k) && a[k] < b[k];
        assert FirstDifference(a[1..], b[1..], k - 1);
      }
      if exists k :: FirstDifference(a[1..], b[1..], k) && a[1..][k] < b[1..][k] {
        var k :| FirstDifference(a[1..], b[1..], k) && a[1..][k] < b[1..][k];
        assert FirstDifference(a, b, k + 1);
      }
    }
  }

  predicate FirstDifference(a: string, b: string, k: int) {
    0 <= k < |a| && k < |b| && a[k] != b[k] && forall j :: 0 <= j < k ==> a[j] == b[j]
  }

  lemma DifferenceShifts(a: string, b: string, k: nat)
    requires a != "" && b != "" && a[0] == b[0]
    ensures FirstDifference(a[1..], b[1..], k) <==> FirstDifference(a, b, k + 1)
  {
    if FirstDifference(a[1..], b[1..], k) {
      forall j | 0 <= j < k + 1 ensures a[j] == b[j] {
        if j > 0 {
          assert a[1..][j - 1] == b[1..][j - 1];
        }
      }
    }
    if FirstDifference(a, b, k + 1) {
      forall j | 0 <= j < k ensures a[1..][j] == b[1..][j] {
        assert a[j + 1] == b[j + 1];
      }
    }
  }

  predicate ScopeSpoken(speech: Speech, catalog: Catalog, g: BatchGroup, scope: Scope) {
    && DomainsNamed(speech, DOMAINS) == [g.domain] && speech.verb && !speech.negated
    && speech.action.Some? && g.operation == (if speech.action.value then "turn_on" else "turn_off")
    && OneScope(catalog, g.domain, speech) && ScopeIsNamed(catalog, g.domain, speech, scope)
    && (Count(scope) == 0 ==> speech.everything)
  }

  /** What a batch without the word "group" was made of. */
  lemma ScopedBatchIs(speech: Speech, revision: string, catalog: Catalog, digest: string -> string, g: BatchGroup) returns (scope: Scope)
    requires ScopedGroup(speech, revision, catalog, digest) == Ok(Some(g))
    ensures ScopeOf(catalog, g.domain, speech) == Ok(scope) && (Count(scope) == 0 ==> speech.everything)
    ensures DomainsNamed(speech, DOMAINS) == [g.domain] && speech.verb && !speech.negated
    ensures speech.action.Some? && g.operation == (if speech.action.value then "turn_on" else "turn_off")
    ensures g.members == IdsOf(ScopedTargets(catalog, g.domain, g.operation, scope)) && Selectable(ScopedTargets(catalog, g.domain, g.operation, scope))
  {
    var domains := DomainsNamed(speech, DOMAINS);
    assert domains == [domains[0]];
    scope := ScopeOf(catalog, domains[0], speech).value;
  }

  /**
   A batch without the word "group" selects exactly the exposed capabilities of the one spoken domain and the spoken
   operation within the area, floor or label that was spoken, and all of them only when none was and everything was asked for.
   */
  lemma ScopedBatchesSelectExactly(speech: Speech, revision: string, catalog: Catalog, digest: string -> string, g: BatchGroup)
    requires !speech.saysGroup && BuildBatch(speech, revision, catalog, digest) == Ok(Some(g))
    ensures exists scope ::
      && ScopeSpoken(speech, catalog, g, scope)
      && Chosen(catalog, g, OfScope(g.domain, g.operation, scope), ScopedTargets(catalog, g.domain, g.operation, scope))
  {
    var scope := ScopedBatchIs(speech, revision, catalog, digest, g);
    ScopeIsFoundExactly(catalog, g.domain, speech);
    SortedSelection(catalog.capabilities, OfScope(g.domain, g.operation, scope));
    assert ScopeSpoken(speech, catalog, g, scope);
  }

  /**
   And such a batch is made if and only if one domain, a verb and an action were spoken without a negation, at most one
   scope was, some scope or everything was asked for, and what is selected is one to thirty-two available, routine targets
   with distinct references.
   */
  lemma ScopedGroupExactly(speech: Speech, revision: string, catalog: Catalog, digest: string -> string)
    ensures var made := ScopedGroup(speech, revision, catalog, digest);
      (made.Ok? && made.value.Some?) <==>
        && |DomainsNamed(speech, DOMAINS)| == 1 && speech.verb && !speech.negated && speech.action.Some?
        && var domain, operation := DomainsNamed(speech, DOMAINS)[0], if speech.action.value then "turn_on" else "turn_off";
           && OneScope(catalog, domain, speech)
           && exists scope ::
                && ScopeIsNamed(catalog, domain, speech, scope) && (Count(scope) == 0 ==> speech.everything)
                && Selectable(ScopedTargets(catalog, domain, operation, scope))
  {
    if |DomainsNamed(speech, DOMAINS)| == 1 && speech.action.Some? {
      var domain := DomainsNamed(speech, DOMAINS)[0];
      ScopeIsFoundExactly(catalog, domain, speech);
      forall scope, other | ScopeIsNamed(catalog, domain, speech, scope) && ScopeIsNamed(catalog, domain, speech, other)
        ensures scope == other
      {
        SameNames(scope.area, other.area);
        SameNames(scope.floor, other.floor);
        SameNames(scope.tag, other.tag);
      }
    }
  }

  predicate Selectable(s: seq<Capability>) {
    1 <= |s| <= MAX_TARGETS && DistinctRefs(s) && forall c :: c in s ==> Routine(c)
  }

  lemma SameNames(a: Option<string>, b: Option<string>)
    requires Names(a) == Names(b)
    ensures a == b
  {
    assert a.Some? ==> a.value in Names(a);
    assert b.Some? ==> b.value in Names(b);
  }

  /** What a batch with the word "group" was made of. */
  lemma NamedBatchIs(speech: Speech, revision: string, catalog: Catalog, digest: string -> string, g: BatchGroup)
    returns (group: GroupCompiler.ProfileGroup)
    requires NamedGroup(speech, revision, catalog, digest) == Ok(g)
    ensures GroupsNamed(catalog.groups, speech) == [group] && group in catalog.groups && speech.names(group.name)
    ensures forall other :: other in catalog.groups && speech.names(other.name) ==> other == group
    ensures group.valid && speech.action.Some? && g.operation == OperationOf(speech.action.value)
    ensures var matching := NamedTargets(catalog, group.members, g.operation);
      && |matching| == |group.members| && DistinctRefs(matching) && g.members == IdsOf(matching)
      && forall c :: c in matching ==> Routine(c)
  {
    var named := GroupsNamed(catalog.groups, speech);
    group := named[0];
    assert named == [group];
    assert group in named;
  }

  /** A named batch selects one capability for each member of the group, and nothing else. */
  lemma NamedBatchesSelectExactly(speech: Speech, revision: string, catalog: Catalog, digest: string -> string, g: BatchGroup)
    requires speech.saysGroup && Compiled(catalog) && BuildBatch(speech, revision, catalog, digest) == Ok(Some(g))
    ensures exists group :: group in catalog.groups && NamesGroup(speech, catalog, group, g)
  {
    var group := NamedBatchIs(speech, revision, catalog, digest, g);
    SortedSelection(catalog.capabilities, OfGroup(group.members, g.operation));
    TargetsCoverExactly(catalog, group.members, g.operation);
    assert NamesGroup(speech, catalog, group, g);
  }

  ghost predicate NamesGroup(speech: Speech, catalog: Catalog, group: GroupCompiler.ProfileGroup, g: BatchGroup) {
    && group.valid && speech.names(group.name)
    && (forall other :: other in catalog.groups && speech.names(other.name) ==> other == group)
    && speech.action.Some? && g.operation == (if speech.action.value then "turn_on" else "turn_off")
    && var chosen := NamedTargets(catalog, group.members, g.operation);
       Chosen(catalog, g, OfGroup(group.members, g.operation), chosen) && RefsOf(chosen) == SetOf(group.members)
  }

  /** Over a compiled group list: the targets of a named batch are the leaves of the nesting the group stands for. */
  lemma NamedBatchesAreLeafSets(speech: Speech, revision: string, catalog: Catalog, digest: string -> string, g: BatchGroup,
                                e: Groups.Env, order: seq<string>) returns (t: Groups.Tree, chosen: seq<Capability>)
    requires forall ref :: ref in order ==> ref in e.groups
    requires GroupCompiler.CompiledFrom(e, order, Ok(catalog.groups))
    requires speech.saysGroup && BuildBatch(speech, revision, catalog, digest) == Ok(Some(g))
    ensures Groups.Nesting(e, t) && t.ref in e.groups && speech.names(e.groups[t.ref].name)
    ensures g.members == IdsOf(chosen) && DistinctRefs(chosen) && RefsOf(chosen) == SetOf(Groups.Leaves(t))
    ensures forall c :: c in chosen ==> c in catalog.capabilities && c.operation == g.operation && c.exposed && Routine(c)
  {
    CompiledListsAreCompiled(catalog, e, order);
    NamedBatchesSelectExactly(speech, revision, catalog, digest, g);
    var group :| group in catalog.groups && NamesGroup(speech, catalog, group, g);
    var i :| 0 <= i < |catalog.groups| && catalog.groups[i] == group;
    GroupCompiler.CompiledGroupsMean(e, order, catalog.groups, i);
    t :| Groups.Nesting(e, t) && t.ref == order[i] && Groups.Leaves(t) == group.members;
    chosen := NamedTargets(catalog, group.members, g.operation);
  }

  lemma CompiledListsAreCompiled(catalog: Catalog, e: Groups.Env, order: seq<string>)
    requires forall ref :: ref in order ==> ref in e.groups
    requires GroupCompiler.CompiledFrom(e, order, Ok(catalog.groups))
    ensures Compiled(catalog)
  {
    forall g | g in catalog.groups
      ensures (g.valid <==> g.members != []) && |g.members| <= MAX_TARGETS && Distinct(g.members)
    {
      var i :| 0 <= i < |catalog.groups| && catalog.groups[i] == g;
      GroupCompiler.CompiledGroupsMean(e, order, catalog.groups, i);
    }
  }
}
