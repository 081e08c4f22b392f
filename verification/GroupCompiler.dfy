/**
 The compiler's own form of group compilation: the dictionaries it fills, the recursive walk that updates its memo and its
 visiting set in place, and the rows it hands to the profile.
 */
module GroupCompiler {
  import opened Common
  import opened Groups

  const MAX_GROUPS := 256
  const MAX_REF := 128
  const MAX_NAME := 256

  /** An item of the snapshot's group list, its texts already stripped; `members` is `None` unless it was a list. */
  datatype RawGroup = NotAnObject | Raw(ref: string, name: string, members: Option<seq<string>>)

  datatype EntityRow = EntityRow(ref: string, entity: Entity)

  datatype ProfileGroup = ProfileGroup(ref: string, name: string, members: seq<string>, valid: bool)

  predicate WellFormed(raw: RawGroup) {
    raw.Raw? && raw.ref != "" && raw.name != "" && raw.members.Some?
  }

  predicate ShapeIsValid(members: seq<string>) {
    && |members| <= MAX_MEMBERS
    && (forall m :: m in members ==> m != "" && '.' !in m)
    && Distinct(members)
  }

  /** The group of a first declaration. */
  function GroupOf(raw: RawGroup): Group
    requires WellFormed(raw)
  {
    Group(raw.name, raw.members.value, ShapeIsValid(raw.members.value))
  }

  // ---------------------------------------------------------------------------------------------------------
  // Declarations, said from the list as a whole
  // ---------------------------------------------------------------------------------------------------------

  predicate Declares(raw: RawGroup, ref: string) {
    WellFormed(raw) && raw.ref == ref
  }

  /** A declaration has a reference, a name and a list of members; its shape is right if they are few, plain and distinct. */
  lemma DeclarationsAre(raw: RawGroup, ref: string)
    ensures Declares(raw, ref) <==> raw.Raw? && raw.ref == ref && ref != "" && raw.name != "" && raw.members.Some?
    ensures Declares(raw, ref) ==>
      (ShapeIsValid(raw.members.value) <==>
        && |raw.members.value| <= 32 && (forall m :: m in raw.members.value ==> m != "" && '.' !in m)
        && forall i, j :: 0 <= i < j < |raw.members.value| ==> raw.members.value[i] != raw.members.value[j])
  {
  }

  /** The position of the first declaration of a reference. */
  ghost predicate FirstAt(raws: seq<RawGroup>, ref: string, i: nat) {
    i < |raws| && Declares(raws[i], ref) && forall j :: 0 <= j < i ==> !Declares(raws[j], ref)
  }

  ghost predicate Repeated(raws: seq<RawGroup>, ref: string) {
    exists i, j :: 0 <= i < j < |raws| && Declares(raws[i], ref) && Declares(raws[j], ref)
  }

  ghost predicate DeclaredAs(raws: seq<RawGroup>, ref: string, group: Group) {
    exists i: nat ::
      && FirstAt(raws, ref, i)
      && group.name == raws[i].name && group.members == raws[i].members.value
      && (group.valid <==> ShapeIsValid(group.members) && !Repeated(raws, ref))
  }

  /** Where a reference is first declared; past the end if nowhere. */
  function FirstPosition(raws: seq<RawGroup>, ref: string): (k: nat)
    ensures k <= |raws| && (k < |raws| ==> FirstAt(raws, ref, k))
    ensures k == |raws| ==> forall i :: 0 <= i < |raws| ==> !Declares(raws[i], ref)
  {
    if |raws| == 0 then 0
    else
      var k := FirstPosition(raws[..|raws| - 1], ref);
      if k < |raws| - 1 || Declares(raws[|raws| - 1], ref) then k else |raws|
  }

  /** References in the order of their first declarations. */
  predicate InFirstOrder(raws: seq<RawGroup>, order: seq<string>) {
    forall i, j :: 0 <= i < j < |order| ==> FirstPosition(raws, order[i]) < FirstPosition(raws, order[j])
  }

  /** The groups and their order, before references are compared with entities. */
  ghost predicate Collected(raws: seq<RawGroup>, order: seq<string>, groups: map<string, Group>) {
    && Distinct(order) && InFirstOrder(raws, order)
    && (forall ref :: ref in order ==> FirstPosition(raws, ref) < |raws|)
    && (forall ref :: ref in groups <==> ref in order)
    && (forall i :: 0 <= i < |raws| && WellFormed(raws[i]) ==> raws[i].ref in groups)
    && (forall ref :: ref in groups ==> DeclaredAs(raws, ref, groups[ref]))
  }

  lemma PositionStays(raws: seq<RawGroup>, raw: RawGroup, ref: string)
    requires FirstPosition(raws, ref) < |raws|
    ensures FirstPosition(raws + [raw], ref) == FirstPosition(raws, ref)
  {
    assert (raws + [raw])[..|raws|] == raws;
  }

  lemma OrderStays(raws: seq<RawGroup>, raw: RawGroup, order: seq<string>)
    requires InFirstOrder(raws, order) && forall ref :: ref in order ==> FirstPosition(raws, ref) < |raws|
    ensures InFirstOrder(raws + [raw], order) && forall ref :: ref in order ==> FirstPosition(raws + [raw], ref) < |raws|
  {
    var raws' := raws + [raw];
    forall ref | ref in order ensures FirstPosition(raws', ref) == FirstPosition(raws, ref) {
      PositionStays(raws, raw, ref);
    }
    forall i, j | 0 <= i < j < |order| ensures FirstPosition(raws', order[i]) < FirstPosition(raws', order[j]) {
      assert order[i] in order && order[j] in order;
    }
  }

  lemma OrderGrows(raws: seq<RawGroup>, raw: RawGroup, order: seq<string>)
    requires InFirstOrder(raws, order) && (forall ref :: ref in order ==> FirstPosition(raws, ref) < |raws|)
    requires WellFormed(raw) && FirstPosition(raws, raw.ref) == |raws|
    ensures InFirstOrder(raws + [raw], order + [raw.ref])
    ensures forall ref :: ref in order + [raw.ref] ==> FirstPosition(raws + [raw], ref) < |raws + [raw]|
  {
    OrderStays(raws, raw, order);
    assert (raws + [raw])[..|raws|] == raws;
    assert FirstPosition(raws + [raw], raw.ref) == |raws|;
    assert forall ref :: ref in order ==> FirstPosition(raws + [raw], ref) < |raws|;
  }

  lemma CollectedSkips(raws: seq<RawGroup>, raw: RawGroup, order: seq<string>, groups: map<string, Group>)
    requires Collected(raws, order, groups) && !WellFormed(raw)
    ensures Collected(raws + [raw], order, groups)
  {
    OrderStays(raws, raw, order);
    forall ref | ref in groups ensures DeclaredAs(raws + [raw], ref, groups[ref]) {
      DeclarationStays(raws, raw, ref, groups[ref]);
    }
  }

  lemma DeclarationStays(raws: seq<RawGroup>, raw: RawGroup, ref: string, group: Group)
    requires DeclaredAs(raws, ref, group) && !Declares(raw, ref)
    ensures DeclaredAs(raws + [raw], ref, group)
  {
    var raws' := raws + [raw];
    var i: nat :| FirstAt(raws, ref, i)
      && group.name == raws[i].name && group.members == raws[i].members.value
      && (group.valid <==> ShapeIsValid(group.members) && !Repeated(raws, ref));
    assert FirstAt(raws', ref, i);
    if Repeated(raws, ref) {
      var a, b :| 0 <= a < b < |raws| && Declares(raws[a], ref) && Declares(raws[b], ref);
      assert Declares(raws'[a], ref) && Declares(raws'[b], ref);
    }
  }

  lemma CollectedRepeats(raws: seq<RawGroup>, raw: RawGroup, order: seq<string>, groups: map<string, Group>)
    requires Collected(raws, order, groups) && WellFormed(raw) && raw.ref in groups
    ensures Collected(raws + [raw], order, groups[raw.ref := groups[raw.ref].(valid := false)])
  {
    var raws', groups' := raws + [raw], groups[raw.ref := groups[raw.ref].(valid := false)];
    OrderStays(raws, raw, order);
    forall ref | ref in groups' ensures DeclaredAs(raws', ref, groups'[ref]) {
      if ref == raw.ref {
        var i: nat :| FirstAt(raws, ref, i) && groups[ref].name == raws[i].name && groups[ref].members == raws[i].members.value;
        assert FirstAt(raws', ref, i);
        assert Declares(raws'[i], ref) && Declares(raws'[|raws|], ref);
      } else {
        DeclarationStays(raws, raw, ref, groups[ref]);
      }
    }
  }

  lemma CollectedAdds(raws: seq<RawGroup>, raw: RawGroup, order: seq<string>, groups: map<string, Group>)
    requires Collected(raws, order, groups) && WellFormed(raw) && raw.ref !in groups
    ensures Collected(raws + [raw], order + [raw.ref],
                      groups[raw.ref := GroupOf(raw)])
  {
    var raws', groups' := raws + [raw], groups[raw.ref := GroupOf(raw)];
    OrderGrows(raws, raw, order);
    forall ref | ref in groups' ensures DeclaredAs(raws', ref, groups'[ref]) {
      if ref == raw.ref {
        assert FirstAt(raws', ref, |raws|);
      } else {
        DeclarationStays(raws, raw, ref, groups[ref]);
      }
    }
  }

  lemma {:induction false} OrdersAgree(raws: seq<RawGroup>, a: seq<string>, b: seq<string>, i: nat)
    requires InFirstOrder(raws, a) && InFirstOrder(raws, b) && i < |a|
    requires (forall ref :: ref in a ==> ref in b) && forall ref :: ref in b ==> ref in a
    ensures i < |b| && a[i] == b[i]
    decreases i
  {
    forall k | 0 <= k < i ensures k < |b| && a[k] == b[k] {
      OrdersAgree(raws, a, b, k);
    }
    assert a[i] in b;
    var j :| 0 <= j < |b| && b[j] == a[i];
    assert i <= j;
    assert b[i] in a;
    var k :| 0 <= k < |a| && a[k] == b[i];
    assert i <= k;
  }

  /** The list decides the order of its declarations. */
  lemma OrderIsDetermined(raws: seq<RawGroup>, a: seq<string>, b: seq<string>)
    requires InFirstOrder(raws, a) && InFirstOrder(raws, b)
    requires (forall ref :: ref in a ==> ref in b) && forall ref :: ref in b ==> ref in a
    ensures a == b
  {
    forall i | 0 <= i < |a| ensures i < |b| && a[i] == b[i] {
      OrdersAgree(raws, a, b, i);
    }
    if |a| > 0 {
      OrdersAgree(raws, a, b, |a| - 1);
    }
    if |b| > 0 {
      OrdersAgree(raws, b, a, |b| - 1);
    }
  }

  lemma DeclarationIsDetermined(raws: seq<RawGroup>, ref: string, a: Group, b: Group)
    requires DeclaredAs(raws, ref, a) && DeclaredAs(raws, ref, b)
    ensures a == b
  {
  }

  /** And the groups. */
  lemma CollectedIsDetermined(raws: seq<RawGroup>, order: seq<string>, groups: map<string, Group>, order': seq<string>, groups': map<string, Group>)
    requires Collected(raws, order, groups) && Collected(raws, order', groups')
    ensures order == order' && groups == groups'
  {
    assert groups.Keys == groups'.Keys;
    OrderIsDetermined(raws, order, order');
    forall ref | ref in groups ensures groups[ref] == groups'[ref] {
      DeclarationIsDetermined(raws, ref, groups[ref], groups'[ref]);
    }
  }

  // ---------------------------------------------------------------------------------------------------------
  // The compiler
  // ---------------------------------------------------------------------------------------------------------

  lemma NothingCollected(raws: seq<RawGroup>)
    ensures Collected(raws[..0], [], map[])
  {
  }

  lemma CollectedNext(raws: seq<RawGroup>, k: nat, order: seq<string>, groups: map<string, Group>)
    requires k < |raws| && Collected(raws[..k], order, groups)
    ensures !WellFormed(raws[k]) ==> Collected(raws[..k + 1], order, groups)
    ensures WellFormed(raws[k]) && raws[k].ref in groups ==>
      Collected(raws[..k + 1], order, groups[raws[k].ref := groups[raws[k].ref].(valid := false)])
    ensures WellFormed(raws[k]) && raws[k].ref !in groups ==>
      Collected(raws[..k + 1], order + [raws[k].ref], groups[raws[k].ref := GroupOf(raws[k])])
  {
    var before, raw := raws[..k], raws[k];
    assert raws[..k + 1] == before + [raw];
    if !WellFormed(raw) {
      CollectedSkips(before, raw, order, groups);
    } else if raw.ref in groups {
      CollectedRepeats(before, raw, order, groups);
    } else {
      CollectedAdds(before, raw, order, groups);
    }
  }

  /** The first loop: later declarations of a reference make the group invalid. */
  method Collect(raws: seq<RawGroup>) returns (order: seq<string>, groups: map<string, Group>)
    ensures Collected(if |raws| <= 256 then raws else raws[..256], order, groups)
  {
    var seen := if |raws| <= MAX_GROUPS then raws else raws[..MAX_GROUPS];
    order, groups := [], map[];
    NothingCollected(seen);
    for k := 0 to |seen|
      invariant Collected(seen[..k], order, groups)
    {
      var raw := seen[k];
      CollectedNext(seen, k, order, groups);
      if WellFormed(raw) {
        if raw.ref in groups {
          groups := groups[raw.ref := groups[raw.ref].(valid := false)];
        } else {
          order := order + [raw.ref];
          groups := groups[raw.ref := GroupOf(raw)];
        }
      }
    }
    assert seen[..|seen|] == seen;
  }

  predicate Named(rows: seq<EntityRow>, k: nat, ref: string)
    requires k <= |rows|
  {
    exists i :: 0 <= i < k && rows[i].ref == ref
  }

  /** Exactly the references of the first `k` rows, each with the entity of its first row. */
  ghost predicate FirstRows(rows: seq<EntityRow>, k: nat, entities: map<string, Entity>)
    requires k <= |rows|
  {
    && (forall ref :: ref in entities <==> ref != "" && Named(rows, k, ref))
    && (forall i :: 0 <= i < k && rows[i].ref != "" && !Named(rows, i, rows[i].ref) ==>
          rows[i].ref in entities && entities[rows[i].ref] == rows[i].entity)
  }

  lemma NamedNext(rows: seq<EntityRow>, k: nat, ref: string)
    requires k < |rows|
    ensures Named(rows, k + 1, ref) <==> Named(rows, k, ref) || rows[k].ref == ref
  {
  }

  lemma FirstRowsNext(rows: seq<EntityRow>, k: nat, entities: map<string, Entity>)
    requires k < |rows| && FirstRows(rows, k, entities)
    ensures var row := rows[k];
      FirstRows(rows, k + 1, if row.ref != "" && row.ref !in entities then entities[row.ref := row.entity] else entities)
  {
    var row := rows[k];
    var after := if row.ref != "" && row.ref !in entities then entities[row.ref := row.entity] else entities;
    forall ref ensures ref in after <==> ref != "" && Named(rows, k + 1, ref) {
      NamedNext(rows, k, ref);
    }
    forall i | 0 <= i < k + 1 && rows[i].ref != "" && !Named(rows, i, rows[i].ref)
      ensures rows[i].ref in after && after[rows[i].ref] == rows[i].entity
    {
      assert i == k ==> row.ref !in entities;
    }
  }

  method MapEntities(rows: seq<EntityRow>) returns (entities: map<string, Entity>)
    ensures FirstRows(rows, |rows|, entities)
  {
    entities := map[];
    for k := 0 to |rows|
      invariant FirstRows(rows, k, entities)
    {
      FirstRowsNext(rows, k, entities);
      if rows[k].ref != "" && rows[k].ref !in entities {
        entities := entities[rows[k].ref := rows[k].entity];
      }
    }
  }

  /** A reference that names both a group and an entity makes the group invalid. */
  function WithoutCollisions(groups: map<string, Group>, entities: map<string, Entity>): map<string, Group> {
    map ref | ref in groups :: if ref in entities then groups[ref].(valid := false) else groups[ref]
  }

  /** The memo and the visiting set of `_compile_groups`. */
  class Resolver {
    const env: Env
    var resolved: Memo
    var visiting: set<string>

    constructor (env: Env)
      ensures this.env == env && resolved == map[] && visiting == {}
    {
      this.env := env;
      resolved := map[];
      visiting := {};
    }

    method Resolve(ref: string) returns (members: Option<seq<string>>)
      requires ref in env.groups
      modifies this
      ensures Outcome(resolved, members) == Groups.Resolve(env, old(resolved), old(visiting), ref)
      ensures visiting == old(visiting)
      decreases env.groups.Keys - visiting
    {
      if ref in resolved {
        return resolved[ref];
      }
      var group := env.groups[ref];
      if !group.valid || ref in visiting || |visiting| >= MAX_DEPTH {
        resolved := resolved[ref := None];
        return None;
      }
      visiting := visiting + {ref};
      var collected: seq<string> := [];
      var broken := false;
      var i := 0;
      while i < |group.members| && !broken
        invariant i <= |group.members|
        invariant visiting == old(visiting) + {ref}
        invariant !broken ==>
          Gather(env, resolved, visiting, ref, i, collected) == Groups.Resolve(env, old(resolved), old(visiting), ref)
        invariant broken ==>
          ref in resolved && Outcome(resolved, resolved[ref]) == Groups.Resolve(env, old(resolved), old(visiting), ref)
        decreases |group.members| - i, if broken then 0 else 1
      {
        var member := group.members[i];
        if member in env.groups {
          var nested := Resolve(member);
          if nested.None? {
            resolved := resolved[ref := None];
            broken := true;
          } else {
            collected := collected + nested.value;
            i := i + 1;
          }
        } else if !Usable(env, member) {
          resolved := resolved[ref := None];
          broken := true;
        } else {
          collected := collected + [member];
          if |collected| > MAX_MEMBERS {
            resolved := resolved[ref := None];
            broken := true;
          } else {
            i := i + 1;
          }
        }
      }
      if !broken {
        resolved := resolved[ref := if !Distinct(collected) || collected == [] then None else Some(collected)];
      }
      visiting := visiting - {ref};
      return resolved[ref];
    }
  }

  /** What the profile's group type accepts; anything else raises and the compile fails as a whole. */
  predicate Acceptable(g: ProfileGroup) {
    && |g.ref| <= MAX_REF && |g.name| <= MAX_NAME && '.' !in g.ref
    && |g.members| <= MAX_MEMBERS
    && forall m :: m in g.members ==> m != "" && '.' !in m
  }

  function RowOf(e: Env, ref: string, members: seq<string>): ProfileGroup
    requires ref in e.groups
  {
    ProfileGroup(ref, e.groups[ref].name, members, members != [])
  }

  /** All rows, or the position of the first one that raises. */
  ghost predicate CompiledFrom(e: Env, order: seq<string>, compiled: Result<seq<ProfileGroup>, nat>)
    requires forall ref :: ref in order ==> ref in e.groups
  {
    var rows := CompileAll(e, order, map[]);
    && |rows| == |order|
    && match compiled
       case Ok(groups) => |groups| == |order| && Compiled(e, order, rows, groups)
       case Err(k) =>
         && k < |order|
         && !Acceptable(RowOf(e, order[k], rows[k]))
         && forall i :: 0 <= i < k ==> Acceptable(RowOf(e, order[i], rows[i]))
  }

  /** The groups made so far. */
  ghost predicate Compiled(e: Env, order: seq<string>, rows: seq<seq<string>>, groups: seq<ProfileGroup>)
    requires (forall ref :: ref in order ==> ref in e.groups) && |groups| <= |order| == |rows|
  {
    forall i :: 0 <= i < |groups| ==> groups[i] == RowOf(e, order[i], rows[i]) && Acceptable(groups[i])
  }

  lemma CompiledMore(e: Env, order: seq<string>, rows: seq<seq<string>>, groups: seq<ProfileGroup>, group: ProfileGroup)
    requires (forall ref :: ref in order ==> ref in e.groups) && |groups| < |order| == |rows|
    requires Compiled(e, order, rows, groups) && group == RowOf(e, order[|groups|], rows[|groups|]) && Acceptable(group)
    ensures Compiled(e, order, rows, groups + [group])
  {
  }

  lemma StoppedAt(e: Env, order: seq<string>, groups: seq<ProfileGroup>, k: nat)
    requires (forall ref :: ref in order ==> ref in e.groups) && k == |groups| < |order| == |CompileAll(e, order, map[])|
    requires Compiled(e, order, CompileAll(e, order, map[]), groups)
    requires !Acceptable(RowOf(e, order[k], CompileAll(e, order, map[])[k]))
    ensures CompiledFrom(e, order, Err(k))
  {
    var rows := CompileAll(e, order, map[]);
    forall i | 0 <= i < k ensures Acceptable(RowOf(e, order[i], rows[i])) {
      assert groups[i] == RowOf(e, order[i], rows[i]);
    }
  }

  method CompileRows(e: Env, order: seq<string>) returns (compiled: Result<seq<ProfileGroup>, nat>)
    requires forall ref :: ref in order ==> ref in e.groups
    ensures CompiledFrom(e, order, compiled)
  {
    var resolver := new Resolver(e);
    var groups: seq<ProfileGroup> := [];
    ghost var rows := CompileAll(e, order, map[]);
    RowCount(e, order, map[]);
    assert order[0..] == order;
    assert rows[0..] == rows;
    for k := 0 to |order|
      invariant resolver.env == e && resolver.visiting == {}
      invariant rows[k..] == CompileAll(e, order[k..], resolver.resolved)
      invariant |groups| == k && Compiled(e, order, rows, groups)
    {
      NextRow(e, order, k, resolver.resolved, rows);
      var members := resolver.Resolve(order[k]);
      var group := RowOf(e, order[k], if members.Some? then members.value else []);
      if !Acceptable(group) {
        StoppedAt(e, order, groups, k);
        return Err(k);
      }
      CompiledMore(e, order, rows, groups, group);
      groups := groups + [group];
    }
    return Ok(groups);
  }

  lemma NextRow(e: Env, order: seq<string>, k: nat, memo: Memo, rows: seq<seq<string>>)
    requires forall ref :: ref in order ==> ref in e.groups
    requires k < |order| == |rows| && rows[k..] == CompileAll(e, order[k..], memo)
    ensures var first := Resolve(e, memo, {}, order[k]);
      && rows[k] == (if first.value.Some? then first.value.value else [])
      && rows[k + 1..] == CompileAll(e, order[k + 1..], first.memo)
  {
    var rest := order[k..];
    assert rest[1..] == order[k + 1..] && rest[0] == order[k];
    assert rows[k..][1..] == rows[k + 1..] && rows[k..][0] == rows[k];
  }

  /** The lists declare these groups, in this order, and these entities; the rows are compiled from them. */
  ghost predicate CompilesTo(raws: seq<RawGroup>, rows: seq<EntityRow>, order: seq<string>, declared: map<string, Group>,
                             entities: map<string, Entity>, compiled: Result<seq<ProfileGroup>, nat>)
  {
    var e := Env(WithoutCollisions(declared, entities), entities);
    && Collected(if |raws| <= 256 then raws else raws[..256], order, declared)
    && FirstRows(rows, |rows|, entities)
    && (forall ref :: ref in order ==> ref in e.groups)
    && CompiledFrom(e, order, compiled)
  }

  /** Two entity maps of the same rows are the same. */
  lemma FirstRowsAreDetermined(rows: seq<EntityRow>, k: nat, a: map<string, Entity>, b: map<string, Entity>)
    requires k <= |rows| && FirstRows(rows, k, a) && FirstRows(rows, k, b)
    ensures a == b
  {
    forall ref | ref in a ensures ref in b && a[ref] == b[ref] {
      FirstRowExists(rows, k, ref);
    }
    assert a.Keys == b.Keys;
  }

  lemma {:induction false} FirstRowExists(rows: seq<EntityRow>, k: nat, ref: string)
    requires k <= |rows| && Named(rows, k, ref)
    ensures exists i :: 0 <= i < k && rows[i].ref == ref && !Named(rows, i, ref)
  {
    if Named(rows, k - 1, ref) {
      FirstRowExists(rows, k - 1, ref);
    } else {
      assert rows[k - 1].ref == ref;
    }
  }

  lemma CompiledFromIsDetermined(e: Env, order: seq<string>, a: Result<seq<ProfileGroup>, nat>, b: Result<seq<ProfileGroup>, nat>)
    requires forall ref :: ref in order ==> ref in e.groups
    requires CompiledFrom(e, order, a) && CompiledFrom(e, order, b)
    ensures a == b
  {
    if a.Ok? {
      AllAcceptable(e, order, a.value);
    }
    if b.Ok? {
      AllAcceptable(e, order, b.value);
    }
  }

  lemma AllAcceptable(e: Env, order: seq<string>, groups: seq<ProfileGroup>)
    requires forall ref :: ref in order ==> ref in e.groups
    requires CompiledFrom(e, order, Ok(groups))
    ensures forall i :: 0 <= i < |order| ==> Acceptable(RowOf(e, order[i], CompileAll(e, order, map[])[i]))
    ensures groups == seq(|order|, i requires 0 <= i < |order| => RowOf(e, order[i], CompileAll(e, order, map[])[i]))
  {
    forall i | 0 <= i < |order| ensures Acceptable(RowOf(e, order[i], CompileAll(e, order, map[])[i])) {
      assert Acceptable(groups[i]);
    }
  }

  /** The lists decide the compiled groups, their order and every error: nothing is left to the dictionaries. */
  lemma CompileIsDetermined(raws: seq<RawGroup>, rows: seq<EntityRow>,
                            order: seq<string>, declared: map<string, Group>, entities: map<string, Entity>, a: Result<seq<ProfileGroup>, nat>,
                            order': seq<string>, declared': map<string, Group>, entities': map<string, Entity>, b: Result<seq<ProfileGroup>, nat>)
    requires CompilesTo(raws, rows, order, declared, entities, a) && CompilesTo(raws, rows, order', declared', entities', b)
    ensures order == order' && declared == declared' && entities == entities' && a == b
  {
    var seen := if |raws| <= 256 then raws else raws[..256];
    CollectedIsDetermined(seen, order, declared, order', declared');
    FirstRowsAreDetermined(rows, |rows|, entities, entities');
    CompiledFromIsDetermined(Env(WithoutCollisions(declared, entities), entities), order, a, b);
  }

  /** `_compile_groups`: what the walk works on is what the lists declare, and its rows are what the profile gets. */
  method CompileGroups(raws: seq<RawGroup>, rows: seq<EntityRow>)
    returns (compiled: Result<seq<ProfileGroup>, nat>)
    ensures exists order: seq<string>, declared: map<string, Group>, entities: map<string, Entity> ::
      CompilesTo(raws, rows, order, declared, entities, compiled)
  {
    var names, groups := Collect(raws);
    var entities := MapEntities(rows);
    var env := Env(WithoutCollisions(groups, entities), entities);
    compiled := CompileRows(env, names);
    assert CompilesTo(raws, rows, names, groups, entities, compiled);
  }

  /**
   Of every compiled list: a row is valid exactly when it has members, and then it lists the one to thirty-two distinct leaves
   of its group's expansion, each an exposed, available, routine entity with an operation.  A group within the nesting bound is
   valid exactly when it has an expansion of at most thirty-two leaves, all of them such entities: no memo, visiting set, count
   or order is part of that.
   */
  lemma CompiledGroupsMean(e: Env, order: seq<string>, groups: seq<ProfileGroup>, i: nat)
    requires forall ref :: ref in order ==> ref in e.groups
    requires CompiledFrom(e, order, Ok(groups)) && i < |order|
    ensures groups[i].ref == order[i] && groups[i].name == e.groups[order[i]].name
    ensures groups[i].valid <==> groups[i].members != []
    ensures groups[i].valid ==>
      && (exists t :: Nesting(e, t) && t.ref == order[i] && Leaves(t) == groups[i].members)
      && 1 <= |groups[i].members| <= 32 && Distinct(groups[i].members)
      && forall m :: m in groups[i].members ==>
           && m !in e.groups && m in e.entities && e.entities[m].exposed && e.entities[m].available
           && e.entities[m].risk == "routine" && e.entities[m].operations != []
    ensures groups[i].valid ==> Operable(e, order[i])
    ensures FitsBelow(e, order[i]) ==>
      (groups[i].valid <==> exists t ::
         && Expands(e, t) && t.ref == order[i] && |Leaves(t)| <= 32
         && forall m :: m in Leaves(t) ==>
              && m in e.entities && e.entities[m].exposed && e.entities[m].available
              && e.entities[m].risk == "routine" && e.entities[m].operations != [])
  {
    OperableMeans(e, order[i]);
    ValidMeansOperable(e, order, groups, i);
    if groups[i].valid {
      var t :| Nesting(e, t) && t.ref == order[i] && Leaves(t) == groups[i].members;
      NestingMeans(e, t);
    }
  }

  /** A group within the nesting bound that has an expansion is valid exactly when its leaves are few and all such entities. */
  lemma ExpansionDecides(e: Env, order: seq<string>, groups: seq<ProfileGroup>, i: nat, t: Tree)
    requires forall ref :: ref in order ==> ref in e.groups
    requires CompiledFrom(e, order, Ok(groups)) && i < |order| && FitsBelow(e, order[i])
    requires Expands(e, t) && t.ref == order[i]
    ensures groups[i].valid <==>
      && |Leaves(t)| <= 32
      && forall m :: m in Leaves(t) ==>
           && m in e.entities && e.entities[m].exposed && e.entities[m].available
           && e.entities[m].risk == "routine" && e.entities[m].operations != []
  {
    ValidMeansOperable(e, order, groups, i);
    NestingMeans(e, t);
    forall u | Nesting(e, u) && u.ref == order[i] ensures u == t {
      NestingMeans(e, u);
      ExpansionIsUnique(e, u, t);
    }
  }

  lemma OperableMeans(e: Env, ref: string)
    ensures Operable(e, ref) <==> exists t ::
      && Expands(e, t) && t.ref == ref && |Leaves(t)| <= 32
      && forall m :: m in Leaves(t) ==>
           && m in e.entities && e.entities[m].exposed && e.entities[m].available
           && e.entities[m].risk == "routine" && e.entities[m].operations != []
  {
    forall t ensures Nesting(e, t) <==>
      Expands(e, t) && forall m :: m in Leaves(t) ==>
        && m in e.entities && e.entities[m].exposed && e.entities[m].available
        && e.entities[m].risk == "routine" && e.entities[m].operations != []
    {
      NestingMeans(e, t);
    }
  }

  /** The same in terms of nestings. */
  lemma ValidMeansOperable(e: Env, order: seq<string>, groups: seq<ProfileGroup>, i: nat)
    requires forall ref :: ref in order ==> ref in e.groups
    requires CompiledFrom(e, order, Ok(groups)) && i < |order|
    ensures groups[i].ref == order[i] && groups[i].name == e.groups[order[i]].name
    ensures groups[i].valid <==> groups[i].members != []
    ensures groups[i].valid ==>
      && (exists t :: Nesting(e, t) && t.ref == order[i] && Leaves(t) == groups[i].members)
      && 1 <= |groups[i].members| <= MAX_MEMBERS && Distinct(groups[i].members)
      && (forall m :: m in groups[i].members ==> m !in e.groups)
      && Operable(e, order[i])
    ensures FitsBelow(e, order[i]) ==> (groups[i].valid <==> Operable(e, order[i]))
  {
    RowsHold(e, order, map[]);
    var row := CompileAll(e, order, map[])[i];
    assert RowIsSound(e, order[i], row) && (FitsBelow(e, order[i]) ==> RowIsExact(e, order[i], row));
    assert groups[i] == RowOf(e, order[i], row) && Acceptable(groups[i]);
    if groups[i].valid {
      GroupsStandForEntities(e, order[i], row);
      var t :| Unfolds(e, t) && t.ref == order[i] && Leaves(t) == row;
      UnfoldsIsNesting(e, t);
    }
    if Operable(e, order[i]) {
      OperableUnfolds(e, order[i]);
    }
  }

  lemma OperableUnfolds(e: Env, ref: string)
    requires Operable(e, ref)
    ensures Unfoldable(e, ref)
  {
    var t :| Nesting(e, t) && t.ref == ref && |Leaves(t)| <= MAX_MEMBERS;
    SmallNestingsUnfold(e, t);
  }

  lemma EntityHasRow(rows: seq<EntityRow>, entities: map<string, Entity>, m: string) returns (k: nat)
    requires FirstRows(rows, |rows|, entities) && m in entities
    ensures k < |rows| && rows[k].ref == m && !Named(rows, k, m) && rows[k].entity == entities[m]
  {
    FirstRowExists(rows, |rows|, m);
    k :| 0 <= k < |rows| && rows[k].ref == m && !Named(rows, k, m);
  }

  /** Of a compiled snapshot: the members of a valid row are references of rows that are exposed, available, routine and operable. */
  lemma ValidMembersAreRows(raws: seq<RawGroup>, rows: seq<EntityRow>, order: seq<string>, declared: map<string, Group>,
                            entities: map<string, Entity>, groups: seq<ProfileGroup>, i: nat, m: string) returns (k: nat)
    requires CompilesTo(raws, rows, order, declared, entities, Ok(groups)) && i < |groups| && groups[i].valid && m in groups[i].members
    ensures k < |rows| && rows[k].ref == m && !Named(rows, k, m)
    ensures rows[k].entity.exposed && rows[k].entity.available && rows[k].entity.risk == "routine" && rows[k].entity.operations != []
  {
    CompiledGroupsMean(Env(WithoutCollisions(declared, entities), entities), order, groups, i);
    k := EntityHasRow(rows, entities, m);
  }

  /** What the first loop makes of every declaration. */
  ghost predicate ShapesHold(e: Env) {
    forall ref :: ref in e.groups && e.groups[ref].valid ==> ShapeIsValid(e.groups[ref].members)
  }

  lemma CollectedShapesHold(raws: seq<RawGroup>, order: seq<string>, groups: map<string, Group>, entities: map<string, Entity>)
    requires Collected(raws, order, groups)
    ensures ShapesHold(Env(WithoutCollisions(groups, entities), entities))
  {
    var e := Env(WithoutCollisions(groups, entities), entities);
    forall ref | ref in e.groups && e.groups[ref].valid ensures ShapeIsValid(e.groups[ref].members) {
      assert DeclaredAs(raws, ref, groups[ref]);
    }
  }

  lemma {:induction false} LeavesHaveShape(e: Env, t: Tree)
    requires Unfolds(e, t) && ShapesHold(e)
    ensures forall m :: m in Leaves(t) ==> (t.Leaf? && m == t.ref) || (m != "" && '.' !in m)
    decreases t, 1, 0
  {
    if t.Leaf? {
    } else {
      AllLeavesHaveShape(e, t, |t.children|);
      assert t.children[..|t.children|] == t.children;
    }
  }

  lemma {:induction false} AllLeavesHaveShape(e: Env, t: Tree, k: nat)
    requires Unfolds(e, t) && t.Nest? && ShapesHold(e) && k <= |t.children|
    ensures forall m :: m in LeavesOfAll(t.children[..k]) ==> m != "" && '.' !in m
    decreases t, 0, k
  {
    if k == 0 {
    } else {
      AllLeavesHaveShape(e, t, k - 1);
      assert t.children[..k][..k - 1] == t.children[..k - 1];
      var child := t.children[k - 1];
      LeavesHaveShape(e, child);
      assert child.ref in e.groups[t.ref].members;
    }
  }

  /**
   Where the compile raises, the group's reference or name is out of bounds, or it unfolds to more than thirty-two entities;
   and if every group is within the nesting bound, it raises whenever there is such a group.
   */
  lemma CompileRaisesExactly(e: Env, order: seq<string>, compiled: Result<seq<ProfileGroup>, nat>)
    requires forall ref :: ref in order ==> ref in e.groups
    requires CompiledFrom(e, order, compiled) && ShapesHold(e)
    ensures compiled.Err? ==> Unacceptable(e, order[compiled.error])
    ensures (forall ref :: ref in order ==> FitsBelow(e, ref)) ==> (compiled.Err? <==> exists ref :: ref in order && Unacceptable(e, ref))
  {
    RowsHold(e, order, map[]);
    var rows := CompileAll(e, order, map[]);
    if compiled.Err? {
      RowIsRefused(e, order[compiled.error], rows[compiled.error]);
    } else if forall ref :: ref in order ==> FitsBelow(e, ref) {
      forall ref | ref in order ensures !Unacceptable(e, ref) {
        var i :| 0 <= i < |order| && order[i] == ref;
        assert RowIsExact(e, order[i], rows[i]) && Acceptable(compiled.value[i]);
        RowIsAcceptable(e, order[i], rows[i]);
      }
    }
  }

  /** A row that the group type refuses comes from a group that is out of bounds, whatever the depth. */
  lemma RowIsRefused(e: Env, ref: string, row: seq<string>)
    requires ref in e.groups && RowIsSound(e, ref, row) && ShapesHold(e) && !Acceptable(RowOf(e, ref, row))
    ensures Unacceptable(e, ref)
  {
    if row != [] {
      var t :| Unfolds(e, t) && t.ref == ref && Leaves(t) == row;
      LeavesHaveShape(e, t);
    }
  }

  ghost predicate Unacceptable(e: Env, ref: string)
    requires ref in e.groups
  {
    || |ref| > 128 || '.' in ref || |e.groups[ref].name| > 256
    || exists members :: StandsFor(e, ref, members) && |members| > 32
  }

  lemma RowIsAcceptable(e: Env, ref: string, row: seq<string>)
    requires ref in e.groups && RowIsExact(e, ref, row) && ShapesHold(e)
    ensures !Acceptable(RowOf(e, ref, row)) <==> Unacceptable(e, ref)
  {
    if row != [] {
      var v :| Unfolds(e, v) && v.ref == ref && Leaves(v) == row;
      LeavesHaveShape(e, v);
    }
    forall members | StandsFor(e, ref, members) ensures members == row {
      var t :| Unfolds(e, t) && t.ref == ref && Leaves(t) == members;
      var u :| Unfolds(e, u) && u.ref == ref && Leaves(u) == row;
      UnfoldingIsUnique(e, t, u);
    }
  }

  // ---------------------------------------------------------------------------------------------------------
  // Groups of more than thirty-two entities
  // ---------------------------------------------------------------------------------------------------------

  /** The group's own entities come first, and no group in it has more than thirty-two entities. */
  predicate OwnEntitiesFirst(children: seq<Tree>) {
    && (forall i, j :: 0 <= i < j < |children| && children[j].Leaf? ==> children[i].Leaf?)
    && forall i :: 0 <= i < |children| ==> |Leaves(children[i])| <= MAX_MEMBERS
  }

  lemma {:induction false} LeavesOfLeaves(ts: seq<Tree>)
    requires forall i :: 0 <= i < |ts| ==> ts[i].Leaf?
    ensures |LeavesOfAll(ts)| == |ts|
  {
    if ts == [] {
    } else {
      LeavesOfLeaves(ts[..|ts| - 1]);
    }
  }

  lemma OwnEntitiesFirstUnfolds(e: Env, t: Tree)
    requires Nesting(e, t) && t.Nest? && OwnEntitiesFirst(t.children) && |t.children| <= MAX_MEMBERS
    ensures Unfolds(e, t)
  {
    forall i | 0 <= i < |t.children| ensures Unfolds(e, t.children[i]) {
      SmallNestingsUnfold(e, t.children[i]);
    }
    forall i | 0 <= i < |t.children| && t.children[i].Leaf? ensures |LeavesOfAll(t.children[..i + 1])| <= MAX_MEMBERS {
      LeavesOfLeaves(t.children[..i + 1]);
    }
  }

  lemma OwnEntityLastDoesNotUnfold(e: Env, t: Tree)
    requires t.Nest? && t.children != [] && t.children[|t.children| - 1].Leaf? && |Leaves(t)| > MAX_MEMBERS
    ensures !Unfolds(e, t)
  {
    assert t.children[..|t.children|] == t.children;
  }

  /**
   Above thirty-two entities the order of the members decides.  A group whose last member is an entity of its own becomes
   invalid; one that names its own entities first makes the compile raise; and so with every other group, as the walk gets
   through it or not.
   */
  lemma MemberOrderDecides(e: Env, order: seq<string>, compiled: Result<seq<ProfileGroup>, nat>, i: nat, t: Tree)
    requires forall ref :: ref in order ==> ref in e.groups
    requires CompiledFrom(e, order, compiled) && ShapesHold(e) && i < |order| && FitsBelow(e, order[i])
    requires Nesting(e, t) && t.ref == order[i] && |Leaves(t)| > MAX_MEMBERS
    ensures t.Nest? && t.children != []
    ensures Unfolds(e, t) ==> compiled.Err? && compiled.error <= i
    ensures !Unfolds(e, t) ==> CompileAll(e, order, map[])[i] == [] && (compiled.Ok? ==> !compiled.value[i].valid)
    ensures t.children[|t.children| - 1].Leaf? ==> !Unfolds(e, t)
    ensures OwnEntitiesFirst(t.children) ==> Unfolds(e, t)
  {
    RowsHold(e, order, map[]);
    var row := CompileAll(e, order, map[])[i];
    assert RowIsExact(e, order[i], row);
    if Unfolds(e, t) {
      var u :| Unfolds(e, u) && u.ref == order[i] && Leaves(u) == row;
      UnfoldingIsUnique(e, t, u);
      assert !Acceptable(RowOf(e, order[i], row));
    } else {
      forall u | Unfolds(e, u) && u.ref == order[i] ensures false {
        UnfoldsIsNesting(e, u);
        NestingIsUnique(e, t, u);
      }
    }
    if t.children[|t.children| - 1].Leaf? {
      OwnEntityLastDoesNotUnfold(e, t);
    }
    if OwnEntitiesFirst(t.children) {
      assert e.groups[t.ref].valid;
      OwnEntitiesFirstUnfolds(e, t);
    }
  }
}
