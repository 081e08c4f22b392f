/** A snapshot that cannot be compiled: two safe groups of twenty lamps each, and a group of the two. */
module NestedHouse {
  import opened Common
  import opened Groups
  import opened GroupCompiler

  const LAMP := Entity(true, true, ROUTINE, ["turn_on"])

  /** `l`, `ll`, `lll`, ... */
  function Lamp(k: nat): (ref: string)
    ensures |ref| == k + 1 && forall c :: c in ref ==> c == 'l'
  {
    seq(k + 1, _ => 'l')
  }

  function Lamps(from: nat, n: nat): (refs: seq<string>)
    ensures |refs| == n
    ensures forall i :: 0 <= i < n ==> refs[i] == Lamp(from + i)
  {
    seq(n, i requires 0 <= i < n => Lamp(from + i))
  }

  /** The members of the three groups. */
  function Nested(ref: string): seq<string>
    requires ref in ["all", "one", "two"]
  {
    if ref == "all" then ["one", "two"] else if ref == "one" then Lamps(0, 20) else Lamps(20, 20)
  }

  const HOUSE: seq<RawGroup> := [
    Raw("all", "All lamps", Some(Nested("all"))), Raw("one", "First floor", Some(Nested("one"))), Raw("two", "Second floor", Some(Nested("two")))]

  const HOUSE_ROWS: seq<EntityRow> := seq(40, k requires 0 <= k < 40 => EntityRow(Lamp(k), LAMP))

  const HOUSE_GROUPS: map<string, Group> := map[
    "all" := Group("All lamps", Nested("all"), true), "one" := Group("First floor", Nested("one"), true),
    "two" := Group("Second floor", Nested("two"), true)]

  const HOUSE_LAMPS: map<string, Entity> := map ref: string | ref in (set k: nat | k < 40 :: Lamp(k)) :: LAMP

  lemma LampsDiffer(from: nat, n: nat)
    ensures Distinct(Lamps(from, n))
    ensures forall m :: m in Lamps(from, n) ==> m != "" && '.' !in m && m !in ["all", "one", "two"]
  {
    forall i, j | 0 <= i < j < n ensures Lamps(from, n)[i] != Lamps(from, n)[j] {
      assert |Lamp(from + i)| != |Lamp(from + j)|;
    }
    forall m | m in Lamps(from, n) ensures m !in ["all", "one", "two"] {
      assert m[0] == 'l' && "all"[0] == 'a' && "one"[0] == 'o' && "two"[0] == 't';
    }
  }

  lemma NamesDiffer()
    ensures "all" != "one" && "all" != "two" && "one" != "two"
  {
    assert "one"[0] == 'o' && "two"[0] == 't' && "all"[0] == 'a';
  }

  lemma NestedIsValid(ref: string)
    requires ref in ["all", "one", "two"]
    ensures ShapeIsValid(Nested(ref))
  {
    NamesDiffer();
    if ref == "all" {
      assert '.' !in "one" && '.' !in "two";
    } else {
      LampsDiffer(if ref == "one" then 0 else 20, 20);
    }
  }

  lemma HouseDeclares(ref: string, i: nat)
    requires i < 3 && ref == ["all", "one", "two"][i]
    ensures FirstAt(HOUSE, ref, i) && FirstPosition(HOUSE, ref) == i && !Repeated(HOUSE, ref)
    ensures DeclaredAs(HOUSE, ref, HOUSE_GROUPS[ref])
  {
    NamesDiffer();
    assert HOUSE[0].ref == "all" && HOUSE[1].ref == "one" && HOUSE[2].ref == "two";
    assert FirstAt(HOUSE, ref, i);
    assert FirstAt(HOUSE, ref, FirstPosition(HOUSE, ref));
    NestedIsValid(ref);
    assert HOUSE_GROUPS[ref] == Group(HOUSE[i].name, Nested(ref), true);
  }

  lemma HouseOrder()
    ensures var order := ["all", "one", "two"];
      Distinct(order) && InFirstOrder(HOUSE, order) && forall ref :: ref in order ==> FirstPosition(HOUSE, ref) < 3
  {
    NamesDiffer();
    HouseDeclares("all", 0);
    HouseDeclares("one", 1);
    HouseDeclares("two", 2);
  }

  lemma HouseGroupsAreDeclared()
    ensures forall ref :: ref in HOUSE_GROUPS ==> DeclaredAs(HOUSE, ref, HOUSE_GROUPS[ref])
  {
    forall ref | ref in HOUSE_GROUPS ensures DeclaredAs(HOUSE, ref, HOUSE_GROUPS[ref]) {
      HouseDeclares(ref, if ref == "all" then 0 else if ref == "one" then 1 else 2);
    }
  }

  lemma HouseIsCollected()
    ensures Collected(HOUSE, ["all", "one", "two"], HOUSE_GROUPS)
  {
    HouseOrder();
    HouseGroupsAreDeclared();
  }

  lemma HouseHasItsLamps()
    ensures FirstRows(HOUSE_ROWS, 40, HOUSE_LAMPS)
  {
    forall ref ensures ref in HOUSE_LAMPS <==> ref != "" && Named(HOUSE_ROWS, 40, ref) {
      if ref in HOUSE_LAMPS {
        var k: nat :| k < 40 && Lamp(k) == ref;
        assert HOUSE_ROWS[k].ref == ref;
      } else if Named(HOUSE_ROWS, 40, ref) {
        var k :| 0 <= k < 40 && HOUSE_ROWS[k].ref == ref;
        assert ref == Lamp(k);
      }
    }
    forall k | 0 <= k < 40 ensures HOUSE_ROWS[k].ref in HOUSE_LAMPS && HOUSE_LAMPS[HOUSE_ROWS[k].ref] == HOUSE_ROWS[k].entity {
      assert HOUSE_ROWS[k].ref == Lamp(k);
    }
  }

  function LampLeaves(from: nat, n: nat): (ts: seq<Tree>)
    ensures |ts| == n
    ensures forall i :: 0 <= i < n ==> ts[i] == Leaf(Lamp(from + i))
  {
    seq(n, i requires 0 <= i < n => Leaf(Lamp(from + i)))
  }

  lemma {:induction false} LampLeavesAreLamps(from: nat, n: nat)
    ensures LeavesOfAll(LampLeaves(from, n)) == Lamps(from, n)
  {
    if n == 0 {
    } else {
      LampLeavesAreLamps(from, n - 1);
      assert LampLeaves(from, n)[..n - 1] == LampLeaves(from, n - 1);
      assert Lamps(from, n) == Lamps(from, n - 1) + [Lamp(from + n - 1)];
    }
  }

  const HOUSE_ENV: Env := Env(HOUSE_GROUPS, HOUSE_LAMPS)

  lemma FloorUnfolds(ref: string, from: nat)
    requires (ref == "one" && from == 0) || (ref == "two" && from == 20)
    ensures Unfolds(HOUSE_ENV, Nest(ref, LampLeaves(from, 20))) && Leaves(Nest(ref, LampLeaves(from, 20))) == Lamps(from, 20)
  {
    NamesDiffer();
    LampsDiffer(from, 20);
    LampLeavesAreLamps(from, 20);
    var ts := LampLeaves(from, 20);
    forall i | 0 <= i < 20 && ts[i].Leaf? ensures |LeavesOfAll(ts[..i + 1])| <= MAX_MEMBERS {
      assert ts[..i + 1] == LampLeaves(from, i + 1);
      LampLeavesAreLamps(from, i + 1);
    }
    assert HOUSE_GROUPS[ref].valid && HOUSE_GROUPS[ref].members == Lamps(from, 20);
    forall i | 0 <= i < 20 ensures ts[i].ref == Lamps(from, 20)[i] && Unfolds(HOUSE_ENV, ts[i]) {
      assert Lamp(from + i) in HOUSE_LAMPS && Lamps(from, 20)[i] in Lamps(from, 20);
    }
  }

  lemma TwoChildren(one: Tree, two: Tree)
    requires one.Nest? && two.Nest?
    ensures LeavesOfAll([one, two]) == Leaves(one) + Leaves(two) && DirectCountsFit([one, two])
  {
    assert [one, two][..1] == [one] && [one][..0] == [];
    assert LeavesOfAll([one]) == Leaves(one);
  }

  lemma TwoNested(e: Env, ref: string, one: Tree, two: Tree)
    requires one.Nest? && two.Nest? && Unfolds(e, one) && Unfolds(e, two)
    requires ref in e.groups && e.groups[ref].valid && e.groups[ref].members == [one.ref, two.ref]
    requires Leaves(one) != [] && Distinct(Leaves(one) + Leaves(two))
    ensures StandsFor(e, ref, Leaves(one) + Leaves(two))
  {
    TwoChildren(one, two);
    NestUnfolds(e, ref, [one, two]);
  }

  lemma NestUnfolds(e: Env, ref: string, children: seq<Tree>)
    requires ref in e.groups && e.groups[ref].valid && |children| == |e.groups[ref].members|
    requires forall i :: 0 <= i < |children| ==> children[i].ref == e.groups[ref].members[i] && Unfolds(e, children[i])
    requires LeavesOfAll(children) != [] && Distinct(LeavesOfAll(children)) && DirectCountsFit(children)
    ensures StandsFor(e, ref, LeavesOfAll(children))
  {
    var t := Nest(ref, children);
    assert Unfolds(e, t) && t.ref == ref && Leaves(t) == LeavesOfAll(children);
  }

  lemma HouseUnfolds()
    ensures StandsFor(HOUSE_ENV, "all", Lamps(0, 40))
    ensures Unfoldable(HOUSE_ENV, "all") && Unfoldable(HOUSE_ENV, "one") && Unfoldable(HOUSE_ENV, "two")
  {
    NamesDiffer();
    FloorUnfolds("one", 0);
    FloorUnfolds("two", 20);
    assert Lamps(0, 20) + Lamps(20, 20) == Lamps(0, 40);
    LampsDiffer(0, 40);
    TwoNested(HOUSE_ENV, "all", Nest("one", LampLeaves(0, 20)), Nest("two", LampLeaves(20, 20)));
  }

  lemma NoGroupIsALamp(k: nat)
    ensures Lamp(k) !in HOUSE_GROUPS
  {
    assert Lamp(k)[0] == 'l' && "one"[0] == 'o' && "two"[0] == 't' && "all"[0] == 'a';
  }

  lemma HouseHasNoCollisions()
    ensures WithoutCollisions(HOUSE_GROUPS, HOUSE_LAMPS) == HOUSE_GROUPS
  {
    forall k: nat ensures Lamp(k) !in HOUSE_GROUPS {
      NoGroupIsALamp(k);
    }
  }

  lemma HouseIsSmall()
    ensures forall ref :: FitsBelow(HOUSE_ENV, ref)
  {
    assert HOUSE_GROUPS.Keys == {"all", "one", "two"};
    FewGroupsFit(HOUSE_ENV);
  }

  lemma HouseRaises(compiled: Result<seq<ProfileGroup>, nat>)
    requires (forall ref :: ref in ["all", "one", "two"] ==> ref in HOUSE_GROUPS)
    requires CompiledFrom(HOUSE_ENV, ["all", "one", "two"], compiled)
    ensures compiled.Err?
  {
    HouseIsCollected();
    HouseHasNoCollisions();
    CollectedShapesHold(HOUSE, ["all", "one", "two"], HOUSE_GROUPS, HOUSE_LAMPS);
    HouseIsSmall();
    HouseUnfolds();
    assert Unacceptable(HOUSE_ENV, "all");
    CompileRaisesExactly(HOUSE_ENV, ["all", "one", "two"], compiled);
  }

  lemma HouseIsDecided(order: seq<string>, declared: map<string, Group>, entities: map<string, Entity>)
    requires Collected(HOUSE, order, declared) && FirstRows(HOUSE_ROWS, 40, entities)
    ensures order == ["all", "one", "two"] && declared == HOUSE_GROUPS && entities == HOUSE_LAMPS
  {
    HouseIsCollected();
    HouseHasItsLamps();
    CollectedIsDetermined(HOUSE, order, declared, ["all", "one", "two"], HOUSE_GROUPS);
    FirstRowsAreDetermined(HOUSE_ROWS, 40, entities, HOUSE_LAMPS);
  }

  lemma HouseIsCompiled(order: seq<string>, declared: map<string, Group>, entities: map<string, Entity>,
                        compiled: Result<seq<ProfileGroup>, nat>)
    requires CompilesTo(HOUSE, HOUSE_ROWS, order, declared, entities, compiled)
    ensures order == ["all", "one", "two"] && Env(declared, entities) == HOUSE_ENV
    ensures forall ref :: ref in ["all", "one", "two"] ==> ref in HOUSE_GROUPS
    ensures CompiledFrom(HOUSE_ENV, ["all", "one", "two"], compiled)
  {
    HouseIsDecided(order, declared, entities);
    HouseHasNoCollisions();
  }

  lemma HouseNests()
    ensures forall ref :: ref in ["all", "one", "two"] ==> HasNesting(HOUSE_ENV, ref)
  {
    HouseUnfolds();
    forall t | Unfolds(HOUSE_ENV, t) ensures Nesting(HOUSE_ENV, t) {
      UnfoldsIsNesting(HOUSE_ENV, t);
    }
  }

  /**
   A house of two safe groups of twenty lamps and a group of the two, which is safe as well: the compile raises, and no
   profile is made of this snapshot.
   */
  lemma NestedGroupsStopTheCompile(order: seq<string>, declared: map<string, Group>, entities: map<string, Entity>,
                                   compiled: Result<seq<ProfileGroup>, nat>)
    requires CompilesTo(HOUSE, HOUSE_ROWS, order, declared, entities, compiled)
    ensures order == ["all", "one", "two"] && compiled.Err?
    ensures forall ref :: ref in order ==> HasNesting(Env(declared, entities), ref)
  {
    HouseIsCompiled(order, declared, entities, compiled);
    HouseRaises(compiled);
    HouseNests();
  }
}
