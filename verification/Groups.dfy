/**
 Group compilation: named Home Assistant groups, possibly nested and possibly cyclic, are resolved to the entities they
 stand for.  `Resolve` is the memoised depth-first walk of the compiler; `Nesting` says what a group stands for without any
 memo, visiting set, count or order.  `Unfolds` adds the one count that the walk keeps while it goes through the members.
 */
module Groups {
  import opened Common

  const MAX_MEMBERS := 32
  const MAX_DEPTH := 32
  const ROUTINE := "routine"

  datatype Group = Group(name: string, members: seq<string>, valid: bool)

  datatype Entity = Entity(exposed: bool, available: bool, risk: string, operations: seq<string>)

  datatype Env = Env(groups: map<string, Group>, entities: map<string, Entity>)

  /** The memo keeps `None` for a group that must not be executable. */
  type Memo = map<string, Option<seq<string>>>

  datatype Outcome = Outcome(memo: Memo, value: Option<seq<string>>)

  /** An entity a group may contain: exposed, available, routine and operable. */
  predicate Usable(e: Env, ref: string) {
    && ref in e.entities
    && e.entities[ref].exposed && e.entities[ref].available
    && e.entities[ref].risk == ROUTINE
    && e.entities[ref].operations != []
  }

  function Resolve(e: Env, memo: Memo, visiting: set<string>, ref: string): Outcome
    requires ref in e.groups
    decreases e.groups.Keys - visiting, 0, 0
  {
    if ref in memo then Outcome(memo, memo[ref])
    else if !e.groups[ref].valid || ref in visiting || |visiting| >= MAX_DEPTH then Outcome(memo[ref := None], None)
    else Gather(e, memo, visiting + {ref}, ref, 0, [])
  }

  /** The loop over the members of `ref` from the `i`-th on, with `members` collected so far. */
  function Gather(e: Env, memo: Memo, visiting: set<string>, ref: string, i: nat, members: seq<string>): Outcome
    requires ref in e.groups && i <= |e.groups[ref].members|
    decreases e.groups.Keys - visiting, 1, |e.groups[ref].members| - i
  {
    if i == |e.groups[ref].members| then
      var value := if !Distinct(members) || members == [] then None else Some(members);
      Outcome(memo[ref := value], value)
    else
      var member := e.groups[ref].members[i];
      if member in e.groups then
        var nested := Resolve(e, memo, visiting, member);
        if nested.value.None? then Outcome(nested.memo[ref := None], None)
        else Gather(e, nested.memo, visiting, ref, i + 1, members + nested.value.value)
      else if !Usable(e, member) || |members| + 1 > MAX_MEMBERS then Outcome(memo[ref := None], None)
      else Gather(e, memo, visiting, ref, i + 1, members + [member])
  }

  /** The rows of the compiled groups in declaration order; an unsafe group has no members. */
  function CompileAll(e: Env, order: seq<string>, memo: Memo): seq<seq<string>>
    requires forall ref :: ref in order ==> ref in e.groups
  {
    if order == [] then []
    else
      var first := Resolve(e, memo, {}, order[0]);
      [if first.value.Some? then first.value.value else []] + CompileAll(e, order[1..], first.memo)
  }

  // ---------------------------------------------------------------------------------------------------------
  // What a group stands for
  // ---------------------------------------------------------------------------------------------------------

  /** The complete nesting below a reference. */
  datatype Tree = Leaf(ref: string) | Nest(ref: string, children: seq<Tree>)

  function Leaves(t: Tree): seq<string> {
    match t
    case Leaf(ref) => [ref]
    case Nest(_, children) => LeavesOfAll(children)
  }

  function LeavesOfAll(ts: seq<Tree>): seq<string> {
    if ts == [] then [] else LeavesOfAll(ts[..|ts| - 1]) + Leaves(ts[|ts| - 1])
  }

  /** `t` is the finite nesting of a safe group, or a usable entity; every group in it is safe as well. */
  ghost predicate Nesting(e: Env, t: Tree)
    decreases t
  {
    match t
    case Leaf(ref) => ref !in e.groups && Usable(e, ref)
    case Nest(ref, children) =>
      && ref in e.groups && e.groups[ref].valid
      && |children| == |e.groups[ref].members|
      && (forall i :: 0 <= i < |children| ==> children[i].ref == e.groups[ref].members[i] && Nesting(e, children[i]))
      && LeavesOfAll(children) != [] && Distinct(LeavesOfAll(children))
  }

  /** The tree of memberships below a reference, whatever its leaves are. */
  ghost predicate Expands(e: Env, t: Tree)
    decreases t
  {
    match t
    case Leaf(ref) => ref !in e.groups
    case Nest(ref, children) =>
      && ref in e.groups && e.groups[ref].valid
      && |children| == |e.groups[ref].members|
      && (forall i :: 0 <= i < |children| ==> children[i].ref == e.groups[ref].members[i] && Expands(e, children[i]))
      && LeavesOfAll(children) != [] && Distinct(LeavesOfAll(children))
  }

  ghost predicate HasNesting(e: Env, ref: string) {
    exists t :: Nesting(e, t) && t.ref == ref
  }

  /** The group has a nesting of at most thirty-two entities. */
  ghost predicate Operable(e: Env, ref: string) {
    exists t :: Nesting(e, t) && t.ref == ref && |Leaves(t)| <= 32
  }

  /** The members collected when a direct entity is appended never exceed the bound. */
  ghost predicate DirectCountsFit(ts: seq<Tree>) {
    forall i :: 0 <= i < |ts| && ts[i].Leaf? ==> |LeavesOfAll(ts[..i + 1])| <= MAX_MEMBERS
  }

  /** A nesting through which the walk gets without exceeding the bound at a direct entity. */
  ghost predicate Unfolds(e: Env, t: Tree)
    decreases t
  {
    match t
    case Leaf(ref) => ref !in e.groups && Usable(e, ref)
    case Nest(ref, children) =>
      && ref in e.groups && e.groups[ref].valid
      && |children| == |e.groups[ref].members|
      && (forall i :: 0 <= i < |children| ==> children[i].ref == e.groups[ref].members[i] && Unfolds(e, children[i]))
      && LeavesOfAll(children) != [] && Distinct(LeavesOfAll(children))
      && DirectCountsFit(children)
  }

  /** The group stands for exactly these entities: the leaves, left to right, of its nesting. */
  ghost predicate StandsFor(e: Env, ref: string, members: seq<string>) {
    exists t :: Unfolds(e, t) && t.ref == ref && Leaves(t) == members
  }

  ghost predicate Unfoldable(e: Env, ref: string) {
    exists t :: Unfolds(e, t) && t.ref == ref
  }

  /** Distinct groups, each a member of the one before; all but the last are well formed. */
  ghost predicate Chain(e: Env, c: seq<string>) {
    && (forall i :: 0 <= i < |c| ==> c[i] in e.groups)
    && (forall i :: 0 <= i < |c| - 1 ==> e.groups[c[i]].valid && c[i + 1] in e.groups[c[i]].members)
    && Distinct(c)
  }

  /** A path of memberships through well-formed groups. */
  ghost predicate Path(e: Env, c: seq<string>) {
    forall i :: 0 <= i < |c| - 1 ==> c[i] in e.groups && e.groups[c[i]].valid && c[i + 1] in e.groups[c[i]].members
  }

  ghost predicate Reaches(e: Env, from: string, to: string) {
    exists c :: c != [] && c[0] == from && c[|c| - 1] == to && Path(e, c)
  }

  ghost predicate Touches(e: Env, ref: string, c: seq<string>) {
    exists to :: to in c && Reaches(e, ref, to)
  }

  /**
   No chain that meets what a group contains is too long.  The chains that contain the group itself do not suffice: a long
   one that reaches only its member leaves that member marked as failed for both.
   */
  ghost predicate FitsBelow(e: Env, ref: string) {
    forall c :: Chain(e, c) && Touches(e, ref, c) ==> |c| <= 32
  }

  lemma ReachesThroughMember(e: Env, ref: string, member: string, to: string)
    requires ref in e.groups && e.groups[ref].valid && member in e.groups[ref].members && Reaches(e, member, to)
    ensures Reaches(e, ref, to)
  {
    var path :| path != [] && path[0] == member && path[|path| - 1] == to && Path(e, path);
    var longer := [ref] + path;
    assert longer[0] == ref && longer[|longer| - 1] == to;
    assert Path(e, longer);
  }

  lemma MembersFitBelow(e: Env, ref: string, member: string)
    requires ref in e.groups && e.groups[ref].valid && member in e.groups[ref].members && FitsBelow(e, ref)
    ensures FitsBelow(e, member)
  {
    forall c | Chain(e, c) && Touches(e, member, c) ensures |c| <= MAX_DEPTH {
      var to :| to in c && Reaches(e, member, to);
      ReachesThroughMember(e, ref, member, to);
      assert Touches(e, ref, c);
    }
  }

  lemma OnItsOwnChain(e: Env, ref: string, c: seq<string>)
    requires Chain(e, c) && ref in c && FitsBelow(e, ref)
    ensures |c| <= MAX_DEPTH
  {
    assert [ref][0] == ref && Path(e, [ref]) && Reaches(e, ref, ref);
    assert Touches(e, ref, c);
  }

  lemma {:induction false} NestingIsUnique(e: Env, t: Tree, u: Tree)
    requires Nesting(e, t) && Nesting(e, u) && t.ref == u.ref
    ensures t == u
    decreases t
  {
    if t.Leaf? {
    } else {
      forall i | 0 <= i < |t.children| ensures t.children[i] == u.children[i] {
        NestingIsUnique(e, t.children[i], u.children[i]);
      }
    }
  }

  /** A nesting is an expansion whose leaves are exposed, available, routine and operable entities. */
  lemma {:induction false} NestingMeans(e: Env, t: Tree)
    ensures Nesting(e, t) <==>
      Expands(e, t) && forall m :: m in Leaves(t) ==>
        && m in e.entities && e.entities[m].exposed && e.entities[m].available
        && e.entities[m].risk == "routine" && e.entities[m].operations != []
    decreases t
  {
    if t.Leaf? {
    } else {
      forall i | 0 <= i < |t.children|
        ensures Nesting(e, t.children[i]) <==>
          Expands(e, t.children[i]) && forall m :: m in Leaves(t.children[i]) ==>
            && m in e.entities && e.entities[m].exposed && e.entities[m].available
            && e.entities[m].risk == "routine" && e.entities[m].operations != []
      {
        NestingMeans(e, t.children[i]);
      }
      forall m ensures m in Leaves(t) <==> exists i :: 0 <= i < |t.children| && m in Leaves(t.children[i]) {
        LeafOfOne(t.children, m);
      }
    }
  }

  lemma {:induction false} LeafOfOne(ts: seq<Tree>, m: string)
    ensures m in LeavesOfAll(ts) <==> exists i :: 0 <= i < |ts| && m in Leaves(ts[i])
  {
    if ts == [] {
    } else {
      var before := ts[..|ts| - 1];
      LeafOfOne(before, m);
      assert forall i :: 0 <= i < |before| ==> before[i] == ts[i];
    }
  }

  lemma {:induction false} ExpansionIsUnique(e: Env, t: Tree, u: Tree)
    requires Expands(e, t) && Expands(e, u) && t.ref == u.ref
    ensures t == u
    decreases t
  {
    if t.Leaf? {
    } else {
      forall i | 0 <= i < |t.children| ensures t.children[i] == u.children[i] {
        ExpansionIsUnique(e, t.children[i], u.children[i]);
      }
    }
  }

  lemma {:induction false} UnfoldsIsNesting(e: Env, t: Tree)
    requires Unfolds(e, t)
    ensures Nesting(e, t)
    decreases t
  {
    if t.Leaf? {
    } else {
      forall i | 0 <= i < |t.children| ensures Nesting(e, t.children[i]) {
        UnfoldsIsNesting(e, t.children[i]);
      }
    }
  }

  lemma UnfoldingIsUnique(e: Env, t: Tree, u: Tree)
    requires Unfolds(e, t) && Unfolds(e, u) && t.ref == u.ref
    ensures t == u
  {
    UnfoldsIsNesting(e, t);
    UnfoldsIsNesting(e, u);
    NestingIsUnique(e, t, u);
  }

  lemma {:induction false} PartsAreSmaller(ts: seq<Tree>, k: nat)
    requires k <= |ts|
    ensures |LeavesOfAll(ts[..k])| <= |LeavesOfAll(ts)|
    ensures k < |ts| ==> |Leaves(ts[k])| <= |LeavesOfAll(ts)|
  {
    if k == |ts| {
      assert ts[..k] == ts;
    } else if k == |ts| - 1 {
      assert ts[..k] == ts[..|ts| - 1];
    } else {
      PartsAreSmaller(ts[..|ts| - 1], k);
      assert ts[..|ts| - 1][..k] == ts[..k];
    }
  }

  /** Within the bound the walk gets through every nesting, so there the order of the members does not matter. */
  lemma {:induction false} SmallNestingsUnfold(e: Env, t: Tree)
    requires Nesting(e, t) && |Leaves(t)| <= MAX_MEMBERS
    ensures Unfolds(e, t)
    decreases t
  {
    if t.Leaf? {
    } else {
      forall i | 0 <= i < |t.children|
        ensures Unfolds(e, t.children[i]) && |LeavesOfAll(t.children[..i + 1])| <= MAX_MEMBERS
      {
        PartsAreSmaller(t.children, i);
        PartsAreSmaller(t.children, i + 1);
        SmallNestingsUnfold(e, t.children[i]);
      }
    }
  }

  // ---------------------------------------------------------------------------------------------------------
  // A group that contains itself has no finite nesting
  // ---------------------------------------------------------------------------------------------------------

  function Height(t: Tree): nat {
    match t
    case Leaf(_) => 0
    case Nest(_, children) => 1 + HeightOfAll(children)
  }

  function HeightOfAll(ts: seq<Tree>): nat {
    if ts == [] then 0
    else
      var rest, last := HeightOfAll(ts[..|ts| - 1]), Height(ts[|ts| - 1]);
      if rest < last then last else rest
  }

  lemma {:induction false} ChildrenAreLower(ts: seq<Tree>, i: nat)
    requires i < |ts|
    ensures Height(ts[i]) <= HeightOfAll(ts)
  {
    if i < |ts| - 1 {
      ChildrenAreLower(ts[..|ts| - 1], i);
    }
  }

  lemma MembersNest(e: Env, t: Tree, member: string) returns (child: Tree)
    requires Nesting(e, t) && t.Nest? && member in e.groups[t.ref].members
    ensures Nesting(e, child) && child.ref == member && Height(child) < Height(t)
  {
    var i :| 0 <= i < |t.children| && e.groups[t.ref].members[i] == member;
    ChildrenAreLower(t.children, i);
    child := t.children[i];
  }

  lemma {:induction false} ChainsDescend(e: Env, c: seq<string>, k: nat, t: Tree) returns (last: Tree)
    requires Chain(e, c) && k < |c| && Nesting(e, t) && t.ref == c[k]
    ensures Nesting(e, last) && last.ref == c[|c| - 1] && Height(last) <= Height(t)
    decreases |c| - k
  {
    if k == |c| - 1 {
      last := t;
    } else {
      var next := MembersNest(e, t, c[k + 1]);
      last := ChainsDescend(e, c, k + 1, next);
    }
  }

  lemma CyclesDoNotNest(e: Env, c: seq<string>, ref: string)
    requires Chain(e, c) && c != [] && ref in c
    requires e.groups[c[|c| - 1]].valid && ref in e.groups[c[|c| - 1]].members
    ensures !HasNesting(e, ref) && !Unfoldable(e, ref)
  {
    if HasNesting(e, ref) {
      var t :| Nesting(e, t) && t.ref == ref;
      var k :| 0 <= k < |c| && c[k] == ref;
      var last := ChainsDescend(e, c, k, t);
      var again := MembersNest(e, last, ref);
      NestingIsUnique(e, t, again);
    }
    forall t | Unfolds(e, t) ensures Nesting(e, t) {
      UnfoldsIsNesting(e, t);
    }
  }

  // ---------------------------------------------------------------------------------------------------------
  // The memoised walk
  // ---------------------------------------------------------------------------------------------------------

  /** A memoised success is what the group stands for; a memoised failure is a group that has no nesting. */
  ghost predicate MemoHolds(e: Env, memo: Memo) {
    && memo.Keys <= e.groups.Keys
    && (forall ref :: ref in memo && memo[ref].Some? ==> StandsFor(e, ref, memo[ref].value))
    && (forall ref :: ref in memo && memo[ref].None? && FitsBelow(e, ref) ==> !Unfoldable(e, ref))
  }

  ghost predicate OutcomeHolds(e: Env, ref: string, o: Outcome) {
    && MemoHolds(e, o.memo)
    && (o.value.Some? ==> StandsFor(e, ref, o.value.value))
    && (FitsBelow(e, ref) && o.value.None? ==> !Unfoldable(e, ref))
  }

  /** The groups being visited are the stack of calls, outermost first. */
  ghost predicate OnStack(e: Env, stack: seq<string>, visiting: set<string>) {
    && Chain(e, stack)
    && (forall i :: 0 <= i < |stack| ==> e.groups[stack[i]].valid)
    && visiting == (set i | 0 <= i < |stack| :: stack[i])
    && |visiting| == |stack|
  }

  ghost predicate CalledFrom(e: Env, stack: seq<string>, ref: string) {
    stack == [] || (stack[|stack| - 1] in e.groups && ref in e.groups[stack[|stack| - 1]].members)
  }

  /** `ts` are the nestings of the first `i` members, and `members` their leaves. */
  ghost predicate Gathered(e: Env, ref: string, i: nat, members: seq<string>, ts: seq<Tree>) {
    && ref in e.groups && e.groups[ref].valid && i <= |e.groups[ref].members|
    && |ts| == i && LeavesOfAll(ts) == members && DirectCountsFit(ts)
    && forall k :: 0 <= k < i ==> ts[k].ref == e.groups[ref].members[k] && Unfolds(e, ts[k])
  }

  lemma CountsFitMore(ts: seq<Tree>, t: Tree)
    requires DirectCountsFit(ts) && (t.Leaf? ==> |LeavesOfAll(ts)| + 1 <= MAX_MEMBERS)
    ensures DirectCountsFit(ts + [t]) && LeavesOfAll(ts + [t]) == LeavesOfAll(ts) + Leaves(t)
  {
    var ts' := ts + [t];
    assert ts'[..|ts|] == ts && ts'[..|ts'|] == ts';
    forall k | 0 <= k < |ts'| && ts'[k].Leaf? ensures |LeavesOfAll(ts'[..k + 1])| <= MAX_MEMBERS {
      if k < |ts| {
        assert ts'[..k + 1] == ts[..k + 1];
      } else {
        assert ts'[..k + 1] == ts';
      }
    }
  }

  lemma GatheredExtends(e: Env, ref: string, i: nat, members: seq<string>, ts: seq<Tree>, t: Tree)
    requires Gathered(e, ref, i, members, ts) && i < |e.groups[ref].members|
    requires t.ref == e.groups[ref].members[i] && Unfolds(e, t)
    requires t.Leaf? ==> |members| + 1 <= MAX_MEMBERS
    ensures Gathered(e, ref, i + 1, members + Leaves(t), ts + [t])
  {
    CountsFitMore(ts, t);
  }

  /** The nesting of a group, if it has one, starts with what was gathered, so the walk can go on. */
  lemma NestingAdmitsNext(e: Env, ref: string, i: nat, members: seq<string>, ts: seq<Tree>, t: Tree)
    requires Gathered(e, ref, i, members, ts) && Unfolds(e, t) && t.ref == ref
    ensures !CannotContinue(e, ref, i, members)
  {
    forall k | 0 <= k < i ensures t.children[k] == ts[k] {
      UnfoldingIsUnique(e, t.children[k], ts[k]);
    }
    assert t.children[..i] == ts;
    if i == |e.groups[ref].members| {
      assert t.children == ts;
    } else {
      var child := t.children[i];
      assert child.ref == e.groups[ref].members[i] && Unfolds(e, child);
      assert t.children[..i + 1][..i] == ts;
      assert LeavesOfAll(t.children[..i + 1]) == members + Leaves(child);
    }
  }

  /** The `i`-th member cannot be part of a safe group, or the finished list is not one. */
  ghost predicate CannotContinue(e: Env, ref: string, i: nat, members: seq<string>)
    requires ref in e.groups && i <= |e.groups[ref].members|
  {
    if i == |e.groups[ref].members| then !Distinct(members) || members == []
    else
      var member := e.groups[ref].members[i];
      if member in e.groups then !Unfoldable(e, member) else !Usable(e, member) || |members| + 1 > MAX_MEMBERS
  }

  lemma GatheringFails(e: Env, ref: string, i: nat, members: seq<string>, ts: seq<Tree>)
    requires Gathered(e, ref, i, members, ts)
    requires CannotContinue(e, ref, i, members)
    ensures !Unfoldable(e, ref)
  {
    if Unfoldable(e, ref) {
      var t :| Unfolds(e, t) && t.ref == ref;
      NestingAdmitsNext(e, ref, i, members, ts, t);
    }
  }

  lemma ChainGrows(e: Env, stack: seq<string>, ref: string)
    requires Chain(e, stack) && CalledFrom(e, stack, ref) && ref in e.groups && ref !in stack
    requires forall i :: 0 <= i < |stack| ==> e.groups[stack[i]].valid
    ensures Chain(e, stack + [ref])
  {
  }

  lemma StackGrows(e: Env, stack: seq<string>, visiting: set<string>, ref: string)
    requires OnStack(e, stack, visiting) && CalledFrom(e, stack, ref)
    requires ref in e.groups && e.groups[ref].valid && ref !in visiting
    ensures OnStack(e, stack + [ref], visiting + {ref})
  {
    ChainGrows(e, stack, ref);
    var stack' := stack + [ref];
    assert stack'[|stack|] == ref;
    assert forall i :: 0 <= i < |stack| ==> stack'[i] == stack[i];
  }

  lemma FailureRecorded(e: Env, memo: Memo, ref: string)
    requires MemoHolds(e, memo) && ref in e.groups
    requires FitsBelow(e, ref) ==> !Unfoldable(e, ref)
    ensures OutcomeHolds(e, ref, Outcome(memo[ref := None], None))
  {
  }

  lemma OverlongStack(e: Env, stack: seq<string>, visiting: set<string>, ref: string)
    requires OnStack(e, stack, visiting) && CalledFrom(e, stack, ref) && ref in e.groups
    requires ref !in visiting && |visiting| >= MAX_DEPTH
    ensures !FitsBelow(e, ref)
  {
    ChainGrows(e, stack, ref);
    if FitsBelow(e, ref) {
      OnItsOwnChain(e, ref, stack + [ref]);
    }
  }

  lemma {:induction false} ResolveHolds(e: Env, memo: Memo, visiting: set<string>, ref: string, stack: seq<string>)
    requires ref in e.groups && MemoHolds(e, memo)
    requires OnStack(e, stack, visiting) && CalledFrom(e, stack, ref)
    ensures OutcomeHolds(e, ref, Resolve(e, memo, visiting, ref))
    decreases e.groups.Keys - visiting, 0, 0
  {
    if ref in memo {
    } else if e.groups[ref].valid && ref !in visiting && |visiting| < MAX_DEPTH {
      StackGrows(e, stack, visiting, ref);
      GatherHolds(e, memo, visiting + {ref}, ref, 0, [], stack + [ref], []);
    } else {
      GivesUpRightly(e, visiting, ref, stack);
      FailureRecorded(e, memo, ref);
    }
  }

  /** What is refused without a look at the members has no nesting, or is too deep for the bound. */
  lemma GivesUpRightly(e: Env, visiting: set<string>, ref: string, stack: seq<string>)
    requires ref in e.groups && OnStack(e, stack, visiting) && CalledFrom(e, stack, ref)
    requires !e.groups[ref].valid || ref in visiting || |visiting| >= MAX_DEPTH
    ensures FitsBelow(e, ref) ==> !Unfoldable(e, ref)
  {
    if !e.groups[ref].valid {
      assert forall t :: Unfolds(e, t) && t.ref == ref ==> t.Nest?;
    } else if ref in visiting {
      CyclesDoNotNest(e, stack, ref);
    } else {
      OverlongStack(e, stack, visiting, ref);
    }
  }

  lemma GatheringEnds(e: Env, memo: Memo, visiting: set<string>, ref: string, members: seq<string>, ts: seq<Tree>)
    requires ref in e.groups && MemoHolds(e, memo) && Gathered(e, ref, |e.groups[ref].members|, members, ts)
    ensures OutcomeHolds(e, ref, Gather(e, memo, visiting, ref, |e.groups[ref].members|, members))
  {
    if Distinct(members) && members != [] {
      assert Unfolds(e, Nest(ref, ts)) && Leaves(Nest(ref, ts)) == members;
    } else {
      GatheringFails(e, ref, |e.groups[ref].members|, members, ts);
      FailureRecorded(e, memo, ref);
    }
  }

  /** The member that was resolved failed, and so does the group, if nothing below it is too deep. */
  lemma NestedFails(e: Env, memo: Memo, ref: string, i: nat, members: seq<string>, ts: seq<Tree>)
    requires MemoHolds(e, memo) && Gathered(e, ref, i, members, ts) && i < |e.groups[ref].members|
    requires e.groups[ref].members[i] in e.groups
    requires FitsBelow(e, e.groups[ref].members[i]) ==> !Unfoldable(e, e.groups[ref].members[i])
    ensures OutcomeHolds(e, ref, Outcome(memo[ref := None], None))
  {
    if FitsBelow(e, ref) {
      MembersFitBelow(e, ref, e.groups[ref].members[i]);
      GatheringFails(e, ref, i, members, ts);
    }
    FailureRecorded(e, memo, ref);
  }

  lemma {:induction false} GatherHolds(e: Env, memo: Memo, visiting: set<string>, ref: string, i: nat,
                                       members: seq<string>, stack: seq<string>, ts: seq<Tree>)
    requires MemoHolds(e, memo) && Gathered(e, ref, i, members, ts)
    requires OnStack(e, stack, visiting) && stack != [] && stack[|stack| - 1] == ref
    ensures OutcomeHolds(e, ref, Gather(e, memo, visiting, ref, i, members))
    decreases e.groups.Keys - visiting, 1, |e.groups[ref].members| - i
  {
    if i == |e.groups[ref].members| {
      GatheringEnds(e, memo, visiting, ref, members, ts);
    } else {
      var member := e.groups[ref].members[i];
      if member in e.groups {
        ResolveHolds(e, memo, visiting, member, stack);
        var nested := Resolve(e, memo, visiting, member);
        if nested.value.None? {
          NestedFails(e, nested.memo, ref, i, members, ts);
        } else {
          var t :| Unfolds(e, t) && t.ref == member && Leaves(t) == nested.value.value;
          GatheredExtends(e, ref, i, members, ts, t);
          GatherHolds(e, nested.memo, visiting, ref, i + 1, members + nested.value.value, stack, ts + [t]);
        }
      } else if !Usable(e, member) || |members| + 1 > MAX_MEMBERS {
        GatheringFails(e, ref, i, members, ts);
        FailureRecorded(e, memo, ref);
      } else {
        GatheredExtends(e, ref, i, members, ts, Leaf(member));
        GatherHolds(e, memo, visiting, ref, i + 1, members + [member], stack, ts + [Leaf(member)]);
      }
    }
  }

  // ---------------------------------------------------------------------------------------------------------
  // Compiled rows
  // ---------------------------------------------------------------------------------------------------------

  /** A row without members marks a group that is not executable. */
  ghost predicate RowIsSound(e: Env, ref: string, row: seq<string>) {
    row != [] ==> StandsFor(e, ref, row) && Distinct(row)
  }

  ghost predicate RowIsExact(e: Env, ref: string, row: seq<string>) {
    if Unfoldable(e, ref) then row != [] && StandsFor(e, ref, row) else row == []
  }

  lemma GroupsStandForEntities(e: Env, ref: string, members: seq<string>)
    requires ref in e.groups && StandsFor(e, ref, members)
    ensures members != [] && Distinct(members)
    ensures forall m :: m in members ==> m !in e.groups && Usable(e, m)
  {
    var t :| Unfolds(e, t) && t.ref == ref && Leaves(t) == members;
    LeavesAreUsable(e, t);
  }

  lemma {:induction false} LeavesAreUsable(e: Env, t: Tree)
    requires Unfolds(e, t)
    ensures forall m :: m in Leaves(t) ==> m !in e.groups && Usable(e, m)
    decreases t, 1, 0
  {
    if t.Leaf? {
    } else {
      AllLeavesAreUsable(e, t, t.children);
    }
  }

  lemma {:induction false} AllLeavesAreUsable(e: Env, t: Tree, ts: seq<Tree>)
    requires forall i :: 0 <= i < |ts| ==> ts[i] < t && Unfolds(e, ts[i])
    ensures forall m :: m in LeavesOfAll(ts) ==> m !in e.groups && Usable(e, m)
    decreases t, 0, |ts|
  {
    if ts == [] {
    } else {
      AllLeavesAreUsable(e, t, ts[..|ts| - 1]);
      LeavesAreUsable(e, ts[|ts| - 1]);
    }
  }

  ghost predicate RowHolds(e: Env, ref: string, row: seq<string>) {
    RowIsSound(e, ref, row) && (FitsBelow(e, ref) ==> RowIsExact(e, ref, row))
  }

  lemma FirstRowHolds(e: Env, ref: string, memo: Memo)
    requires MemoHolds(e, memo) && ref in e.groups
    ensures var first := Resolve(e, memo, {}, ref);
      MemoHolds(e, first.memo) && RowHolds(e, ref, if first.value.Some? then first.value.value else [])
  {
    ResolveHolds(e, memo, {}, ref, []);
    var first := Resolve(e, memo, {}, ref);
    if first.value.Some? {
      GroupsStandForEntities(e, ref, first.value.value);
    }
  }

  lemma {:induction false} RowCount(e: Env, order: seq<string>, memo: Memo)
    requires forall ref :: ref in order ==> ref in e.groups
    ensures |CompileAll(e, order, memo)| == |order|
    decreases |order|
  {
    if order == [] {
    } else {
      RowCount(e, order[1..], Resolve(e, memo, {}, order[0]).memo);
    }
  }

  lemma {:induction false} RowHoldsAt(e: Env, order: seq<string>, memo: Memo, i: nat)
    requires MemoHolds(e, memo) && i < |order| && forall ref :: ref in order ==> ref in e.groups
    requires |CompileAll(e, order, memo)| == |order|
    ensures RowHolds(e, order[i], CompileAll(e, order, memo)[i])
    decreases i
  {
    FirstRowHolds(e, order[0], memo);
    if i == 0 {
    } else {
      RowHoldsAt(e, order[1..], Resolve(e, memo, {}, order[0]).memo, i - 1);
    }
  }

  /** Every row is sound whatever the order; that of a group within the nesting bound says exactly whether it is safe. */
  lemma RowsHold(e: Env, order: seq<string>, memo: Memo)
    requires MemoHolds(e, memo) && forall ref :: ref in order ==> ref in e.groups
    ensures |CompileAll(e, order, memo)| == |order|
    ensures forall i :: 0 <= i < |order| ==> RowIsSound(e, order[i], CompileAll(e, order, memo)[i])
    ensures forall i :: 0 <= i < |order| && FitsBelow(e, order[i]) ==> RowIsExact(e, order[i], CompileAll(e, order, memo)[i])
  {
    RowCount(e, order, memo);
    forall i | 0 <= i < |order|
      ensures RowIsSound(e, order[i], CompileAll(e, order, memo)[i])
      ensures FitsBelow(e, order[i]) ==> RowIsExact(e, order[i], CompileAll(e, order, memo)[i])
    {
      RowHoldsAt(e, order, memo, i);
    }
  }

  /** The order of the declarations does not change what a group compiles to that is within the nesting bound or cannot be unfolded. */
  lemma OrderDoesNotMatter(e: Env, order: seq<string>, other: seq<string>, i: nat, j: nat)
    requires forall ref :: ref in order || ref in other ==> ref in e.groups
    requires i < |order| && j < |other| && order[i] == other[j]
    requires FitsBelow(e, order[i]) || !Unfoldable(e, order[i])
    ensures |CompileAll(e, order, map[])| == |order| && |CompileAll(e, other, map[])| == |other|
    ensures CompileAll(e, order, map[])[i] == CompileAll(e, other, map[])[j]
  {
    RowsHold(e, order, map[]);
    RowsHold(e, other, map[]);
    var row, row' := CompileAll(e, order, map[])[i], CompileAll(e, other, map[])[j];
    assert RowIsSound(e, order[i], row) && RowIsSound(e, other[j], row');
    if Unfoldable(e, order[i]) {
      var t :| Unfolds(e, t) && t.ref == order[i] && Leaves(t) == row;
      var u :| Unfolds(e, u) && u.ref == order[i] && Leaves(u) == row';
      UnfoldingIsUnique(e, t, u);
    }
  }

  lemma {:induction false} DistinctFits(c: seq<string>, within: set<string>)
    requires Distinct(c) && forall ref :: ref in c ==> ref in within
    ensures |c| <= |within|
    decreases |c|
  {
    if c == [] {
    } else {
      var last := c[|c| - 1];
      DistinctFits(c[..|c| - 1], within - {last});
    }
  }

  /** With at most thirty-two groups no chain can be too long. */
  lemma FewGroupsFit(e: Env)
    requires |e.groups| <= 32
    ensures forall ref :: FitsBelow(e, ref)
  {
    forall c | Chain(e, c) ensures |c| <= MAX_DEPTH {
      DistinctFits(c, e.groups.Keys);
    }
  }

  // ---------------------------------------------------------------------------------------------------------
  // Beyond the nesting bound the order matters
  // ---------------------------------------------------------------------------------------------------------

  /** `g`, `gg`, `ggg`, ... */
  function Link(k: nat): (ref: string)
    ensures |ref| == k + 1
  {
    seq(k + 1, _ => 'g')
  }

  /** A chain of groups, each with the next one as its only member; the last one holds one lamp. */
  function ChainOf(n: nat): Env {
    Env(map ref: string | ref in (set k: nat | k <= n :: Link(k)) :: Group("chain", [if |ref| <= n then Link(|ref|) else "lamp"], true),
        map["lamp" := Entity(true, true, ROUTINE, ["turn_on"])])
  }

  lemma LinksAreGroups(n: nat, k: nat)
    requires k <= n
    ensures Link(k) in ChainOf(n).groups
    ensures ChainOf(n).groups[Link(k)] == Group("chain", [if k < n then Link(k + 1) else "lamp"], true)
    ensures "lamp" !in ChainOf(n).groups
  {
    assert forall j: nat :: Link(j)[0] == 'g';
  }

  /** Entered at the top, the walk gives up at the bound and marks every group on the way. */
  lemma {:induction false} FromTheTop(k: nat, visiting: set<string>)
    requires k <= MAX_DEPTH && |visiting| == k
    requires forall j: nat :: k <= j ==> Link(j) !in visiting
    ensures Link(k) in ChainOf(MAX_DEPTH).groups
    ensures Resolve(ChainOf(MAX_DEPTH), map[], visiting, Link(k)).value == None
    decreases MAX_DEPTH - k
  {
    var e := ChainOf(MAX_DEPTH);
    LinksAreGroups(MAX_DEPTH, k);
    if k < MAX_DEPTH {
      LinksAreGroups(MAX_DEPTH, k + 1);
      forall j: nat | k + 1 <= j ensures Link(j) !in visiting + {Link(k)} {
        assert |Link(j)| != |Link(k)|;
      }
      FromTheTop(k + 1, visiting + {Link(k)});
      assert Gather(e, map[], visiting + {Link(k)}, Link(k), 0, []).value == None;
    }
  }

  /** A group whose only member resolves to the lamp resolves to it as well. */
  lemma OnlyMember(e: Env, memo: Memo, ref: string, member: string)
    requires ref in e.groups && e.groups[ref] == Group("chain", [member], true) && ref !in memo
    requires if member in e.groups then member in memo && memo[member] == Some(["lamp"]) else member == "lamp" && Usable(e, "lamp")
    ensures Resolve(e, memo, {}, ref) == Outcome(memo[ref := Some(["lamp"])], Some(["lamp"]))
  {
    assert {} + {ref} == {ref} && [] + ["lamp"] == ["lamp"];
    assert Gather(e, memo, {ref}, ref, 1, ["lamp"]) == Outcome(memo[ref := Some(["lamp"])], Some(["lamp"]));
    assert Gather(e, memo, {ref}, ref, 0, []) == Gather(e, memo, {ref}, ref, 1, ["lamp"]);
  }

  /** Entered at the bottom, every group finds the one below it already resolved. */
  lemma FromBelow(k: nat, memo: Memo)
    requires k <= MAX_DEPTH && Link(k) !in memo
    requires k < MAX_DEPTH ==> Link(k + 1) in memo && memo[Link(k + 1)] == Some(["lamp"])
    ensures Link(k) in ChainOf(MAX_DEPTH).groups
    ensures Resolve(ChainOf(MAX_DEPTH), memo, {}, Link(k)) == Outcome(memo[Link(k) := Some(["lamp"])], Some(["lamp"]))
  {
    LinksAreGroups(MAX_DEPTH, k);
    if k < MAX_DEPTH {
      LinksAreGroups(MAX_DEPTH, k + 1);
    }
    OnlyMember(ChainOf(MAX_DEPTH), memo, Link(k), if k < MAX_DEPTH then Link(k + 1) else "lamp");
  }

  /** The links from `k` down to the first one. */
  function Upwards(k: nat): seq<string> {
    if k == 0 then [Link(0)] else [Link(k)] + Upwards(k - 1)
  }

  lemma FirstLinkCompiles(k: nat, memo: Memo)
    requires 0 < k <= MAX_DEPTH && Link(k) in ChainOf(MAX_DEPTH).groups
    requires forall ref :: ref in Upwards(k - 1) ==> ref in ChainOf(MAX_DEPTH).groups
    requires Resolve(ChainOf(MAX_DEPTH), memo, {}, Link(k)) == Outcome(memo[Link(k) := Some(["lamp"])], Some(["lamp"]))
    ensures forall ref :: ref in Upwards(k) ==> ref in ChainOf(MAX_DEPTH).groups
    ensures CompileAll(ChainOf(MAX_DEPTH), Upwards(k), memo) ==
      [["lamp"]] + CompileAll(ChainOf(MAX_DEPTH), Upwards(k - 1), memo[Link(k) := Some(["lamp"])])
  {
    assert Upwards(k)[1..] == Upwards(k - 1);
  }

  lemma {:induction false} UpwardsResolves(k: nat, memo: Memo)
    requires k <= MAX_DEPTH
    requires forall j: nat :: j <= k ==> Link(j) !in memo
    requires k < MAX_DEPTH ==> Link(k + 1) in memo && memo[Link(k + 1)] == Some(["lamp"])
    ensures forall ref :: ref in Upwards(k) ==> ref in ChainOf(MAX_DEPTH).groups
    ensures var rows := CompileAll(ChainOf(MAX_DEPTH), Upwards(k), memo);
      |rows| == |Upwards(k)| == k + 1 && rows[k] == ["lamp"] && Upwards(k)[k] == Link(0)
    decreases k
  {
    FromBelow(k, memo);
    if k == 0 {
    } else {
      var memo' := memo[Link(k) := Some(["lamp"])];
      assert forall j: nat :: j <= k - 1 ==> |Link(j)| != |Link(k)|;
      UpwardsResolves(k - 1, memo');
      FirstLinkCompiles(k, memo);
    }
  }

  lemma FailedRow(e: Env, ref: string)
    requires ref in e.groups && Resolve(e, map[], {}, ref).value == None
    ensures CompileAll(e, [ref], map[]) == [[]]
  {
    assert [ref][1..] == [];
  }

  /**
   A chain of thirty-three safe groups: the first one compiles to no members when it is declared first, and to its lamp
   when the others are declared before it.
   */
  lemma OrderMattersBeyondTheBound(n: nat)
    requires n == 32
    ensures forall ref :: ref in [Link(0)] || ref in Upwards(n) ==> ref in ChainOf(n).groups
    ensures CompileAll(ChainOf(n), [Link(0)], map[]) == [[]]
    ensures |CompileAll(ChainOf(n), Upwards(n), map[])| == |Upwards(n)| == n + 1
    ensures Upwards(n)[n] == Link(0) && CompileAll(ChainOf(n), Upwards(n), map[])[n] == ["lamp"]
  {
    FromTheTop(0, {});
    FailedRow(ChainOf(n), Link(0));
    UpwardsResolves(n, map[]);
  }
}
