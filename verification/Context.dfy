/** The short-lived continuation store of Assist turns, against an unbounded log of what was done to it. */
module Context {
  import opened Common

  datatype Kind = Clarification | Confirmation | Parameter

  datatype Pending<P> = Pending(conversation: string, user: Option<string>, kind: Kind, request: P, createdAt: real, expiresAt: real)

  datatype Why = Consumed | Cleared | Evicted

  /** The log only grows; expiry is not logged. */
  datatype Op<P> = Put(item: Pending<P>) | Removed(conversation: string, why: Why)

  function ConversationOf<P>(op: Op<P>): string {
    match op
    case Put(item) => item.conversation
    case Removed(conversation, _) => conversation
  }

  /** What the log says about a conversation: the latest put, unless it was removed since. */
  function Current<P>(log: seq<Op<P>>, conversation: string): Option<Pending<P>> {
    if |log| == 0 then None
    else
      var last := log[|log| - 1];
      if ConversationOf(last) != conversation then Current(log[..|log| - 1], conversation)
      else if last.Put? then Some(last.item) else None
  }

  /** What a user may see of it at a time. */
  function Visible<P>(log: seq<Op<P>>, conversation: string, user: Option<string>, now: real): Option<Pending<P>> {
    var current := Current(log, conversation);
    if current.Some? && current.value.user == user && now < current.value.expiresAt then current else None
  }

  /** A user sees exactly the conversation's current item, if it is their own and has not expired. */
  lemma VisibleMeans<P>(log: seq<Op<P>>, conversation: string, user: Option<string>, now: real, item: Pending<P>)
    ensures Visible(log, conversation, user, now) == Some(item) <==>
      Current(log, conversation) == Some(item) && item.user == user && now < item.expiresAt
  {
  }

  lemma CurrentExtends<P>(log: seq<Op<P>>, op: Op<P>, conversation: string)
    ensures Current(log + [op], conversation) ==
      if ConversationOf(op) != conversation then Current(log, conversation) else if op.Put? then Some(op.item) else None
  {
    assert (log + [op])[..|log|] == log;
  }

  // ---------------------------------------------------------------------------------------------------------
  // The bounded dictionary, in its insertion order
  // ---------------------------------------------------------------------------------------------------------

  predicate DistinctConversations<P>(s: seq<Pending<P>>) {
    forall i, j :: 0 <= i < j < |s| ==> s[i].conversation != s[j].conversation
  }

  function Position<P>(s: seq<Pending<P>>, conversation: string): (k: nat)
    ensures k <= |s|
    ensures k < |s| ==> s[k].conversation == conversation
    ensures forall j :: 0 <= j < k ==> s[j].conversation != conversation
  {
    if |s| == 0 || s[0].conversation == conversation then 0 else 1 + Position(s[1..], conversation)
  }

  function Find<P>(s: seq<Pending<P>>, conversation: string): (found: Option<Pending<P>>)
    ensures found.Some? ==> found.value in s && found.value.conversation == conversation
  {
    var k := Position(s, conversation);
    if k < |s| then Some(s[k]) else None
  }

  function Without<P>(s: seq<Pending<P>>, conversation: string): seq<Pending<P>> {
    var k := Position(s, conversation);
    if k < |s| then s[..k] + s[k + 1..] else s
  }

  function With<P>(s: seq<Pending<P>>, item: Pending<P>): seq<Pending<P>> {
    var k := Position(s, item.conversation);
    if k < |s| then s[k := item] else s + [item]
  }

  function Purged<P>(s: seq<Pending<P>>, now: real): (kept: seq<Pending<P>>)
    ensures |kept| <= |s|
    ensures forall k :: 0 <= k < |kept| ==> kept[k] in s && now < kept[k].expiresAt
    ensures forall k :: 0 <= k < |s| && now < s[k].expiresAt ==> s[k] in kept
  {
    if |s| == 0 then []
    else
      var before, last := Purged(s[..|s| - 1], now), s[|s| - 1];
      if now < last.expiresAt then before + [last] else before
  }

  /** The position of the first of the oldest. */
  function Oldest<P>(s: seq<Pending<P>>): (k: nat)
    requires |s| > 0
    ensures k < |s| && forall j :: 0 <= j < |s| ==> s[k].createdAt <= s[j].createdAt
    ensures forall j :: 0 <= j < k ==> s[k].createdAt < s[j].createdAt
  {
    if |s| == 1 then 0
    else
      var k := Oldest(s[..|s| - 1]);
      if s[|s| - 1].createdAt < s[k].createdAt then |s| - 1 else k
  }

  predicate Full<P>(live: seq<Pending<P>>, conversation: string, maxEntries: nat) {
    Find(live, conversation).None? && |live| >= maxEntries && |live| > 0
  }

  /** Only a new conversation that finds the store full makes the first of the oldest go. */
  function Room<P>(live: seq<Pending<P>>, conversation: string, maxEntries: nat): seq<Pending<P>> {
    if Full(live, conversation, maxEntries) then Without(live, live[Oldest(live)].conversation) else live
  }

  function RoomOps<P>(live: seq<Pending<P>>, conversation: string, maxEntries: nat): seq<Op<P>> {
    if Full(live, conversation, maxEntries) then [Removed(live[Oldest(live)].conversation, Evicted)] else []
  }

  lemma Found<P>(s: seq<Pending<P>>, k: nat)
    requires DistinctConversations(s) && k < |s|
    ensures Position(s, s[k].conversation) == k
  {
  }

  lemma WithIs<P>(s: seq<Pending<P>>, item: Pending<P>, conversation: string)
    requires DistinctConversations(s)
    ensures DistinctConversations(With(s, item))
    ensures Find(With(s, item), conversation) == if item.conversation == conversation then Some(item) else Find(s, conversation)
  {
    var after, k := With(s, item), Position(s, conversation);
    if item.conversation == conversation {
      assert after[Position(s, conversation)] == item;
    } else if k < |s| {
      assert after[k] == s[k];
      Found(after, k);
    }
  }

  lemma WithoutIsDistinct<P>(s: seq<Pending<P>>, removed: string)
    requires DistinctConversations(s)
    ensures DistinctConversations(Without(s, removed))
    ensures forall j :: 0 <= j < |Without(s, removed)| ==> Without(s, removed)[j].conversation != removed && Without(s, removed)[j] in s
  {
    var after, r := Without(s, removed), Position(s, removed);
    if r < |s| {
      assert forall j :: 0 <= j < |after| ==> after[j] == s[if j < r then j else j + 1];
    }
  }

  lemma WithoutIs<P>(s: seq<Pending<P>>, removed: string, conversation: string)
    requires DistinctConversations(s)
    ensures DistinctConversations(Without(s, removed))
    ensures Find(Without(s, removed), conversation) == if removed == conversation then None else Find(s, conversation)
  {
    WithoutIsDistinct(s, removed);
    var after, k, r := Without(s, removed), Position(s, conversation), Position(s, removed);
    if removed != conversation && k < |s| && r < |s| {
      assert after[if k < r then k else k - 1] == s[k];
      Found(after, if k < r then k else k - 1);
    }
  }

  lemma RoomIsThere<P>(live: seq<Pending<P>>, conversation: string, maxEntries: nat)
    requires |live| <= maxEntries && maxEntries > 0
    ensures Find(Room(live, conversation, maxEntries), conversation).None? ==> |Room(live, conversation, maxEntries)| < maxEntries
  {
    if Full(live, conversation, maxEntries) {
      assert Position(live, live[Oldest(live)].conversation) < |live|;
    }
  }

  lemma {:induction false} PurgedIsDistinct<P>(s: seq<Pending<P>>, now: real)
    requires DistinctConversations(s)
    ensures DistinctConversations(Purged(s, now))
  {
    if |s| == 0 {
    } else {
      var before := s[..|s| - 1];
      PurgedIsDistinct(before, now);
      assert forall x :: x in Purged(before, now) ==> x.conversation != s[|s| - 1].conversation;
    }
  }

  lemma PurgedIs<P>(s: seq<Pending<P>>, now: real, conversation: string)
    requires DistinctConversations(s)
    ensures DistinctConversations(Purged(s, now))
    ensures Find(Purged(s, now), conversation) ==
      if Find(s, conversation).Some? && now < Find(s, conversation).value.expiresAt then Find(s, conversation) else None
  {
    PurgedIsDistinct(s, now);
    var found, after := Find(s, conversation), Find(Purged(s, now), conversation);
    if found.Some? && now < found.value.expiresAt {
      assert found.value in Purged(s, now);
      var k :| 0 <= k < |Purged(s, now)| && Purged(s, now)[k] == found.value;
      Found(Purged(s, now), k);
    }
  }

  // ---------------------------------------------------------------------------------------------------------
  // The store
  // ---------------------------------------------------------------------------------------------------------

  /** What the store holds for a conversation is what the log says, but for what has expired. */
  ghost predicate Agrees<P>(s: seq<Pending<P>>, log: seq<Op<P>>, clock: real, conversation: string) {
    var held, current := Find(s, conversation), Current(log, conversation);
    held == current || (held.None? && current.Some? && current.value.expiresAt <= clock)
  }

  class ConversationContextStore<P> {
    const ttl: real
    const maxEntries: nat
    var pending: seq<Pending<P>>
    ghost var log: seq<Op<P>>
    ghost var clock: real

    ghost predicate Valid()
      reads this
    {
      && ttl > 0.0 && maxEntries > 0 && |pending| <= maxEntries && DistinctConversations(pending)
      && forall conversation: string :: Agrees(pending, log, clock, conversation)
    }

    constructor (ttl: real, maxEntries: nat)
      requires ttl > 0.0 && maxEntries > 0
      ensures Valid() && pending == [] && log == [] && clock == 0.0
      ensures this.ttl == ttl && this.maxEntries == maxEntries
    {
      this.ttl, this.maxEntries, pending, log, clock := ttl, maxEntries, [], [], 0.0;
    }

    method Purge(now: real)
      requires Valid() && now >= clock
      modifies this`pending, this`clock
      ensures Valid() && pending == Purged(old(pending), now) && clock == now
    {
      var kept: seq<Pending<P>> := [];
      for i := 0 to |pending|
        invariant pending == old(pending) && clock == old(clock)
        invariant kept == Purged(pending[..i], now)
      {
        assert pending[..i + 1][..i] == pending[..i];
        if now < pending[i].expiresAt {
          kept := kept + [pending[i]];
        }
      }
      assert pending[..|pending|] == pending;
      pending, clock := kept, now;
      forall conversation: string ensures Agrees(pending, log, clock, conversation) {
        assert Agrees(old(pending), log, old(clock), conversation);
        PurgedIs(old(pending), now, conversation);
      }
      PurgedIs(old(pending), now, "");
    }

    /** Leaves the store, and the log says why. */
    method Drop(conversation: string, why: Why)
      requires Valid()
      modifies this`pending, this`log
      ensures Valid() && pending == Without(old(pending), conversation)
      ensures log == old(log) + [Removed(conversation, why)]
    {
      ghost var before := pending;
      pending := Without(pending, conversation);
      log := log + [Removed(conversation, why)];
      forall other: string ensures Agrees(pending, log, clock, other) {
        assert Agrees(before, old(log), clock, other);
        CurrentExtends(old(log), Removed(conversation, why), other);
        WithoutIs(before, conversation, other);
      }
      WithoutIs(before, conversation, "");
    }

    /** Sets the conversation's item. */
    method Set(item: Pending<P>)
      requires Valid() && (Find(pending, item.conversation).None? ==> |pending| < maxEntries)
      modifies this`pending, this`log
      ensures Valid() && pending == With(old(pending), item) && log == old(log) + [Put(item)]
    {
      ghost var before := pending;
      pending := With(pending, item);
      log := log + [Put(item)];
      forall other: string ensures Agrees(pending, log, clock, other) {
        assert Agrees(before, old(log), clock, other);
        CurrentExtends(old(log), Put(item), other);
        WithIs(before, item, other);
      }
      WithIs(before, item, "");
    }

    /** The first of the oldest goes, if a new conversation finds the store full. */
    method MakeRoom(conversation: string)
      requires Valid()
      modifies this`pending, this`log
      ensures Valid()
      ensures pending == Room(old(pending), conversation, maxEntries)
      ensures log == old(log) + RoomOps(old(pending), conversation, maxEntries)
      ensures Find(pending, conversation).None? ==> |pending| < maxEntries
    {
      RoomIsThere(pending, conversation, maxEntries);
      if Full(pending, conversation, maxEntries) {
        Drop(pending[Oldest(pending)].conversation, Evicted);
      } else {
        assert log == old(log) + [];
      }
    }

    /**
     `None` is the raised error; then nothing changes.  Otherwise the new item replaces the conversation's own, after what
     expired and, if the store is full, the first of the oldest have gone.
     */
    method PutItem(conversation: string, user: Option<string>, kind: Kind, request: P, fits: bool, now: real) returns (item: Option<Pending<P>>)
      requires Valid() && now >= clock
      modifies this
      ensures Valid()
      ensures item.None? <==> conversation == "" || !fits
      ensures item.None? ==> pending == old(pending) && log == old(log) && clock == old(clock)
      ensures item.Some? ==>
        var live := Purged(old(pending), now);
        && item.value == Pending(conversation, user, kind, request, now, now + ttl) && clock == now
        && log == old(log) + RoomOps(live, conversation, maxEntries) + [Put(item.value)]
        && pending == With(Room(live, conversation, maxEntries), item.value)
    {
      if conversation == "" || !fits {
        return None;
      }
      Purge(now);
      MakeRoom(conversation);
      item := Some(Pending(conversation, user, kind, request, now, now + ttl));
      Set(item.value);
    }

    /** Exactly the latest put of the conversation: by this user, not expired, and not removed since. */
    method Peek(conversation: string, user: Option<string>, now: real) returns (item: Option<Pending<P>>)
      requires Valid() && now >= clock
      modifies this`pending, this`clock
      ensures Valid() && clock == now && pending == Purged(old(pending), now)
      ensures item == Visible(log, conversation, user, now)
      ensures item == var held := Find(pending, conversation); if held.Some? && held.value.user == user then held else None
    {
      assert Agrees(pending, log, clock, conversation);
      ghost var before := pending;
      PurgedIs(pending, now, conversation);
      Purge(now);
      item := Find(pending, conversation);
      if item.Some? && item.value.user != user {
        item := None;
      }
    }

    method Consume(conversation: string, user: Option<string>, now: real) returns (item: Option<Pending<P>>)
      requires Valid() && now >= clock
      modifies this
      ensures Valid() && clock == now
      ensures item == Visible(old(log), conversation, user, now)
      ensures log == old(log) + if item.Some? then [Removed(conversation, Consumed)] else []
      ensures pending == if item.Some? then Without(Purged(old(pending), now), conversation) else Purged(old(pending), now)
    {
      item := Peek(conversation, user, now);
      if item.Some? {
        Drop(conversation, Consumed);
      }
    }

    method Clear(conversation: string)
      requires Valid()
      modifies this`pending, this`log
      ensures Valid() && log == old(log) + [Removed(conversation, Cleared)] && pending == Without(old(pending), conversation)
    {
      Drop(conversation, Cleared);
    }
  }

  // ---------------------------------------------------------------------------------------------------------
  // What the log says
  // ---------------------------------------------------------------------------------------------------------

  /** The put that stands for a conversation: no later operation is about that conversation. */
  ghost predicate Stands<P>(log: seq<Op<P>>, conversation: string, k: nat) {
    && k < |log| && log[k].Put? && log[k].item.conversation == conversation
    && forall j :: k < j < |log| ==> ConversationOf(log[j]) != conversation
  }

  /** What is current is one put, the latest operation about its conversation: consumed, cleared or evicted once, it is gone. */
  lemma {:induction false} CurrentIsTheLatestPut<P>(log: seq<Op<P>>, conversation: string, item: Pending<P>)
    ensures Current(log, conversation) == Some(item) <==> exists k: nat :: Stands(log, conversation, k) && log[k].item == item
  {
    if |log| == 0 {
    } else {
      var before, last := log[..|log| - 1], log[|log| - 1];
      if ConversationOf(last) != conversation {
        CurrentIsTheLatestPut(before, conversation, item);
        if k: nat :| Stands(before, conversation, k) && before[k].item == item {
          assert Stands(log, conversation, k);
        }
        if k: nat :| Stands(log, conversation, k) && log[k].item == item {
          assert Stands(before, conversation, k);
        }
      } else if last.Put? {
        assert Stands(log, conversation, |log| - 1);
      } else {
        assert forall k: nat :: Stands(log, conversation, k) ==> k == |log| - 1;
      }
    }
  }

  /** No put is consumed twice: the removal that consumed it comes between it and any later one. */
  lemma ConsumedOnce<P>(log: seq<Op<P>>, i: nat, j: nat, conversation: string, k: nat)
    requires i < j < |log| && log[i] == Removed(conversation, Consumed)
    requires Stands(log[..i], conversation, k)
    ensures !Stands(log[..j], conversation, k)
  {
    assert log[..j][i] == log[i];
  }
}
