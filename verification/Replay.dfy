/** The gateway's replay cache: an insertion-ordered dictionary that never holds more than the 1,024 newest request ids. */
module Replay {
  const MAX_SEEN := 1_024

  /** `order` is the insertion order the language keeps for its dictionaries. */
  datatype Cache<R> = Cache(order: seq<string>, results: map<string, R>)

  datatype Entry<R> = Entry(id: string, result: R)

  /** Every decided id in the order it was first decided, with its newest result: those no longer cached, and those cached. */
  datatype History<R> = History(evicted: seq<Entry<R>>, live: seq<Entry<R>>)

  predicate DistinctIds<R>(s: seq<Entry<R>>) {
    forall i, j :: 0 <= i < j < |s| ==> s[i].id != s[j].id
  }

  function Ids<R>(s: seq<Entry<R>>): (ids: seq<string>)
    ensures |ids| == |s| && forall k :: 0 <= k < |s| ==> ids[k] == s[k].id
  {
    seq(|s|, k requires 0 <= k < |s| => s[k].id)
  }

  function MapOf<R>(s: seq<Entry<R>>): map<string, R> {
    if |s| == 0 then map[] else MapOf(s[..|s| - 1])[s[|s| - 1].id := s[|s| - 1].result]
  }

  /** The cache is the end of the history, and only a full cache has forgotten anything. */
  ghost predicate Tracks<R>(c: Cache<R>, h: History<R>) {
    && c.order == Ids(h.live) && c.results == MapOf(h.live)
    && DistinctIds(h.live) && |h.live| <= MAX_SEEN
    && (h.evicted != [] ==> |h.live| == MAX_SEEN)
  }

  /** The place of a cached id. */
  function Place<R>(live: seq<Entry<R>>, id: string): (k: nat)
    ensures k <= |live|
    ensures k < |live| ==> live[k].id == id
    ensures k == |live| ==> forall j :: 0 <= j < |live| ==> live[j].id != id
  {
    if |live| == 0 || live[0].id == id then 0 else 1 + Place(live[1..], id)
  }

  lemma {:induction false} Lookup<R>(s: seq<Entry<R>>, id: string)
    requires DistinctIds(s)
    ensures id in MapOf(s) <==> Place(s, id) < |s|
    ensures id in MapOf(s) ==> MapOf(s)[id] == s[Place(s, id)].result
  {
    if |s| == 0 {
    } else {
      var before, k := s[..|s| - 1], Place(s, id);
      Lookup(before, id);
      if k < |before| {
        assert before[k].id == id && s[|before|].id != id;
        assert Place(before, id) == k by {
          assert before[Place(before, id)].id == id;
        }
      } else {
        assert Place(before, id) == |before|;
      }
    }
  }

  lemma {:induction false} Size<R>(s: seq<Entry<R>>)
    requires DistinctIds(s)
    ensures |MapOf(s)| == |s|
  {
    if |s| == 0 {
    } else {
      var before, last := s[..|s| - 1], s[|s| - 1];
      Size(before);
      Lookup(before, last.id);
      assert Place(before, last.id) == |before|;
      assert MapOf(s).Keys == MapOf(before).Keys + {last.id};
    }
  }

  lemma {:induction false} Replaced<R>(s: seq<Entry<R>>, k: nat, result: R)
    requires DistinctIds(s) && k < |s|
    ensures MapOf(s[k := Entry(s[k].id, result)]) == MapOf(s)[s[k].id := result]
  {
    var n, after := |s| - 1, s[k := Entry(s[k].id, result)];
    if k < n {
      Replaced(s[..n], k, result);
      assert after[..n] == s[..n][k := Entry(s[k].id, result)];
      assert s[k].id != s[n].id;
    } else {
      assert after[..n] == s[..n];
    }
  }

  lemma {:induction false} FirstDropped<R>(s: seq<Entry<R>>)
    requires DistinctIds(s) && |s| > 0
    ensures MapOf(s[1..]) == MapOf(s) - {s[0].id}
  {
    var n := |s| - 1;
    if n > 0 {
      FirstDropped(s[..n]);
      assert s[1..][..n - 1] == s[..n][1..];
      assert s[0].id != s[n].id;
    } else {
      assert s[..0] == [];
    }
  }

  /** A cached id keeps its place; any other is appended, and then the oldest goes if there are too many. */
  function Decided<R>(h: History<R>, id: string, result: R): History<R> {
    var k := Place(h.live, id);
    if k < |h.live| then h.(live := h.live[k := Entry(id, result)])
    else if |h.live| < MAX_SEEN then h.(live := h.live + [Entry(id, result)])
    else History(h.evicted + [h.live[0]], h.live[1..] + [Entry(id, result)])
  }

  lemma More<R>(live: seq<Entry<R>>, id: string, result: R)
    requires DistinctIds(live) && Place(live, id) == |live|
    ensures var more := live + [Entry(id, result)];
      DistinctIds(more) && Ids(more) == Ids(live) + [id] && MapOf(more) == MapOf(live)[id := result]
  {
    assert (live + [Entry(id, result)])[..|live|] == live;
  }

  /** The dictionary of a history that went through `Decided`. */
  lemma DecidedIs<R>(h: History<R>, id: string, result: R)
    requires DistinctIds(h.live) && |h.live| <= MAX_SEEN
    ensures var k, after, more := Place(h.live, id), Decided(h, id, result).live, h.live + [Entry(id, result)];
      && DistinctIds(after) && |after| <= MAX_SEEN
      && (k < |h.live| ==> Ids(after) == Ids(h.live) && MapOf(after) == MapOf(h.live)[id := result])
      && (k == |h.live| ==>
            && DistinctIds(more) && Ids(more) == Ids(h.live) + [id] && MapOf(more) == MapOf(h.live)[id := result]
            && after == if |h.live| < MAX_SEEN then more else more[1..])
  {
    var k := Place(h.live, id);
    if k < |h.live| {
      Replaced(h.live, k, result);
    } else {
      var more := h.live + [Entry(id, result)];
      More(h.live, id, result);
      assert |h.live| == MAX_SEEN ==> more[1..] == h.live[1..] + [Entry(id, result)];
    }
  }

  method Remember<R>(c: Cache<R>, id: string, result: R, ghost h: History<R>) returns (after: Cache<R>)
    requires Tracks(c, h)
    ensures Tracks(after, Decided(h, id, result))
  {
    var order := if id in c.results then c.order else c.order + [id];
    var results := c.results[id := result];
    ghost var more := h.live + [Entry(id, result)];
    Lookup(h.live, id);
    DecidedIs(h, id, result);
    Size(if id in c.results then Decided(h, id, result).live else more);
    if |results| > MAX_SEEN {
      FirstDropped(more);
      var oldest := order[0];
      order, results := order[1..], results - {oldest};
      assert order == Ids(more[1..]);
    }
    after := Cache(order, results);
  }

  // ---------------------------------------------------------------------------------------------------------
  // Whole runs
  // ---------------------------------------------------------------------------------------------------------

  function After<R>(log: seq<Entry<R>>): (h: History<R>) {
    if |log| == 0 then History([], [])
    else Decided(After(log[..|log| - 1]), log[|log| - 1].id, log[|log| - 1].result)
  }

  lemma AfterExtends<R>(log: seq<Entry<R>>, e: Entry<R>)
    ensures After(log + [e]) == Decided(After(log), e.id, e.result)
  {
    assert (log + [e])[..|log|] == log;
  }

  lemma {:induction false} AfterIsTracked<R>(log: seq<Entry<R>>)
    ensures var h := After(log);
      DistinctIds(h.live) && |h.live| <= MAX_SEEN && (h.evicted != [] ==> |h.live| == MAX_SEEN)
  {
    if |log| == 0 {
    } else {
      var n := |log| - 1;
      AfterIsTracked(log[..n]);
      DecidedIs(After(log[..n]), log[n].id, log[n].result);
    }
  }

  /** Nothing is remembered under an id that is still cached: such a request is answered from the cache. */
  predicate NoneRepeated<R>(log: seq<Entry<R>>) {
    |log| == 0
    || (var n := |log| - 1;
        var live := After(log[..n]).live;
        NoneRepeated(log[..n]) && Place(live, log[n].id) == |live|)
  }

  lemma FreshIsNotRepeated<R>(c: Cache<R>, log: seq<Entry<R>>, e: Entry<R>)
    requires Tracks(c, After(log)) && NoneRepeated(log) && e.id !in c.results
    ensures NoneRepeated(log + [e])
  {
    assert (log + [e])[..|log|] == log;
    Lookup(After(log).live, e.id);
  }

  lemma WholeGrows<R>(h: History<R>, id: string, result: R)
    requires Place(h.live, id) == |h.live| <= MAX_SEEN
    ensures Whole(Decided(h, id, result)) == Whole(h) + [Entry(id, result)]
  {
    if |h.live| == MAX_SEEN {
      assert h.live == [h.live[0]] + h.live[1..];
    }
  }

  function Whole<R>(h: History<R>): seq<Entry<R>> {
    h.evicted + h.live
  }

  lemma WholeIsTheLog<R>(before: seq<Entry<R>>, e: Entry<R>)
    requires Whole(After(before)) == before && Place(After(before).live, e.id) == |After(before).live|
    ensures Whole(After(before + [e])) == before + [e]
  {
    AfterIsTracked(before);
    AfterExtends(before, e);
    WholeGrows(After(before), e.id, e.result);
  }

  lemma {:induction false} HistoryIsTheLog<R>(log: seq<Entry<R>>)
    requires NoneRepeated(log)
    ensures Whole(After(log)) == log
  {
    if |log| == 0 {
    } else {
      var before, e := log[..|log| - 1], log[|log| - 1];
      HistoryIsTheLog(before);
      WholeIsTheLog(before, e);
      assert log == before + [e];
    }
  }

  function LastOf<R>(log: seq<Entry<R>>): seq<Entry<R>> {
    if |log| <= 1_024 then log else log[|log| - 1_024..]
  }

  /** The cache then is the last 1,024 results, as they were remembered, and has no others. */
  lemma CacheIsTheLastResults<R>(log: seq<Entry<R>>, c: Cache<R>)
    requires NoneRepeated(log) && Tracks(c, After(log))
    ensures Tracks(c, History([], LastOf(log)))
  {
    HistoryIsTheLog(log);
    AfterIsTracked(log);
    var h := After(log);
    assert h.live == log[|h.evicted|..];
  }

  /** The ids in the order in which they took a place in the cache; one that comes while it has a place is not repeated. */
  function Inserted<R>(log: seq<Entry<R>>): seq<string> {
    if |log| == 0 then []
    else
      var before, id := log[..|log| - 1], log[|log| - 1].id;
      if Place(After(before).live, id) < |After(before).live| then Inserted(before) else Inserted(before) + [id]
  }

  /** The result remembered last under its id. */
  ghost predicate Newest<R>(log: seq<Entry<R>>, e: Entry<R>) {
    |log| > 0 && (log[|log| - 1] == e || (log[|log| - 1].id != e.id && Newest(log[..|log| - 1], e)))
  }

  lemma DecidedInserts<R>(h: History<R>, id: string, result: R)
    requires DistinctIds(h.live) && |h.live| <= MAX_SEEN
    ensures Ids(Whole(Decided(h, id, result))) == Ids(Whole(h)) + if Place(h.live, id) < |h.live| then [] else [id]
    ensures forall e :: e in Decided(h, id, result).live ==> e == Entry(id, result) || (e in h.live && e.id != id)
  {
    var k, after := Place(h.live, id), Decided(h, id, result);
    if k < |h.live| {
      assert forall j :: 0 <= j < |h.live| && j != k ==> h.live[j].id != id;
    } else if |h.live| == MAX_SEEN {
      assert h.live == [h.live[0]] + h.live[1..];
      assert forall e :: e in h.live[1..] ==> e in h.live;
    }
    assert Ids(Whole(after)) == Ids(Whole(h)) + if k < |h.live| then [] else [id];
  }

  lemma {:induction false} LiveIsNewest<R>(log: seq<Entry<R>>)
    ensures Ids(Whole(After(log))) == Inserted(log)
    ensures forall e :: e in After(log).live ==> Newest(log, e)
  {
    if |log| == 0 {
    } else {
      var before, last := log[..|log| - 1], log[|log| - 1];
      LiveIsNewest(before);
      AfterIsTracked(before);
      DecidedInserts(After(before), last.id, last.result);
    }
  }

  lemma CachedIsLive<R>(c: Cache<R>, h: History<R>, id: string)
    requires Tracks(c, h)
    ensures id in c.results <==> id in c.order
    ensures id in c.results ==> Entry(id, c.results[id]) in h.live
  {
    Lookup(h.live, id);
    var k := Place(h.live, id);
    if k < |h.live| {
      assert Ids(h.live)[k] == id && h.live[k] in h.live;
    }
  }

  /**
   After any run, with repeated ids as well: the cache has the last 1,024 insertions in their order, and under each id the
   result that was remembered for it last.
   */
  lemma CacheIsTheLastInsertions<R>(log: seq<Entry<R>>, c: Cache<R>)
    requires Tracks(c, After(log))
    ensures var ids := Inserted(log); c.order == if |ids| <= 1_024 then ids else ids[|ids| - 1_024..]
    ensures forall id :: id in c.results <==> id in c.order
    ensures forall id :: id in c.results ==> Newest(log, Entry(id, c.results[id]))
  {
    LiveIsNewest(log);
    var h := After(log);
    LastIds(h);
    forall id ensures id in c.results <==> id in c.order
      ensures id in c.results ==> Newest(log, Entry(id, c.results[id]))
    {
      CachedIsLive(c, h, id);
    }
  }

  lemma LastIds<R>(h: History<R>)
    requires |h.live| <= MAX_SEEN && (h.evicted != [] ==> |h.live| == MAX_SEEN)
    ensures var ids := Ids(Whole(h)); Ids(h.live) == if |ids| <= MAX_SEEN then ids else ids[|ids| - MAX_SEEN..]
  {
    var ids := Ids(Whole(h));
    assert ids[|h.evicted|..] == Ids(h.live);
    assert h.evicted == [] ==> ids == Ids(h.live);
  }

  /** So a request is answered from the cache, with the result it got before, exactly while fewer than 1,024 came after it. */
  lemma RepeatsAreAnswered<R>(log: seq<Entry<R>>, c: Cache<R>, id: string)
    requires Tracks(c, History([], LastOf(log)))
    ensures id in c.results <==> exists k :: 0 <= k < |log| && |log| <= k + 1_024 && log[k].id == id
    ensures forall k :: 0 <= k < |log| && |log| <= k + 1_024 && log[k].id == id ==> id in c.results && c.results[id] == log[k].result
  {
    var live := LastOf(log);
    Lookup(live, id);
    var place, skipped := Place(live, id), |log| - |live|;
    assert place < |live| ==> log[place + skipped].id == id;
    forall k | 0 <= k < |log| && |log| <= k + 1_024 && log[k].id == id
      ensures id in c.results && c.results[id] == log[k].result
    {
      assert live[k - skipped].id == id;
    }
  }
}
