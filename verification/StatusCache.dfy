/** The batch status lookup with its 60-second cache. */
module StatusCache {
  import opened Options

  type Id = string

  const TtlMs: int := 60_000

  datatype Status = Status(sloId: Id, state: string, firing: nat)

  datatype Doc = Doc(id: Id, enabled: bool)

  datatype Entry = Entry(status: Status, expiresAt: int)

  function MissingStatus(id: Id): Status { Status(id, "no_data", 0) }

  function StubStatus(doc: Doc): Status { Status(doc.id, if doc.enabled then "no_data" else "disabled", 0) }

  /** The aggregator, where one is configured and the caller gave it a context; it may reject. */
  type Aggregator = Option<seq<Doc> -> Option<seq<Status>>>

  /** An answer has one status per document, in order. */
  ghost predicate InOrder(aggregator: Aggregator) {
    aggregator.Some? ==> forall docs: seq<Doc> :: var r := aggregator.value(docs);
      r.Some? ==> |r.value| == |docs| && forall i | 0 <= i < |docs| :: r.value[i].sloId == docs[i].id
  }

  function Asked(aggregator: Aggregator, docs: seq<Doc>): Option<seq<Status>> {
    if aggregator.None? then None else aggregator.value(docs)
  }

  predicate IsLive(cache: map<Id, Entry>, id: Id, now: int) { id in cache && cache[id].expiresAt > now }

  /** The ids without a live entry, in order and with repetitions. */
  function MissesOf(ids: seq<Id>, cache: map<Id, Entry>, now: int): seq<Id> {
    if ids == [] then []
    else
      var (before, id) := (MissesOf(ids[..|ids| - 1], cache, now), ids[|ids| - 1]);
      if IsLive(cache, id, now) then before else before + [id]
  }

  /** The documents there are for those ids, in order. */
  function DocsOf(ids: seq<Id>, docs: map<Id, Doc>): (r: seq<Doc>)
    ensures forall d | d in r :: exists id :: id in ids && id in docs && docs[id] == d
  {
    if ids == [] then []
    else
      var (before, id) := (DocsOf(ids[..|ids| - 1], docs), ids[|ids| - 1]);
      assert ids == ids[..|ids| - 1] + [id];
      if id in docs then before + [docs[id]] else before
  }

  /** The last of the first `n` documents with that id. */
  predicate LastOf(present: seq<Doc>, n: nat, id: Id, i: int)
    requires n <= |present|
  {
    0 <= i < n && present[i].id == id && forall j | i < j < n :: present[j].id != id
  }

  /** What a lookup of these misses answers for one of them: no document, no data; a rejected call, the
      stub; otherwise the aggregator's own status of the document, the last one if it is asked twice. */
  ghost predicate Answers(status: Status, id: Id, misses: seq<Id>, docs: map<Id, Doc>, aggregator: Aggregator) {
    if id !in docs then status == MissingStatus(id)
    else
      var present := DocsOf(misses, docs);
      match Asked(aggregator, present)
      case None => status == StubStatus(docs[id])
      case Some(answers) =>
        && |answers| == |present|
        && exists i :: LastOf(present, |present|, id, i) && status == answers[i]
  }

  class StatusService {
    var cache: map<Id, Entry>
    /** When the call that produced each cached status started. */
    ghost var started: map<Id, int>

    ghost predicate Valid()
      reads this
    {
      && cache.Keys == started.Keys
      && forall id | id in cache ::
           cache[id].expiresAt == started[id] + TtlMs && cache[id].status.sloId == id
    }

    constructor ()
      ensures Valid() && cache == map[]
    {
      cache, started := map[], map[];
    }

    predicate Live(id: Id, now: int)
      reads this
    {
      id in cache && cache[id].expiresAt > now
    }

    /** A live entry answers its id; every other id gets a status computed by this call, which is
        cached from this call's start. */
    method GetStatuses(ids: seq<Id>, docs: map<Id, Doc>, aggregator: Aggregator, now: int) returns (out: seq<Status>)
      requires Valid() && InOrder(aggregator) && forall id | id in docs :: docs[id].id == id
      modifies this
      ensures Valid()
      ensures |out| == |ids| && forall i | 0 <= i < |ids| :: out[i].sloId == ids[i]
      ensures forall i | 0 <= i < |ids| && old(Live(ids[i], now)) ::
        out[i] == old(cache)[ids[i]].status && old(started)[ids[i]] > now - TtlMs
      ensures forall i | 0 <= i < |ids| && !old(Live(ids[i], now)) ::
        Answers(out[i], ids[i], MissesOf(ids, old(cache), now), docs, aggregator)
      ensures forall i | 0 <= i < |ids| && !old(Live(ids[i], now)) ::
        ids[i] in cache && cache[ids[i]] == Entry(out[i], now + TtlMs) && started[ids[i]] == now
      ensures forall id | id !in ids || old(Live(id, now)) ::
        (id in cache <==> id in old(cache)) && (id in cache ==> cache[id] == old(cache)[id] && started[id] == old(started)[id])
    {
      hide Answers, MissesOf, DocsOf, InOrder;
      var result, uncached := Partition(ids, now);
      if |uncached| > 0 {
        result := Compute(uncached, docs, aggregator, result);
        Remember(uncached, result, now);
      }
      out := [];
      for i := 0 to |ids|
        invariant |out| == i && forall j | 0 <= j < i :: ids[j] in result && out[j] == result[ids[j]]
      {
        var id := ids[i];
        out := out + [if id in result then result[id] else MissingStatus(id)];
      }
    }

    /** The cached answers, and the ids without one, in order and with repetitions. */
    method Partition(ids: seq<Id>, now: int) returns (result: map<Id, Status>, uncached: seq<Id>)
      requires Valid()
      ensures forall id :: id in result <==> id in ids && Live(id, now)
      ensures forall id | id in result :: id in cache && result[id] == cache[id].status
      ensures forall id :: id in uncached <==> id in ids && !Live(id, now)
      ensures uncached == MissesOf(ids, cache, now)
    {
      result, uncached := map[], [];
      for i := 0 to |ids|
        invariant forall id :: id in result <==> id in ids[..i] && Live(id, now)
        invariant forall id | id in result :: id in cache && result[id] == cache[id].status
        invariant forall id :: id in uncached <==> id in ids[..i] && !Live(id, now)
        invariant uncached == MissesOf(ids[..i], cache, now)
      {
        assert ids[..i + 1] == ids[..i] + [ids[i]] && ids[..i + 1][..i] == ids[..i];
        if ids[i] in cache && cache[ids[i]].expiresAt > now {
          result := result[ids[i] := cache[ids[i]].status];
        } else {
          uncached := uncached + [ids[i]];
        }
      }
      assert ids[..|ids|] == ids;
    }

    /** A status for each uncached id: missing, aggregated, or the stub when the aggregator rejects. */
    method Compute(uncached: seq<Id>, docs: map<Id, Doc>, aggregator: Aggregator, cached: map<Id, Status>)
        returns (result: map<Id, Status>)
      requires InOrder(aggregator) && forall id | id in docs :: docs[id].id == id
      requires forall id | id in cached :: id !in uncached
      ensures result.Keys == cached.Keys + set id | id in uncached
      ensures forall id | id in cached :: result[id] == cached[id]
      ensures forall id | id in uncached ::
        result[id].sloId == id && Answers(result[id], id, uncached, docs, aggregator)
    {
      hide DocsOf, Answers;
      var present: seq<Doc>;
      result, present := Fetch(uncached, docs, cached);
      if |present| > 0 { result := Fill(uncached, docs, cached, result, present, Asked(aggregator, present)); }
      EveryMissAnswered(uncached, docs, aggregator, present, cached, result);
    }

    /** Gives each document its status, or its stub. */
    method Fill(ghost uncached: seq<Id>, ghost docs: map<Id, Doc>, ghost cached: map<Id, Status>, found: map<Id, Status>,
                present: seq<Doc>, statuses: Option<seq<Status>>) returns (result: map<Id, Status>)
      requires statuses.Some? ==> |statuses.value| == |present|
      requires forall d | d in present :: d.id in uncached && d.id in docs && docs[d.id] == d && d.id !in cached
      requires forall id | id in docs :: docs[id].id == id
      requires forall id | id in found && id in docs :: id in cached
      ensures forall id | id in found && !(id in docs && id !in cached) :: id in result && result[id] == found[id]
      ensures forall id | id in result :: id in found || id in uncached
      ensures forall id | id in result && id in docs && id !in cached ::
        FromAnswers(result[id], docs[id], statuses, present, |present|)
      ensures forall k | 0 <= k < |present| :: present[k].id in result
    {
      hide FromAnswers;
      result := found;
      for i := 0 to |present|
        invariant forall id | id in found && !(id in docs && id !in cached) :: id in result && result[id] == found[id]
        invariant forall id | id in result :: id in found || id in uncached
        invariant forall id | id in result && id in docs && id !in cached ::
          FromAnswers(result[id], docs[id], statuses, present, i)
        invariant forall k | 0 <= k < i :: present[k].id in result
      {
        var doc := present[i];
        assert doc in present;
        StillFrom(statuses, present, i);
        var status := if statuses.Some? then statuses.value[i] else StubStatus(doc);
        GivenNow(status, statuses, present, i);
        result := result[doc.id := status];
      }
    }

    /** The documents there are, and a status for the ids that have none. */
    method Fetch(uncached: seq<Id>, docs: map<Id, Doc>, cached: map<Id, Status>)
        returns (result: map<Id, Status>, present: seq<Doc>)
      requires forall id | id in cached :: id !in uncached
      ensures present == DocsOf(uncached, docs)
      ensures forall id | id in cached :: id in result && result[id] == cached[id]
      ensures forall id :: id in result <==> id in cached || (id in uncached && id !in docs)
      ensures forall id | id in uncached && id !in docs :: result[id] == MissingStatus(id)
    {
      present, result := [], cached;
      for i := 0 to |uncached|
        invariant present == DocsOf(uncached[..i], docs)
        invariant forall id | id in cached :: id in result && result[id] == cached[id]
        invariant forall id :: id in result <==> id in cached || (id in uncached[..i] && id !in docs)
        invariant forall id | id in uncached[..i] && id !in docs :: result[id] == MissingStatus(id)
      {
        var id := uncached[i];
        assert uncached[..i + 1] == uncached[..i] + [id] && uncached[..i + 1][..i] == uncached[..i];
        if id in docs { present := present + [docs[id]]; } else { result := result[id := MissingStatus(id)]; }
      }
      assert uncached[..|uncached|] == uncached;
    }

    method Remember(uncached: seq<Id>, result: map<Id, Status>, now: int)
      requires Valid() && forall id | id in uncached :: id in result && result[id].sloId == id
      modifies this
      ensures Valid()
      ensures forall id | id in uncached ::
        id in cache && cache[id] == Entry(result[id], now + TtlMs) && started[id] == now
      ensures forall id | id !in uncached ::
        (id in cache <==> id in old(cache)) && (id in cache ==> cache[id] == old(cache)[id] && started[id] == old(started)[id])
    {
      for i := 0 to |uncached|
        invariant Valid()
        invariant forall id | id in uncached[..i] ::
          id in cache && cache[id] == Entry(result[id], now + TtlMs) && started[id] == now
        invariant forall id | id !in uncached[..i] ::
          (id in cache <==> id in old(cache)) && (id in cache ==> cache[id] == old(cache)[id] && started[id] == old(started)[id])
      {
        var id := uncached[i];
        assert uncached[..i + 1] == uncached[..i] + [id];
        cache, started := cache[id := Entry(result[id], now + TtlMs)], started[id := now];
      }
      assert uncached[..|uncached|] == uncached;
    }

    method Invalidate(id: Id)
      requires Valid()
      modifies this
      ensures Valid() && cache == old(cache) - {id} && started == old(started) - {id}
    {
      cache, started := cache - {id}, started - {id};
    }
  }

  /** The status was given to the last of the first `n` documents with its id. */
  ghost predicate FromAnswers(status: Status, doc: Doc, statuses: Option<seq<Status>>, present: seq<Doc>, n: nat)
    requires n <= |present| && (statuses.Some? ==> |statuses.value| == |present|)
  {
    if statuses.None? then status == StubStatus(doc)
    else exists i :: LastOf(present, n, doc.id, i) && status == statuses.value[i]
  }

  lemma StillFrom(statuses: Option<seq<Status>>, present: seq<Doc>, n: nat)
    requires n < |present| && (statuses.Some? ==> |statuses.value| == |present|)
    ensures forall status, doc: Doc | doc.id != present[n].id && FromAnswers(status, doc, statuses, present, n) ::
      FromAnswers(status, doc, statuses, present, n + 1)
  {
    forall status, doc: Doc | doc.id != present[n].id && FromAnswers(status, doc, statuses, present, n)
      ensures FromAnswers(status, doc, statuses, present, n + 1)
    {
      if statuses.Some? {
        var i :| LastOf(present, n, doc.id, i) && status == statuses.value[i];
        assert LastOf(present, n + 1, doc.id, i);
      }
    }
  }

  lemma GivenNow(status: Status, statuses: Option<seq<Status>>, present: seq<Doc>, i: nat)
    requires i < |present| && (statuses.Some? ==> |statuses.value| == |present|)
    requires status == if statuses.Some? then statuses.value[i] else StubStatus(present[i])
    ensures FromAnswers(status, present[i], statuses, present, i + 1)
  {
    assert LastOf(present, i + 1, present[i].id, i);
  }

  lemma {:induction false} DocIsThere(misses: seq<Id>, docs: map<Id, Doc>, id: Id) returns (i: nat)
    requires id in misses && id in docs
    ensures i < |DocsOf(misses, docs)| && DocsOf(misses, docs)[i] == docs[id]
  {
    var n := |misses| - 1;
    if misses[n] == id {
      i := |DocsOf(misses[..n], docs)|;
    } else {
      assert id in misses[..n];
      i := DocIsThere(misses[..n], docs, id);
    }
  }

  lemma EveryMissAnswered(misses: seq<Id>, docs: map<Id, Doc>, aggregator: Aggregator, present: seq<Doc>,
                          cached: map<Id, Status>, result: map<Id, Status>)
    requires InOrder(aggregator) && present == DocsOf(misses, docs) && forall id | id in docs :: docs[id].id == id
    requires forall id | id in cached :: id !in misses
    requires forall id | id in result :: id in cached || id in misses
    requires forall id | id in misses && id !in docs :: id in result && result[id] == MissingStatus(id)
    requires forall k | 0 <= k < |present| :: present[k].id in result
    requires forall id | id in result && id in docs && id !in cached ::
      FromAnswers(result[id], docs[id], Asked(aggregator, present), present, |present|)
    ensures forall id | id in misses ::
      id in result && result[id].sloId == id && Answers(result[id], id, misses, docs, aggregator)
  {
    forall id | id in misses ensures id in result && result[id].sloId == id && Answers(result[id], id, misses, docs, aggregator) {
      if id in docs {
        var i := DocIsThere(misses, docs, id);
        assert present[i].id == id;
      }
    }
  }

  // ---------- overlapping calls ----------

  type Call = nat

  /** A call between its cache lookup and its cache write. */
  datatype Flight = Flight(ids: set<Id>, start: int)

  /** `born` is the start of the call that wrote the entry. */
  datatype Cached = Cached(born: int, expiresAt: int)

  datatype State = State(now: int, cache: map<Id, Cached>, flights: map<Call, Flight>)

  datatype Step =
    | Wait(ms: nat)
    | Lookup(call: Call, ids: set<Id>)
    | Write(call: Call)
    | Drop(id: Id)

  predicate Served(s: State, id: Id) { id in s.cache && s.cache[id].expiresAt > s.now }

  predicate Enabled(s: State, step: Step) {
    match step
    case Lookup(c, _) => c !in s.flights
    case Write(c) => c in s.flights
    case _ => true
  }

  /** A lookup goes on with the ids it finds no live entry for; a write caches them from the start of
      its call. */
  function Apply(s: State, step: Step): State
    requires Enabled(s, step)
  {
    match step
    case Wait(ms) => s.(now := s.now + ms)
    case Lookup(c, ids) =>
      var uncached := set id | id in ids && !Served(s, id);
      if uncached == {} then s else s.(flights := s.flights[c := Flight(uncached, s.now)])
    case Write(c) =>
      var f := s.flights[c];
      s.(cache := map id | id in s.cache.Keys + f.ids ::
             if id in f.ids then Cached(f.start, f.start + TtlMs) else s.cache[id],
         flights := s.flights - {c})
    case Drop(id) => s.(cache := s.cache - {id})
  }

  predicate Runs(s: State, steps: seq<Step>)
    decreases |steps|
  {
    steps == [] || (Enabled(s, steps[0]) && Runs(Apply(s, steps[0]), steps[1..]))
  }

  function After(s: State, steps: seq<Step>): State
    requires Runs(s, steps)
    decreases |steps|
  {
    if steps == [] then s else After(Apply(s, steps[0]), steps[1..])
  }

  predicate Inv(s: State) { forall id | id in s.cache :: s.cache[id].expiresAt == s.cache[id].born + TtlMs }

  /** In every history, what the cache serves at a time came from a call that started less than 60
      seconds before. */
  lemma {:induction false} ServedIsRecent(s: State, steps: seq<Step>, id: Id)
    requires Inv(s) && Runs(s, steps) && Served(After(s, steps), id)
    ensures var s' := After(s, steps); s'.cache[id].born > s'.now - TtlMs
    decreases |steps|
  {
    if steps != [] { ServedIsRecent(Apply(s, steps[0]), steps[1..], id); }
  }

  /** No entry for `id`, and no call under way for it, is older than `since`. */
  predicate NoneBefore(s: State, id: Id, since: int) {
    && (id in s.cache ==> s.cache[id].born >= since)
    && (forall c | c in s.flights && id in s.flights[c].ids :: s.flights[c].start >= since)
    && s.now >= since
  }

  lemma {:induction false} StaysRecent(s: State, steps: seq<Step>, id: Id, since: int)
    requires NoneBefore(s, id, since) && Runs(s, steps)
    ensures NoneBefore(After(s, steps), id, since)
    decreases |steps|
  {
    if steps != [] { StaysRecent(Apply(s, steps[0]), steps[1..], id, since); }
  }

  /** An entry for `id` may be older than `since` after some run. */
  ghost predicate MayServeOld(s: State, id: Id, since: int) {
    exists steps :: Runs(s, steps) && id in After(s, steps).cache && After(s, steps).cache[id].born < since
  }

  /** Invalidating a status keeps older ones out for good exactly when no call that started before is
      still under way for that id: such a call writes its old status back. */
  lemma InvalidationHolds(s: State, id: Id)
    ensures !MayServeOld(Apply(s, Drop(id)), id, s.now)
        <==> forall c | c in s.flights && id in s.flights[c].ids :: s.flights[c].start >= s.now
  {
    var dropped := Apply(s, Drop(id));
    if forall c | c in s.flights && id in s.flights[c].ids :: s.flights[c].start >= s.now {
      forall steps | Runs(dropped, steps)
        ensures id in After(dropped, steps).cache ==> After(dropped, steps).cache[id].born >= s.now
      {
        StaysRecent(dropped, steps, id, s.now);
      }
    } else {
      var c :| c in s.flights && id in s.flights[c].ids && s.flights[c].start < s.now;
      var written := Apply(dropped, Write(c));
      assert [Write(c)][1..] == [] && Runs(written, []) && After(written, []) == written;
      assert Runs(dropped, [Write(c)]) && After(dropped, [Write(c)]) == written;
    }
  }
}
