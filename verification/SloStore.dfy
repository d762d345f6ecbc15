/** The in-memory store, and the two ways a listing page is computed: filters pushed into the store,
    or the whole listing filtered step by step and sliced. */
module SloStore {
  import opened Options
  import opened Text
  import Listing
  import opened Sorting

  datatype Doc = Doc(
    id: string, datasource: string, name: string, service: string, description: Option<string>,
    teams: seq<string>, tier: Option<string>, kind: Option<string>, enabled: bool, mode: string,
    single: bool, backend: string, leaf: string)

  /** An empty list, like an empty search, filters nothing. */
  datatype Filters = Filters(
    datasources: seq<string>, services: seq<string>, teams: seq<string>, tiers: seq<string>, kinds: seq<string>,
    enabled: Option<bool>, modes: seq<string>, backends: seq<string>, leaves: seq<string>, search: string)

  function Filtered(docs: seq<Doc>, p: Doc -> bool): (r: seq<Doc>)
    ensures forall d :: d in r <==> d in docs && p(d)
  {
    if docs == [] then []
    else
      assert docs == [docs[0]] + docs[1..];
      (if p(docs[0]) then [docs[0]] else []) + Filtered(docs[1..], p)
  }

  lemma {:induction false} FilteredTwice(docs: seq<Doc>, p: Doc -> bool, q: Doc -> bool, r: Doc -> bool)
    requires forall d :: r(d) <==> p(d) && q(d)
    ensures Filtered(Filtered(docs, p), q) == Filtered(docs, r)
  {
    if docs != [] {
      FilteredTwice(docs[1..], p, q, r);
      var rest := Filtered(docs[1..], p);
      assert [] + rest == rest && [] + Filtered(docs[1..], r) == Filtered(docs[1..], r);
      if p(docs[0]) {
        assert Filtered(docs, p) == [docs[0]] + rest && ([docs[0]] + rest)[1..] == rest;
      }
    }
  }

  lemma {:induction false} FilteredAlike(docs: seq<Doc>, p: Doc -> bool, q: Doc -> bool)
    requires forall d :: p(d) <==> q(d)
    ensures Filtered(docs, p) == Filtered(docs, q)
  {
    if docs != [] { FilteredAlike(docs[1..], p, q); }
  }

  // ---------- the facets ----------

  function LowerText(s: string): string { seq(|s|, i requires 0 <= i < |s| => Lower(s[i])) }

  predicate Contains(s: string, part: string) {
    part <= s || (s != "" && Contains(s[1..], part))
  }

  predicate Given(value: Option<string>, wanted: seq<string>) {
    value.Some? && value.value != "" && value.value in wanted
  }

  predicate Hits(d: Doc, search: string) {
    var q := LowerText(search);
    || Contains(LowerText(d.name), q) || Contains(LowerText(d.service), q)
    || (d.description.Some? && Contains(LowerText(d.description.value), q))
  }

  /** The letters stand at that place, in whatever case. */
  predicate OccursAt(s: string, part: string, i: nat) {
    i + |part| <= |s| && forall j | 0 <= j < |part| :: Lower(s[i + j]) == Lower(part[j])
  }

  predicate Occurs(s: string, part: string) { exists i | 0 <= i <= |s| :: OccursAt(s, part, i) }

  lemma {:induction false} ContainsIff(s: string, part: string)
    ensures Contains(s, part) <==> exists i | 0 <= i <= |s| :: part <= s[i..]
  {
    if s == "" {
      assert s[0..] == s;
    } else {
      ContainsIff(s[1..], part);
      assert s[0..] == s;
      if i :| 0 <= i <= |s[1..]| && part <= s[1..][i..] { assert s[1..][i..] == s[i + 1..]; }
      if i :| 0 < i <= |s| && part <= s[i..] { assert s[1..][i - 1..] == s[i..]; }
    }
  }

  lemma PrefixAt(t: string, q: string, i: nat)
    requires i <= |t|
    ensures q <= t[i..] <==> i + |q| <= |t| && forall j | 0 <= j < |q| :: t[i + j] == q[j]
  {
    if i + |q| <= |t| {
      assert forall j | 0 <= j < |q| :: t[i..][j] == t[i + j];
      if forall j | 0 <= j < |q| :: t[i + j] == q[j] { assert t[i..][..|q|] == q; }
    }
  }

  lemma OccursIff(s: string, part: string)
    ensures Contains(LowerText(s), LowerText(part)) <==> Occurs(s, part)
  {
    var (t, q) := (LowerText(s), LowerText(part));
    ContainsIff(t, q);
    forall i | 0 <= i <= |s| ensures q <= t[i..] <==> OccursAt(s, part, i) {
      PrefixAt(t, q, i);
      assert i + |q| <= |t| ==> forall j | 0 <= j < |q| :: t[i + j] == Lower(s[i + j]) && q[j] == Lower(part[j]);
    }
  }

  /** A search finds the documents in whose name, service or description it occurs, in whatever case. */
  lemma HitsIff(d: Doc, search: string)
    ensures Hits(d, search) <==>
      Occurs(d.name, search) || Occurs(d.service, search) || (d.description.Some? && Occurs(d.description.value, search))
  {
    OccursIff(d.name, search);
    OccursIff(d.service, search);
    if d.description.Some? { OccursIff(d.description.value, search); }
  }

  predicate AnyTeam(d: Doc, wanted: seq<string>) { exists t | t in d.teams :: t in wanted }

  /** The store's own test: one rejection after the other. */
  predicate Matches(d: Doc, f: Filters) {
    if f.datasources != [] && d.datasource !in f.datasources then false
    else if f.services != [] && d.service !in f.services then false
    else if f.teams != [] && !AnyTeam(d, f.teams) then false
    else if f.tiers != [] && !Given(d.tier, f.tiers) then false
    else if f.kinds != [] && !Given(d.kind, f.kinds) then false
    else if f.enabled.Some? && d.enabled != f.enabled.value then false
    else if f.modes != [] && d.mode !in f.modes then false
    else if f.backends != [] && (!d.single || d.backend !in f.backends) then false
    else if f.leaves != [] && (!d.single || d.leaf !in f.leaves) then false
    else f.search == "" || Hits(d, f.search)
  }

  /** No value is wanted, or this one is. */
  predicate Admits(wanted: seq<string>, value: string) { wanted == [] || value in wanted }

  /** A document passes when it meets every facet that is given; an optional value that is missing or
      empty meets none. */
  lemma MatchesIff(d: Doc, f: Filters)
    ensures Matches(d, f) <==>
      && Admits(f.datasources, d.datasource) && Admits(f.services, d.service) && Admits(f.modes, d.mode)
      && (f.teams == [] || exists i | 0 <= i < |d.teams| :: d.teams[i] in f.teams)
      && (f.tiers == [] || (d.tier.Some? && d.tier.value != "" && d.tier.value in f.tiers))
      && (f.kinds == [] || (d.kind.Some? && d.kind.value != "" && d.kind.value in f.kinds))
      && (f.enabled.Some? ==> d.enabled == f.enabled.value)
      && ((f.backends == [] && f.leaves == []) || d.single) && Admits(f.backends, d.backend) && Admits(f.leaves, d.leaf)
      && (f.search == "" || Occurs(d.name, f.search) || Occurs(d.service, f.search)
          || (d.description.Some? && Occurs(d.description.value, f.search)))
  {
    hide Hits, Occurs;
    HitsIff(d, f.search);
    assert AnyTeam(d, f.teams) <==> exists i | 0 <= i < |d.teams| :: d.teams[i] in f.teams by {
      hide *;
      AnyTeamAt(d, f.teams);
    }
  }

  lemma AnyTeamAt(d: Doc, wanted: seq<string>)
    ensures AnyTeam(d, wanted) <==> exists i | 0 <= i < |d.teams| :: d.teams[i] in wanted
  {
    if AnyTeam(d, wanted) {
      var t :| t in d.teams && t in wanted;
      var i :| 0 <= i < |d.teams| && d.teams[i] == t;
    }
    if i :| 0 <= i < |d.teams| && d.teams[i] in wanted { assert d.teams[i] in d.teams; }
  }

  // ---------- the store ----------

  predicate DistinctIds(docs: seq<Doc>) { forall i, j | 0 <= i < j < |docs| :: docs[i].id != docs[j].id }

  /** A saved document replaces the one with its id in place, or comes last. */
  function Put(docs: seq<Doc>, doc: Doc): seq<Doc> {
    if docs == [] then [doc]
    else if docs[0].id == doc.id then [doc] + docs[1..]
    else [docs[0]] + Put(docs[1..], doc)
  }

  function Find(docs: seq<Doc>, id: string): Option<Doc> {
    if docs == [] then None else if docs[0].id == id then Some(docs[0]) else Find(docs[1..], id)
  }

  lemma {:induction false} PutKeeps(docs: seq<Doc>, doc: Doc)
    requires DistinctIds(docs)
    ensures DistinctIds(Put(docs, doc))
    ensures forall d | d in Put(docs, doc) :: d == doc || d in docs
    ensures forall id :: Find(Put(docs, doc), id) == if id == doc.id then Some(doc) else Find(docs, id)
  {
    if docs != [] && docs[0].id != doc.id {
      assert forall i | 0 <= i < |docs[1..]| :: docs[1..][i] == docs[i + 1];
      PutKeeps(docs[1..], doc);
      var rest := Put(docs[1..], doc);
      forall j | 0 <= j < |rest| ensures rest[j].id != docs[0].id {
        assert rest[j] in rest;
      }
      assert ([docs[0]] + rest)[1..] == rest;
    }
  }

  // ---------- the order of a page ----------

  /** How names compare: JavaScript's `localeCompare`, which depends on the locale. */
  type Collation = (string, string) -> bool

  /** By `_id`, the default, is the order of the store, either way round. */
  datatype Order = ById | ByName(descending: bool)

  function NameNotAfter(collate: Collation): (Doc, Doc) -> bool { (a: Doc, b: Doc) => collate(a.name, b.name) }

  function Reverse<T>(s: seq<T>): (r: seq<T>)
    ensures |r| == |s| && forall i | 0 <= i < |s| :: r[i] == s[|s| - 1 - i]
  {
    seq(|s|, i requires 0 <= i < |s| => s[|s| - 1 - i])
  }

  lemma {:induction false} ReverseKeeps<T>(s: seq<T>)
    ensures multiset(Reverse(s)) == multiset(s)
  {
    if s != [] {
      var n := |s| - 1;
      ReverseKeeps(s[..n]);
      assert Reverse(s) == [s[n]] + Reverse(s[..n]);
      assert s == s[..n] + [s[n]];
    }
  }

  function Ordered(docs: seq<Doc>, order: Order, collate: Collation): seq<Doc> {
    if order.ById? then docs
    else
      var sorted := Sort(docs, NameNotAfter(collate));
      if order.descending then Reverse(sorted) else sorted
  }

  lemma NamesAreOrdered(collate: Collation)
    requires TotalPreorder(collate)
    ensures TotalPreorder(NameNotAfter(collate))
  {
    var leq := NameNotAfter(collate);
    forall a: Doc, b: Doc ensures leq(a, b) || leq(b, a) {
      assert collate(a.name, b.name) || collate(b.name, a.name);
    }
    forall a: Doc, b: Doc, c: Doc | leq(a, b) && leq(b, c) ensures leq(a, c) {
      assert collate(a.name, b.name) && collate(b.name, c.name);
    }
  }

  /** The page order keeps every document, and orders them by name where that is asked for. */
  lemma OrderedFacts(docs: seq<Doc>, order: Order, collate: Collation)
    ensures multiset(Ordered(docs, order, collate)) == multiset(docs) && |Ordered(docs, order, collate)| == |docs|
    ensures TotalPreorder(collate) && order.ByName? ==> var r := Ordered(docs, order, collate);
      forall i, j | 0 <= i < j < |r| ::
        if order.descending then collate(r[j].name, r[i].name) else collate(r[i].name, r[j].name)
  {
    var leq := NameNotAfter(collate);
    ReverseKeeps(Sort(docs, leq));
    assert |multiset(Sort(docs, leq))| == |Sort(docs, leq)| && |multiset(docs)| == |docs|;
    if TotalPreorder(collate) {
      NamesAreOrdered(collate);
      SortSorts(docs, leq);
    }
  }

  class InMemorySloStore {
    var docs: seq<Doc>

    ghost predicate Valid()
      reads this
    {
      DistinctIds(docs)
    }

    constructor ()
      ensures Valid() && docs == []
    {
      docs := [];
    }

    method Save(doc: Doc)
      requires Valid()
      modifies this
      ensures Valid() && docs == Put(old(docs), doc)
      ensures forall id :: Find(docs, id) == if id == doc.id then Some(doc) else Find(old(docs), id)
    {
      PutKeeps(docs, doc);
      docs := Put(docs, doc);
    }

    method Delete(id: string) returns (deleted: bool)
      requires Valid()
      modifies this
      ensures Valid() && (deleted <==> exists d :: d in old(docs) && d.id == id)
      ensures forall d :: d in docs <==> d in old(docs) && d.id != id
    {
      var kept := Filtered(docs, (d: Doc) => d.id != id);
      FilteredIsDistinct(docs, (d: Doc) => d.id != id);
      deleted := exists d | d in docs :: d.id == id;
      docs := kept;
    }

    method List(datasources: seq<string>) returns (r: seq<Doc>)
      ensures r == Filtered(docs, (d: Doc) => datasources == [] || d.datasource in datasources)
    {
      if datasources == [] {
        FilteredAll(docs, (d: Doc) => datasources == [] || d.datasource in datasources);
        return docs;
      }
      FilteredAlike(docs, (d: Doc) => d.datasource in datasources,
        (d: Doc) => datasources == [] || d.datasource in datasources);
      r := Filtered(docs, (d: Doc) => d.datasource in datasources);
    }

    /** One page in the order asked for. */
    method Paginate(f: Filters, order: Order, collate: Collation, page: nat, perPage: nat)
        returns (slice: seq<Doc>, total: nat)
      requires page >= 1
      ensures var all := Filtered(docs, (d: Doc) => Matches(d, f));
        slice == Listing.Slice(Ordered(all, order, collate), Listing.Rows(page - 1, perPage), perPage) && total == |all|
    {
      var filtered := Filtered(docs, (d: Doc) => Matches(d, f));
      OrderedFacts(filtered, order, collate);
      filtered := Ordered(filtered, order, collate);
      return Listing.Slice(filtered, Listing.Rows(page - 1, perPage), perPage), |filtered|;
    }
  }

  lemma {:induction false} FilteredAll(docs: seq<Doc>, p: Doc -> bool)
    requires forall d :: p(d)
    ensures Filtered(docs, p) == docs
  {
    if docs != [] { FilteredAll(docs[1..], p); }
  }

  lemma {:induction false} FilteredIsDistinct(docs: seq<Doc>, p: Doc -> bool)
    requires DistinctIds(docs)
    ensures DistinctIds(Filtered(docs, p))
  {
    if docs != [] {
      assert forall i | 0 <= i < |docs[1..]| :: docs[1..][i] == docs[i + 1];
      FilteredIsDistinct(docs[1..], p);
      var rest := Filtered(docs[1..], p);
      forall j | 0 <= j < |rest| ensures rest[j].id != docs[0].id {
        assert rest[j] in rest && rest[j] in docs[1..];
      }
    }
  }

  // ---------- the listing ----------

  /** The listing service: the store's documents of the wanted datasources, then one filter after the
      other. It keeps exactly the documents the store's own test keeps. */
  method ListAll(store: InMemorySloStore, f: Filters) returns (filtered: seq<Doc>)
    ensures filtered == Filtered(store.docs, (d: Doc) => Matches(d, f))
  {
    hide Hits, AnyTeam, Given, Filtered;
    filtered := store.List(f.datasources);
    ghost var p: Doc -> bool := (d: Doc) => f.datasources == [] || d.datasource in f.datasources;
    filtered, p := Narrow(store.docs, filtered, p, f.datasources != [], (d: Doc) => d.datasource in f.datasources);
    var wanted := f.enabled;
    filtered, p := Narrow(store.docs, filtered, p, wanted.Some?, (d: Doc) => wanted == Some(d.enabled));
    filtered, p := Narrow(store.docs, filtered, p, f.modes != [], (d: Doc) => d.mode in f.modes);
    filtered, p := Narrow(store.docs, filtered, p, f.services != [], (d: Doc) => d.service in f.services);
    filtered, p := Narrow(store.docs, filtered, p, f.teams != [], (d: Doc) => AnyTeam(d, f.teams));
    filtered, p := Narrow(store.docs, filtered, p, f.tiers != [], (d: Doc) => Given(d.tier, f.tiers));
    filtered, p := Narrow(store.docs, filtered, p, f.kinds != [], (d: Doc) => Given(d.kind, f.kinds));
    filtered, p := Narrow(store.docs, filtered, p, f.backends != [], (d: Doc) => d.single && d.backend in f.backends);
    filtered, p := Narrow(store.docs, filtered, p, f.leaves != [], (d: Doc) => d.single && d.leaf in f.leaves);
    filtered, p := Narrow(store.docs, filtered, p, f.search != "", (d: Doc) => Hits(d, f.search));
    FilteredAlike(store.docs, p, (d: Doc) => Matches(d, f));
  }

  /** One more filter on the documents that `p` kept, when it applies. */
  method Narrow(ghost docs: seq<Doc>, filtered: seq<Doc>, ghost p: Doc -> bool, applies: bool, q: Doc -> bool)
      returns (r: seq<Doc>, ghost p': Doc -> bool)
    requires filtered == Filtered(docs, p)
    ensures r == Filtered(docs, p')
    ensures forall d :: p'(d) <==> p(d) && (applies ==> q(d))
  {
    p' := (d: Doc) => p(d) && (applies ==> q(d));
    if applies {
      FilteredTwice(docs, p, q, p');
      r := Filtered(filtered, q);
    } else {
      FilteredAlike(docs, p, p');
      r := filtered;
    }
  }

  /** The page the store computes in its own order and the page cut from the whole listing are the
      same, with the same total. */
  method PageBothWays(store: InMemorySloStore, f: Filters, collate: Collation, page: nat, perPage: nat)
      returns (pushed: seq<Doc>, sliced: seq<Doc>, total: nat, listed: nat)
    requires page >= 1
    ensures pushed == sliced && total == listed
  {
    pushed, total := store.Paginate(f, ById, collate, page, perPage);
    var all := ListAll(store, f);
    sliced, listed := Listing.Slice(all, Listing.Rows(page - 1, perPage), perPage), |all|;
  }

  function PageOf(docs: seq<Doc>, page: nat, perPage: nat): seq<Doc>
    requires page >= 1
  {
    Listing.Slice(docs, Listing.Rows(page - 1, perPage), perPage)
  }

  /** The listing's own cut ignores the order a cursor asks for: by name, the two ways give the same
      pages exactly when the documents happen to be in that order already. */
  lemma NamePagesAgreeIff(docs: seq<Doc>, collate: Collation, perPage: nat)
    requires TotalPreorder(collate) && perPage >= 1
    ensures (forall page: nat | page >= 1 ::
              PageOf(Ordered(docs, ByName(false), collate), page, perPage) == PageOf(docs, page, perPage))
        <==> forall i, j | 0 <= i < j < |docs| :: collate(docs[i].name, docs[j].name)
  {
    var (leq, r) := (NameNotAfter(collate), Ordered(docs, ByName(false), collate));
    NamesAreOrdered(collate);
    SortFixes(docs, leq);
    OrderedFacts(docs, ByName(false), collate);
    if forall page: nat | page >= 1 :: PageOf(r, page, perPage) == PageOf(docs, page, perPage) {
      forall i | 0 <= i < |docs| ensures r[i] == docs[i] { OnItsPage(r, docs, i, perPage); }
      assert r == docs;
    }
  }

  lemma OnItsPage(a: seq<Doc>, b: seq<Doc>, i: nat, perPage: nat)
    requires perPage >= 1 && i < |a| == |b|
    requires forall page: nat | page >= 1 :: PageOf(a, page, perPage) == PageOf(b, page, perPage)
    ensures a[i] == b[i]
  {
    var (page, k) := (i / perPage + 1, i % perPage);
    RowOf(i, perPage);
    assert PageOf(a, page, perPage)[k] == a[i] && PageOf(b, page, perPage)[k] == b[i];
  }

  lemma RowOf(i: nat, perPage: nat)
    requires perPage >= 1
    ensures Listing.Rows(i / perPage, perPage) + i % perPage == i
  {
  }
}
