/** Paging through the SLO listing with opaque cursors. */
module Listing {
  import opened Options
  import Base64Url

  const DefaultPageSize: nat := 20
  const MaxPageSize: nat := 100
  const MaxCursorPage: nat := 500

  /** Position in a listing: page, page size, sort field and order, and the hash of the filters. */
  datatype Cursor = Cursor(page: int, pageSize: int, sortField: string, descending: bool, filterHash: string)

  /** The JSON text of a cursor and the parser that reads it back. */
  datatype JsonText = JsonText(write: Cursor -> seq<Base64Url.Byte>, read: seq<Base64Url.Byte> -> Option<Cursor>)

  ghost predicate Faithful(json: JsonText) { forall c :: json.read(json.write(c)) == Some(c) }

  function EncodeCursor(json: JsonText, c: Cursor): string { Base64Url.Encode(json.write(c)) }

  function DecodeCursor(json: JsonText, text: Option<string>): Option<Cursor> {
    if text.None? || text.value == "" then None
    else
      var bytes :- Base64Url.Decode(text.value);
      var c :- json.read(bytes);
      if c.page < 1 || c.pageSize < 1 then None else Some(c)
  }

  /** A cursor survives the trip through the client, whatever is in it. */
  lemma CursorRoundTrip(json: JsonText, c: Cursor)
    requires Faithful(json) && c.page >= 1 && c.pageSize >= 1 && json.write(c) != []
    ensures DecodeCursor(json, Some(EncodeCursor(json, c))) == Some(c)
  {
    Base64Url.RoundTrip(json.write(c));
    NotEmptyText(json.write(c));
  }

  lemma NotEmptyText(b: seq<Base64Url.Byte>)
    requires b != []
    ensures Base64Url.Encode(b) != ""
  {
  }

  // ---------- one page ----------

  /** How many rows come on the first `pages` pages. */
  function Rows(pages: nat, pageSize: nat): nat { pages * pageSize }

  /** JavaScript's `slice(start, start + n)`. */
  function Slice<T>(s: seq<T>, start: nat, n: nat): seq<T> {
    if start >= |s| then [] else s[start..if start + n < |s| then start + n else |s|]
  }

  function PageSizeOf(requested: Option<int>): (n: nat)
    ensures 1 <= n <= MaxPageSize
  {
    var r := if requested.Some? then requested.value else DefaultPageSize;
    var capped := if r < MaxPageSize then r else MaxPageSize;
    if capped > 1 then capped else 1
  }

  /** A missing, malformed or drifted cursor restarts at page one; pages end at the ceiling. */
  function EffectivePage(json: JsonText, cursor: Option<string>, filterHash: string): (p: nat)
    ensures 1 <= p <= MaxCursorPage
  {
    var c := DecodeCursor(json, cursor);
    if c.None? || c.value.filterHash != filterHash then 1
    else if c.value.page < MaxCursorPage then c.value.page else MaxCursorPage
  }

  datatype Page<T> = Page(
    results: seq<T>, total: nat, pageSize: nat, hasMore: bool, next: Option<string>, prev: Option<string>)

  function CursorFor(json: JsonText, page: int, pageSize: nat, sortField: string, descending: bool, filterHash: string): string {
    EncodeCursor(json, Cursor(page, pageSize, sortField, descending, filterHash))
  }

  /** Sort field and order; by `_id`, ascending, without a cursor. */
  function SortOf(json: JsonText, cursor: Option<string>): (string, bool) {
    var c := DecodeCursor(json, cursor);
    if c.None? then ("_id", false)
    else (if c.value.sortField != "" then c.value.sortField else "_id", c.value.descending)
  }

  /** `all` is the filtered listing in its stable order. */
  function Paginate<T>(json: JsonText, all: seq<T>, cursor: Option<string>, pageSize: nat, filterHash: string): Page<T> {
    var page := EffectivePage(json, cursor, filterHash);
    var (sortField, descending) := SortOf(json, cursor);
    var hasMore := Rows(page, pageSize) < |all|;
    Page(
      Slice(all, Rows(page - 1, pageSize), pageSize), |all|, pageSize, hasMore,
      if hasMore then Some(CursorFor(json, page + 1, pageSize, sortField, descending, filterHash)) else None,
      if page > 1 then Some(CursorFor(json, page - 1, pageSize, sortField, descending, filterHash)) else None)
  }

  ghost predicate Ready(json: JsonText) { Faithful(json) && forall c :: json.write(c) != [] }

  lemma EffectiveOfCursor(json: JsonText, page: nat, pageSize: nat, sortField: string, descending: bool, filterHash: string)
    requires Ready(json) && page >= 1 && pageSize >= 1
    ensures EffectivePage(json, Some(CursorFor(json, page, pageSize, sortField, descending, filterHash)), filterHash)
         == if page < MaxCursorPage then page else MaxCursorPage
  {
    CursorRoundTrip(json, Cursor(page, pageSize, sortField, descending, filterHash));
  }

  lemma NoCursor(json: JsonText, filterHash: string)
    ensures EffectivePage(json, None, filterHash) == 1
  {
  }

  /** What a page shows and where its cursors lead. */
  lemma PageFacts<T>(json: JsonText, all: seq<T>, cursor: Option<string>, pageSize: nat, filterHash: string)
    requires Ready(json) && pageSize >= 1
    ensures var (r, p) := (Paginate(json, all, cursor, pageSize, filterHash), EffectivePage(json, cursor, filterHash));
      && r.results == Slice(all, Rows(p - 1, pageSize), pageSize) && r.total == |all|
      && (r.next.Some? <==> Rows(p, pageSize) < |all|) && (r.prev.Some? <==> p > 1)
      && (r.next.Some? ==> EffectivePage(json, r.next, filterHash) == if p < MaxCursorPage then p + 1 else p)
      && (r.prev.Some? ==> EffectivePage(json, r.prev, filterHash) == p - 1)
  {
    hide SortOf, EffectivePage, CursorFor, Rows, Slice;
    var p := EffectivePage(json, cursor, filterHash);
    var (sortField, descending) := SortOf(json, cursor);
    EffectiveOfCursor(json, p + 1, pageSize, sortField, descending, filterHash);
    if p > 1 { EffectiveOfCursor(json, p - 1, pageSize, sortField, descending, filterHash); }
  }

  /** A cursor counts only for the filters it was made for; with others, or without one, a listing
      starts at the first page. */
  lemma CursorMeans(json: JsonText, c: Cursor, filterHash: string)
    requires Ready(json) && c.page >= 1 && c.pageSize >= 1
    ensures EffectivePage(json, Some(EncodeCursor(json, c)), filterHash)
      == if c.filterHash != filterHash then 1 else if c.page < MaxCursorPage then c.page else MaxCursorPage
    ensures EffectivePage(json, None, filterHash) == 1
  {
    CursorRoundTrip(json, c);
  }

  /** The cursors of a page carry on its sort field and order: those of the cursor it was asked with, or
      by `_id` and ascending. */
  lemma SortKept<T>(json: JsonText, all: seq<T>, cursor: Option<string>, pageSize: nat, filterHash: string)
    requires Ready(json) && pageSize >= 1
    ensures var r := Paginate(json, all, cursor, pageSize, filterHash);
      && (r.next.Some? ==> SortOf(json, r.next) == SortOf(json, cursor))
      && (r.prev.Some? ==> SortOf(json, r.prev) == SortOf(json, cursor))
    ensures cursor.None? ==> SortOf(json, cursor) == ("_id", false)
  {
    hide EffectivePage, Rows, Slice, EncodeCursor, DecodeCursor;
    var p := EffectivePage(json, cursor, filterHash);
    var (sortField, descending) := SortOf(json, cursor);
    CursorRoundTrip(json, Cursor(p + 1, pageSize, sortField, descending, filterHash));
    if p > 1 { CursorRoundTrip(json, Cursor(p - 1, pageSize, sortField, descending, filterHash)); }
    NothingDecoded(json);
  }

  lemma NothingDecoded(json: JsonText)
    ensures DecodeCursor(json, None) == None
  {
  }

  /** Going back from the next page leads to the page one came from, exactly below the ceiling: the
      page at the ceiling is followed by itself. */
  lemma PrevUndoesNext<T>(json: JsonText, all: seq<T>, cursor: Option<string>, pageSize: nat, filterHash: string)
    requires Ready(json) && pageSize >= 1
    requires Paginate(json, all, cursor, pageSize, filterHash).next.Some?
    ensures var here := Paginate(json, all, cursor, pageSize, filterHash);
      var there := Paginate(json, all, here.next, pageSize, filterHash);
      && there.prev.Some?
      && ((EffectivePage(json, there.prev, filterHash) == EffectivePage(json, cursor, filterHash))
            <==> EffectivePage(json, cursor, filterHash) < MaxCursorPage)
      && (EffectivePage(json, cursor, filterHash) < MaxCursorPage ==>
            Paginate(json, all, there.prev, pageSize, filterHash).results == here.results)
  {
    hide EffectivePage, Paginate, Rows;
    PageFacts(json, all, cursor, pageSize, filterHash);
    var here := Paginate(json, all, cursor, pageSize, filterHash);
    PageFacts(json, all, here.next, pageSize, filterHash);
    var there := Paginate(json, all, here.next, pageSize, filterHash);
    PageFacts(json, all, there.prev, pageSize, filterHash);
  }

  // ---------- walking the pages ----------

  /** The cursor sent for the `n`-th page of a walk that starts without one; none when it is over. */
  function SentFor<T>(json: JsonText, all: seq<T>, pageSize: nat, filterHash: string, n: nat): Option<Option<string>> {
    if n == 0 then Some(None)
    else
      var cursor :- SentFor(json, all, pageSize, filterHash, n - 1);
      var next := Paginate(json, all, cursor, pageSize, filterHash).next;
      if next.None? then None else Some(next)
  }

  predicate Over<T>(json: JsonText, all: seq<T>, pageSize: nat, filterHash: string, n: nat) {
    SentFor(json, all, pageSize, filterHash, n).None?
  }

  /** The rows of the first `n` pages of the walk, one page after the other. */
  function Collected<T>(json: JsonText, all: seq<T>, pageSize: nat, filterHash: string, n: nat): seq<T> {
    if n == 0 then []
    else
      Collected(json, all, pageSize, filterHash, n - 1)
      + (if Over(json, all, pageSize, filterHash, n - 1) then []
         else Paginate(json, all, SentFor(json, all, pageSize, filterHash, n - 1).value, pageSize, filterHash).results)
  }

  function PageAt(n: nat): nat { if n < MaxCursorPage then n + 1 else MaxCursorPage }

  lemma Monotone(a: nat, b: nat, pageSize: nat)
    requires a <= b
    ensures Rows(a, pageSize) <= Rows(b, pageSize)
  {
  }

  lemma NextRows(n: nat, pageSize: nat)
    ensures Rows(n + 1, pageSize) == Rows(n, pageSize) + pageSize && Rows(0, pageSize) == 0
  {
  }

  lemma OverIs<T>(json: JsonText, all: seq<T>, pageSize: nat, filterHash: string, n: nat)
    ensures Over(json, all, pageSize, filterHash, n) <==> SentFor(json, all, pageSize, filterHash, n).None?
  {
  }

  /** Where the walk stands after `n` steps. */
  lemma {:induction false} WalkStands<T>(json: JsonText, all: seq<T>, pageSize: nat, filterHash: string, n: nat)
    requires Ready(json) && pageSize >= 1
    ensures !Over(json, all, pageSize, filterHash, n) <==> n == 0 || Rows(PageAt(n - 1), pageSize) < |all|
    ensures !Over(json, all, pageSize, filterHash, n) ==>
      EffectivePage(json, SentFor(json, all, pageSize, filterHash, n).value, filterHash) == PageAt(n)
  {
    hide EffectivePage, Paginate, Rows;
    if n == 0 {
      NoCursor(json, filterHash);
    } else {
      WalkStands(json, all, pageSize, filterHash, n - 1);
      if n > 1 { Monotone(PageAt(n - 2), PageAt(n - 1), pageSize); }
      if !Over(json, all, pageSize, filterHash, n - 1) {
        PageFacts(json, all, SentFor(json, all, pageSize, filterHash, n - 1).value, pageSize, filterHash);
      }
    }
  }

  function Upto<T>(s: seq<T>, n: nat): seq<T> { if n < |s| then s[..n] else s }

  lemma SliceExtends<T>(s: seq<T>, start: nat, n: nat)
    ensures Upto(s, start) + Slice(s, start, n) == Upto(s, start + n)
  {
  }

  lemma {:induction false} CollectedIs<T>(json: JsonText, all: seq<T>, pageSize: nat, filterHash: string, n: nat)
    requires Ready(json) && pageSize >= 1 && n <= MaxCursorPage
    ensures Collected(json, all, pageSize, filterHash, n) == Upto(all, Rows(n, pageSize))
  {
    hide EffectivePage, Paginate, Over, SentFor, Rows;
    NextRows(0, pageSize);
    if n > 0 {
      CollectedIs(json, all, pageSize, filterHash, n - 1);
      WalkStands(json, all, pageSize, filterHash, n - 1);
      SliceExtends(all, Rows(n - 1, pageSize), pageSize);
      NextRows(n - 1, pageSize);
      if !Over(json, all, pageSize, filterHash, n - 1) {
        OverIs(json, all, pageSize, filterHash, n - 1);
        PageFacts(json, all, SentFor(json, all, pageSize, filterHash, n - 1).value, pageSize, filterHash);
      }
    }
  }

  lemma WalkEnds<T>(json: JsonText, all: seq<T>, pageSize: nat, filterHash: string, n: nat)
    requires Ready(json) && pageSize >= 1
    ensures |all| > Rows(MaxCursorPage, pageSize) ==> !Over(json, all, pageSize, filterHash, n)
    ensures |all| <= Rows(MaxCursorPage, pageSize) ==> Over(json, all, pageSize, filterHash, MaxCursorPage)
  {
    hide Over, Rows;
    WalkStands(json, all, pageSize, filterHash, n);
    WalkStands(json, all, pageSize, filterHash, MaxCursorPage);
    assert PageAt(MaxCursorPage - 1) == MaxCursorPage;
    if n > 0 { Monotone(PageAt(n - 1), MaxCursorPage, pageSize); }
    NextRows(0, pageSize);
    Monotone(0, MaxCursorPage, pageSize);
  }

  /** A walk reaches its end exactly when the listing fits the 500 pages a cursor can name; and then
      its pages, one after the other, are the listing. */
  lemma WalkCovers<T>(json: JsonText, all: seq<T>, pageSize: nat, filterHash: string)
    requires Ready(json) && pageSize >= 1
    ensures (exists n :: Over(json, all, pageSize, filterHash, n)) <==> |all| <= Rows(MaxCursorPage, pageSize)
    ensures |all| <= Rows(MaxCursorPage, pageSize) ==>
      Collected(json, all, pageSize, filterHash, MaxCursorPage) == all
  {
    hide Over, Collected, Rows;
    CollectedIs(json, all, pageSize, filterHash, MaxCursorPage);
    forall n ensures |all| > Rows(MaxCursorPage, pageSize) ==> !Over(json, all, pageSize, filterHash, n) {
      WalkEnds(json, all, pageSize, filterHash, n);
    }
    WalkEnds(json, all, pageSize, filterHash, 0);
  }

  /** Whatever page size a client asks for, a walk ends on listings of up to 500 rows and on none of
      more than 50,000; where it asks for none, exactly on those of up to 10,000. */
  lemma WalkLimits<T>(json: JsonText, all: seq<T>, requested: Option<int>, filterHash: string)
    requires Ready(json)
    ensures var ends := exists n :: Over(json, all, PageSizeOf(requested), filterHash, n);
      && (|all| <= 500 ==> ends) && (|all| > 50_000 ==> !ends)
      && (requested == None ==> (ends <==> |all| <= 10_000))
  {
    hide Over, Ready;
    WalkCovers(json, all, PageSizeOf(requested), filterHash);
    Monotone(1, PageSizeOf(requested), MaxCursorPage);
    Monotone(PageSizeOf(requested), MaxPageSize, MaxCursorPage);
    Swap(PageSizeOf(requested), MaxCursorPage);
  }

  lemma Swap(a: nat, b: nat)
    ensures Rows(a, b) == Rows(b, a)
  {
  }

  /** Past the ceiling the walk shows the 500th page for ever. */
  lemma WalkRepeats<T>(json: JsonText, all: seq<T>, pageSize: nat, filterHash: string, n: nat)
    requires Ready(json) && pageSize >= 1 && |all| > Rows(MaxCursorPage, pageSize) && n >= MaxCursorPage - 1
    ensures !Over(json, all, pageSize, filterHash, n)
    ensures Paginate(json, all, SentFor(json, all, pageSize, filterHash, n).value, pageSize, filterHash).results
         == Slice(all, Rows(MaxCursorPage - 1, pageSize), pageSize)
  {
    hide EffectivePage, Paginate, Rows;
    WalkStands(json, all, pageSize, filterHash, n);
    if n > 0 { Monotone(PageAt(n - 1), MaxCursorPage, pageSize); }
    PageFacts(json, all, SentFor(json, all, pageSize, filterHash, n).value, pageSize, filterHash);
  }
}
