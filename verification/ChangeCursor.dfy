/** The keyset change cursor of the external data API. */
module ChangeCursor {
  import opened Basics
  import Utf16Order
  import opened Sorting

  /** A stored transaction row as the query returns it. The column updated_at keeps
      milliseconds, like the JavaScript dates both stamps are read as. */
  datatype Row = Row(id: string, createdAt: int, updatedAt: int, data: string)

  /** The watermark a cursor names. */
  datatype Watermark = Watermark(ms: int, id: string)

  const EPOCH := Watermark(0, "")

  // ------------------------------------------------------------- cursor text

  /** Date.toISOString, its parser, and base64url in both directions. */
  datatype Codec = Codec(
    iso: int -> string,
    parseIso: string -> Option<int>,
    encode64: string -> string,
    decode64: string -> string)

  /** The stated inverse hypotheses on the library functions. */
  ghost predicate Faithful(c: Codec) {
    && (forall ms :: c.parseIso(c.iso(ms)) == Some(ms) && '\0' !in c.iso(ms))
    && (forall s :: c.decode64(c.encode64(s)) == s && (s != "" ==> c.encode64(s) != ""))
  }

  function IndexOf(s: string, c: char): (k: int)
    ensures -1 <= k < |s|
  {
    if s == "" then -1
    else if s[0] == c then 0
    else var k := IndexOf(s[1..], c); if k < 0 then -1 else k + 1
  }

  function EncodeCursor(c: Codec, w: Watermark): string {
    c.encode64(c.iso(w.ms) + "\0" + w.id)
  }

  /** A missing or malformed cursor names the epoch start. */
  function DecodeCursor(c: Codec, cursor: Option<string>): Watermark {
    if !Truthy(cursor) then EPOCH
    else
      var raw := c.decode64(cursor.value);
      var sep := IndexOf(raw, '\0');
      if sep == -1 then EPOCH
      else
        var ms := c.parseIso(raw[..sep]);
        if ms.None? then EPOCH else Watermark(ms.value, raw[sep + 1..])
  }

  lemma {:induction false} IndexOfSeparator(s: string, c: char, t: string)
    requires c !in s
    ensures IndexOf(s + [c] + t, c) == |s|
  {
    if s == "" {
      assert (s + [c] + t)[0] == c;
    } else {
      assert (s + [c] + t)[1..] == s[1..] + [c] + t;
      IndexOfSeparator(s[1..], c, t);
    }
  }

  /** decodeCursor undoes encodeCursor, for every id. */
  lemma {:induction false} CursorRoundTrip(c: Codec, w: Watermark)
    requires Faithful(c)
    ensures DecodeCursor(c, Some(EncodeCursor(c, w))) == w
  {
    var raw := c.iso(w.ms) + "\0" + w.id;
    assert c.decode64(c.encode64(raw)) == raw;
    IndexOfSeparator(c.iso(w.ms), '\0', w.id);
    assert raw == c.iso(w.ms) + ['\0'] + w.id;
    assert raw[..|c.iso(w.ms)|] == c.iso(w.ms) && raw[|c.iso(w.ms)| + 1..] == w.id;
  }

  /** A cursor that is missing, has no separator or no readable date starts from the
      beginning; any other names exactly the date and id around its first separator. */
  lemma {:induction false} DecodesExactly(c: Codec, cursor: Option<string>)
    ensures cursor in {None, Some("")} ==> DecodeCursor(c, cursor) == Watermark(0, "")
    ensures Truthy(cursor) && '\0' !in c.decode64(cursor.value) ==> DecodeCursor(c, cursor) == Watermark(0, "")
    ensures forall date, id :: Truthy(cursor) && c.decode64(cursor.value) == date + "\0" + id && '\0' !in date ==>
              DecodeCursor(c, cursor) == if c.parseIso(date).Some? then Watermark(c.parseIso(date).value, id) else Watermark(0, "")
  {
    if Truthy(cursor) {
      var raw := c.decode64(cursor.value);
      IndexOfAbsent(raw, '\0');
      forall date, id | raw == date + "\0" + id && '\0' !in date
        ensures IndexOf(raw, '\0') == |date| && raw[..|date|] == date && raw[|date| + 1..] == id
      {
        assert raw == date + ['\0'] + id;
        IndexOfSeparator(date, '\0', id);
      }
    }
  }

  lemma {:induction false} IndexOfAbsent(s: string, c: char)
    ensures c !in s ==> IndexOf(s, c) == -1
  {
    if s != "" {
      IndexOfAbsent(s[1..], c);
    }
  }

  // -------------------------------------------------------------- one page

  predicate RowLess(a: Row, b: Row) {
    a.updatedAt < b.updatedAt || (a.updatedAt == b.updatedAt && Utf16Order.Less(a.id, b.id))
  }

  /** (updated_at, id) > (watermark), compared in the database. */
  predicate After(row: Row, w: Watermark) {
    row.updatedAt > w.ms || (row.updatedAt == w.ms && Utf16Order.Less(w.id, row.id))
  }

  function WatermarkOf(row: Row): Watermark {
    Watermark(row.updatedAt, row.id)
  }

  function Filter<T>(s: seq<T>, p: T -> bool): seq<T> {
    if s == [] then [] else (if p(s[0]) then [s[0]] else []) + Filter(s[1..], p)
  }

  /** Every row after the watermark, in (updated_at, id) order. */
  function Pending(table: seq<Row>, w: Watermark): seq<Row> {
    Sort(Filter(table, (r: Row) => After(r, w)), RowLess)
  }

  datatype Page = Page(items: seq<Row>, next: Watermark, hasMore: bool)

  /** The query takes limit + 1 rows; the extra one only tells that there is more. */
  function PageAt(table: seq<Row>, w: Watermark, limit: nat): Page {
    var all := Pending(table, w);
    var rows := if |all| > limit + 1 then all[..limit + 1] else all;
    var hasMore := |rows| > limit;
    var items := if hasMore then rows[..limit] else rows;
    Page(items, if items == [] then w else WatermarkOf(items[|items| - 1]), hasMore)
  }

  predicate NeverModified(r: Row) {
    r.createdAt == r.updatedAt
  }

  predicate Modified(r: Row) {
    !NeverModified(r)
  }

  /** transactionSyncPage: the page split into rows added and rows modified. */
  method SyncPage(table: seq<Row>, w: Watermark, limit: nat)
    returns (added: seq<Row>, modified: seq<Row>, next: Watermark, hasMore: bool)
    ensures var page := PageAt(table, w, limit);
      && added == Filter(page.items, NeverModified)
      && modified == Filter(page.items, Modified)
      && next == page.next && hasMore == page.hasMore
  {
    var page := PageAt(table, w, limit);
    added, modified := SplitRows(page.items);
    next, hasMore := page.next, page.hasMore;
  }

  method SplitRows(items: seq<Row>) returns (added: seq<Row>, modified: seq<Row>)
    ensures added == Filter(items, NeverModified)
    ensures modified == Filter(items, Modified)
  {
    added, modified := [], [];
    for n := 0 to |items|
      invariant added == Filter(items[..n], NeverModified)
      invariant modified == Filter(items[..n], Modified)
    {
      assert items[..n + 1] == items[..n] + [items[n]];
      FilterLast(items[..n], items[n], NeverModified);
      FilterLast(items[..n], items[n], Modified);
      if NeverModified(items[n]) {
        added := added + [items[n]];
      } else {
        modified := modified + [items[n]];
      }
    }
    assert items[..|items|] == items;
  }

  /** Added are exactly the rows of the page not rewritten since they were inserted,
      modified exactly the others. */
  lemma {:induction false} SplitExactly(items: seq<Row>, r: Row)
    ensures r in Filter(items, NeverModified) <==> r in items && r.createdAt == r.updatedAt
    ensures r in Filter(items, Modified) <==> r in items && r.createdAt != r.updatedAt
  {
    FilterMember(items, NeverModified, r);
    FilterMember(items, Modified, r);
  }

  /** The split loses no row and invents none. */
  lemma {:induction false} SplitConserves(items: seq<Row>)
    ensures multiset(Filter(items, NeverModified)) + multiset(Filter(items, Modified)) == multiset(items)
  {
    forall r ensures (multiset(Filter(items, NeverModified)) + multiset(Filter(items, Modified)))[r] == multiset(items)[r] {
      FilterCount(items, NeverModified, r);
      FilterCount(items, Modified, r);
    }
  }

  lemma {:induction false} FilterLast<T>(a: seq<T>, x: T, p: T -> bool)
    ensures Filter(a + [x], p) == if p(x) then Filter(a, p) + [x] else Filter(a, p)
  {
    FilterConcat(a, [x], p);
    assert [x][1..] == [] && Filter([x], p) == (if p(x) then [x] else []);
    assert Filter(a, p) + [] == Filter(a, p);
  }

  lemma {:induction false} FilterConcat<T>(a: seq<T>, b: seq<T>, p: T -> bool)
    ensures Filter(a + b, p) == Filter(a, p) + Filter(b, p)
  {
    if a == [] {
      assert a + b == b;
    } else {
      var head := if p(a[0]) then [a[0]] else [];
      assert (a + b)[0] == a[0] && (a + b)[1..] == a[1..] + b;
      FilterConcat(a[1..], b, p);
      assert Filter(a + b, p) == head + (Filter(a[1..], p) + Filter(b, p));
      assert Filter(a, p) == head + Filter(a[1..], p);
    }
  }

  lemma {:induction false} FilterCount<T>(s: seq<T>, p: T -> bool, x: T)
    ensures multiset(Filter(s, p))[x] == if p(x) then multiset(s)[x] else 0
  {
    if s != [] {
      FilterCount(s[1..], p, x);
      assert s == [s[0]] + s[1..];
    }
  }

  lemma {:induction false} FilterMember<T>(s: seq<T>, p: T -> bool, x: T)
    ensures x in Filter(s, p) <==> x in s && p(x)
  {
    FilterCount(s, p, x);
    assert x in s <==> multiset(s)[x] > 0;
    assert x in Filter(s, p) <==> multiset(Filter(s, p))[x] > 0;
  }

  // ----------------------------------------------------------- whole walks

  predicate DistinctIds(table: seq<Row>) {
    forall i, j :: 0 <= i < j < |table| ==> table[i].id != table[j].id
  }

  lemma {:induction false} OrderFacts()
    ensures Transitive(RowLess) && Irreflexive(RowLess)
  {
    forall x: Row, y: Row, z: Row | RowLess(x, y) && RowLess(y, z) ensures RowLess(x, z) {
      if x.updatedAt == y.updatedAt == z.updatedAt {
        Utf16Order.LessTransitive(x.id, y.id, z.id);
      }
    }
    forall x: Row ensures !RowLess(x, x) {
      Utf16Order.LessTotal(x.id, x.id);
    }
  }

  lemma {:induction false} FilterDistinct(table: seq<Row>, p: Row -> bool)
    requires DistinctIds(table)
    ensures DistinctIds(Filter(table, p))
  {
    if table != [] {
      FilterDistinct(table[1..], p);
      forall r | r in Filter(table[1..], p) ensures r.id != table[0].id {
        FilterMember(table[1..], p, r);
      }
    }
  }

  /** Pending rows are exactly those after the watermark, each once, in order. */
  lemma {:induction false} PendingFacts(table: seq<Row>, w: Watermark)
    requires DistinctIds(table)
    ensures Ascending(Pending(table, w), RowLess)
    ensures forall r :: r in Pending(table, w) <==> r in table && After(r, w)
    ensures forall r :: r in table && After(r, w) ==> multiset(Pending(table, w))[r] == multiset(table)[r]
  {
    var p := (r: Row) => After(r, w);
    var s := Filter(table, p);
    OrderFacts();
    FilterDistinct(table, p);
    forall i, j | 0 <= i < j < |s| ensures RowLess(s[i], s[j]) || RowLess(s[j], s[i]) {
      Utf16Order.LessTotal(s[i].id, s[j].id);
    }
    SortAscending(s, RowLess);
    SortBag(s, RowLess);
    forall r ensures r in Pending(table, w) <==> r in table && After(r, w) {
      SortMember(s, RowLess, r);
      FilterMember(table, p, r);
    }
    forall r | r in table && After(r, w) ensures multiset(Pending(table, w))[r] == multiset(table)[r] {
      FilterCount(table, p, r);
    }
  }

  /** Pages run forward in time: stamps never fall, and equal stamps come in id order. */
  lemma {:induction false} PendingRunsForward(table: seq<Row>, w: Watermark, i: nat, j: nat)
    requires DistinctIds(table) && i < j < |Pending(table, w)|
    ensures var a, b := Pending(table, w)[i], Pending(table, w)[j];
      && a.updatedAt <= b.updatedAt && w.ms <= a.updatedAt
      && (a.updatedAt == b.updatedAt ==> Utf16Order.Less(a.id, b.id))
  {
    PendingFacts(table, w);
    assert Pending(table, w)[i] in Pending(table, w);
  }

  /** Being after a row's own cursor means being after the row. */
  lemma {:induction false} AfterRow(r: Row, last: Row)
    ensures After(r, WatermarkOf(last)) <==> RowLess(last, r)
  {
  }

  lemma {:induction false} AscendingTail(all: seq<Row>, k: nat, w: Watermark)
    requires Ascending(all, RowLess) && 0 < k <= |all| && w == WatermarkOf(all[k - 1])
    ensures Filter(all, (r: Row) => After(r, w)) == all[k..]
  {
    var p := (r: Row) => After(r, w);
    OrderFacts();
    assert all == all[..k] + all[k..];
    FilterConcat(all[..k], all[k..], p);
    forall i | 0 <= i < k ensures !p(all[i]) {
      AfterRow(all[i], all[k - 1]);
      if i < k - 1 {
        assert RowLess(all[i], all[k - 1]);
      }
    }
    FilterNone(all[..k], p);
    forall i | k <= i < |all| ensures p(all[i]) {
      AfterRow(all[i], all[k - 1]);
    }
    FilterAll(all[k..], p);
  }

  lemma {:induction false} FilterNone<T>(s: seq<T>, p: T -> bool)
    requires forall i :: 0 <= i < |s| ==> !p(s[i])
    ensures Filter(s, p) == []
  {
    if s != [] {
      FilterNone(s[1..], p);
    }
  }

  lemma {:induction false} FilterAll<T>(s: seq<T>, p: T -> bool)
    requires forall i :: 0 <= i < |s| ==> p(s[i])
    ensures Filter(s, p) == s
  {
    if s != [] {
      FilterAll(s[1..], p);
    }
  }

  lemma {:induction false} PendingCount(table: seq<Row>, w: Watermark, r: Row)
    ensures multiset(Pending(table, w))[r] == if After(r, w) then multiset(table)[r] else 0
  {
    var p := (x: Row) => After(x, w);
    SortBag(Filter(table, p), RowLess);
    FilterCount(table, p, r);
  }

  /** A row is pending after the k-th pending row as often as it is among the rest. */
  lemma {:induction false} CountAfterPage(table: seq<Row>, w: Watermark, k: nat, r: Row)
    requires DistinctIds(table) && 0 < k <= |Pending(table, w)|
    ensures multiset(Pending(table, WatermarkOf(Pending(table, w)[k - 1])))[r] == multiset(Pending(table, w)[k..])[r]
  {
    var all := Pending(table, w);
    var last := all[k - 1];
    PendingFacts(table, w);
    assert last in all;
    AscendingTail(all, k, WatermarkOf(last));
    FilterCount(all, (x: Row) => After(x, WatermarkOf(last)), r);
    PendingCount(table, w, r);
    PendingCount(table, WatermarkOf(last), r);
    if After(r, WatermarkOf(last)) {
      AfterRow(r, last);
      AfterStart(last, r, w);
    }
  }

  /** What is pending after the k-th pending row is the rest of what was pending. */
  lemma {:induction false} PendingAfterPage(table: seq<Row>, w: Watermark, k: nat)
    requires DistinctIds(table) && 0 < k <= |Pending(table, w)|
    ensures Pending(table, WatermarkOf(Pending(table, w)[k - 1])) == Pending(table, w)[k..]
  {
    var rest, next := Pending(table, w)[k..], WatermarkOf(Pending(table, w)[k - 1]);
    forall r ensures multiset(rest)[r] == multiset(Pending(table, next))[r] {
      CountAfterPage(table, w, k, r);
    }
    assert Ascending(rest, RowLess) by {
      PendingFacts(table, w);
    }
    SamePending(table, next, rest);
  }

  lemma {:induction false} SamePending(table: seq<Row>, w: Watermark, rest: seq<Row>)
    requires DistinctIds(table)
    requires Ascending(rest, RowLess) && multiset(rest) == multiset(Pending(table, w))
    ensures Pending(table, w) == rest
  {
    PendingFacts(table, w);
    OrderFacts();
    AscendingUnique(Pending(table, w), rest, RowLess);
  }

  lemma {:induction false} AfterStart(a: Row, b: Row, w: Watermark)
    requires After(a, w) && RowLess(a, b)
    ensures After(b, w)
  {
    if a.updatedAt == b.updatedAt == w.ms {
      Utf16Order.LessTransitive(w.id, a.id, b.id);
    }
  }

  /** The first k rows of a list, and whether there are more. */
  predicate Delivered(all: seq<Row>, delivered: seq<Row>, hasMore: bool, next: Watermark) {
    && delivered <= all && (hasMore <==> |delivered| < |all|)
    && (hasMore ==> delivered != [] && next == WatermarkOf(delivered[|delivered| - 1]))
  }

  lemma {:induction false} NextPage(table: seq<Row>, start: Watermark, limit: nat, delivered: seq<Row>, next: Watermark)
    requires limit >= 1 && DistinctIds(table) && Delivered(Pending(table, start), delivered, true, next)
    ensures var page := PageAt(table, next, limit);
      Delivered(Pending(table, start), delivered + page.items, page.hasMore, page.next) && page.items != []
  {
    var all, k, page := Pending(table, start), |delivered|, PageAt(table, next, limit);
    PendingAfterPage(table, start, k);
    assert page.items == all[k..][..|page.items|];
  }

  /** Following nextCursor until hasMore is false terminates on a fixed table and
      delivers every row after the start exactly once, in order. */
  method FollowCursor(table: seq<Row>, start: Watermark, limit: nat) returns (delivered: seq<Row>)
    requires limit >= 1 && DistinctIds(table)
    ensures delivered == Pending(table, start)
  {
    var page := PageAt(table, start, limit);
    delivered := page.items;
    while page.hasMore
      invariant Delivered(Pending(table, start), delivered, page.hasMore, page.next)
      decreases |Pending(table, start)| - |delivered|
    {
      NextPage(table, start, limit, delivered, page.next);
      page := PageAt(table, page.next, limit);
      delivered := delivered + page.items;
    }
  }

  // ------------------------------------------- walks over a changing table

  /** Store a row: a known id is rewritten, a new one appended. */
  function Put(table: seq<Row>, row: Row): seq<Row> {
    if table == [] then [row]
    else if table[0].id == row.id then [row] + table[1..]
    else [table[0]] + Put(table[1..], row)
  }

  function PutAll(table: seq<Row>, rows: seq<Row>): seq<Row>
    decreases |rows|
  {
    if rows == [] then table else PutAll(Put(table, rows[0]), rows[1..])
  }

  datatype Walk = Walk(delivered: seq<Row>, table: seq<Row>, hasMore: bool)

  /** Follow nextCursor page by page, with the writes of one round after each page but
      the last. */
  function Follow(table: seq<Row>, w: Watermark, limit: nat, rounds: seq<seq<Row>>): Walk
    decreases |rounds|
  {
    var page := PageAt(table, w, limit);
    if rounds == [] then Walk(page.items, table, page.hasMore)
    else
      var rest := Follow(PutAll(table, rounds[0]), page.next, limit, rounds[1..]);
      rest.(delivered := page.items + rest.delivered)
  }

  /** At some page of the walk the version is in the table and after the cursor: it was
      there at the start, after the start, or was stamped after the cursor of its round. */
  predicate InTime(table: seq<Row>, w: Watermark, limit: nat, rounds: seq<seq<Row>>, r: Row)
    decreases |rounds|
  {
    || (r in table && After(r, w))
    || (rounds != [] && InTime(PutAll(table, rounds[0]), PageAt(table, w, limit).next, limit, rounds[1..], r))
  }

  /** Once stored, the version is not written over during the walk. */
  predicate Stays(table: seq<Row>, rounds: seq<seq<Row>>, r: Row)
    decreases |rounds|
  {
    rounds == [] ||
    var after := PutAll(table, rounds[0]);
    (r in table ==> r in after) && Stays(after, rounds[1..], r)
  }

  lemma {:induction false} PutFacts(table: seq<Row>, row: Row)
    requires DistinctIds(table)
    ensures DistinctIds(Put(table, row))
    ensures forall r :: r in Put(table, row) <==> r == row || (r in table && r.id != row.id)
  {
    if table != [] && table[0].id != row.id {
      PutFacts(table[1..], row);
    }
  }

  lemma {:induction false} PutAllFacts(table: seq<Row>, rows: seq<Row>)
    requires DistinctIds(table)
    ensures DistinctIds(PutAll(table, rows))
    ensures forall r :: r in PutAll(table, rows) ==> r in table || r in rows
    decreases |rows|
  {
    if rows != [] {
      PutFacts(table, rows[0]);
      PutAllFacts(Put(table, rows[0]), rows[1..]);
    }
  }

  ghost predicate InOrder(rows: seq<Row>, w: Watermark) {
    Ascending(rows, RowLess) && forall r :: r in rows ==> After(r, w)
  }

  /** A page's rows come after its cursor, in order. */
  lemma {:induction false} PageInOrder(table: seq<Row>, w: Watermark, limit: nat)
    requires DistinctIds(table)
    ensures InOrder(PageAt(table, w, limit).items, w)
  {
    var all, items := Pending(table, w), PageAt(table, w, limit).items;
    PendingFacts(table, w);
    assert items == all[..|items|];
  }

  /** What comes after the next cursor comes after this page. */
  lemma {:induction false} AfterPage(table: seq<Row>, w: Watermark, limit: nat, r: Row)
    requires DistinctIds(table) && After(r, PageAt(table, w, limit).next)
    ensures After(r, w) && forall x :: x in PageAt(table, w, limit).items ==> RowLess(x, r)
  {
    var items := PageAt(table, w, limit).items;
    PageInOrder(table, w, limit);
    if items != [] {
      var last := items[|items| - 1];
      assert last in items;
      AfterRow(r, last);
      AfterStart(last, r, w);
      OrderFacts();
    }
  }

  /** A page is as full as it can be, and says truly whether there is more. */
  lemma {:induction false} PageIsFull(table: seq<Row>, w: Watermark, limit: nat)
    ensures var all, page := Pending(table, w), PageAt(table, w, limit);
      && page.items == all[..if |all| < limit then |all| else limit] && (page.hasMore <==> |all| > limit)
      && page.next == if page.items == [] then w else Watermark(page.items[|page.items| - 1].updatedAt, page.items[|page.items| - 1].id)
  {
  }

  /** What was pending is on the page or comes after the next cursor. */
  lemma {:induction false} PageCovers(table: seq<Row>, w: Watermark, limit: nat, r: Row)
    requires DistinctIds(table) && r in table && After(r, w)
    ensures var page := PageAt(table, w, limit); r in page.items || (page.hasMore && After(r, page.next))
  {
    var all, page := Pending(table, w), PageAt(table, w, limit);
    var n := |page.items|;
    PendingFacts(table, w);
    assert page.items == all[..n] && (page.hasMore <==> n < |all|);
    var k :| 0 <= k < |all| && all[k] == r;
    if n <= k && n > 0 {
      AfterRow(r, all[n - 1]);
    }
  }

  lemma {:induction false} JoinAscending(a: seq<Row>, b: seq<Row>)
    requires Ascending(a, RowLess) && Ascending(b, RowLess)
    requires forall x, y :: x in a && y in b ==> RowLess(x, y)
    ensures Ascending(a + b, RowLess)
  {
  }

  lemma {:induction false} FollowInOrder(table: seq<Row>, w: Watermark, limit: nat, rounds: seq<seq<Row>>)
    requires DistinctIds(table)
    ensures InOrder(Follow(table, w, limit, rounds).delivered, w)
    decreases |rounds|
  {
    PageInOrder(table, w, limit);
    if rounds != [] {
      var page := PageAt(table, w, limit);
      PutAllFacts(table, rounds[0]);
      FollowInOrder(PutAll(table, rounds[0]), page.next, limit, rounds[1..]);
      var rest := Follow(PutAll(table, rounds[0]), page.next, limit, rounds[1..]).delivered;
      forall y | y in rest ensures After(y, w) && forall x :: x in page.items ==> RowLess(x, y) {
        AfterPage(table, w, limit, y);
      }
      JoinAscending(page.items, rest);
    }
  }

  lemma {:induction false} FollowDelivers(table: seq<Row>, w: Watermark, limit: nat, rounds: seq<seq<Row>>, r: Row)
    requires DistinctIds(table) && !Follow(table, w, limit, rounds).hasMore
    requires Stays(table, rounds, r) && InTime(table, w, limit, rounds, r)
    ensures r in Follow(table, w, limit, rounds).delivered
    decreases |rounds|
  {
    if r in table && After(r, w) {
      PageCovers(table, w, limit, r);
    }
    if rounds != [] && r !in PageAt(table, w, limit).items {
      PutAllFacts(table, rounds[0]);
      FollowDelivers(PutAll(table, rounds[0]), PageAt(table, w, limit).next, limit, rounds[1..], r);
    }
  }

  lemma {:induction false} DeliveredInTime(table: seq<Row>, w: Watermark, limit: nat, rounds: seq<seq<Row>>, r: Row)
    requires DistinctIds(table) && r in Follow(table, w, limit, rounds).delivered
    ensures InTime(table, w, limit, rounds, r)
    decreases |rounds|
  {
    if r in PageAt(table, w, limit).items {
      PendingFacts(table, w);
      assert r in Pending(table, w);
    } else {
      PutAllFacts(table, rounds[0]);
      DeliveredInTime(PutAll(table, rounds[0]), PageAt(table, w, limit).next, limit, rounds[1..], r);
    }
  }

  /** Rows come and change between the pages of a walk, with any stamps. What is delivered
      comes strictly in (updatedAt, id) order, so no version twice, and when the walk ends
      a version that was not written over has been delivered if and only if it was there,
      or was stamped, after the cursor of its time. */
  lemma {:induction false} DeliveredExactly(table: seq<Row>, w: Watermark, limit: nat, rounds: seq<seq<Row>>, r: Row)
    requires DistinctIds(table) && !Follow(table, w, limit, rounds).hasMore && Stays(table, rounds, r)
    ensures InOrder(Follow(table, w, limit, rounds).delivered, w)
    ensures r in Follow(table, w, limit, rounds).delivered <==> InTime(table, w, limit, rounds, r)
  {
    FollowInOrder(table, w, limit, rounds);
    if InTime(table, w, limit, rounds, r) {
      FollowDelivers(table, w, limit, rounds, r);
    }
    if r in Follow(table, w, limit, rounds).delivered {
      DeliveredInTime(table, w, limit, rounds, r);
    }
  }

  /** Every write of this version gets a stamp after the cursor handed out last. */
  predicate Rising(table: seq<Row>, w: Watermark, limit: nat, rounds: seq<seq<Row>>, r: Row)
    decreases |rounds|
  {
    rounds == [] ||
    var next := PageAt(table, w, limit).next;
    (r in rounds[0] ==> After(r, next)) && Rising(PutAll(table, rounds[0]), next, limit, rounds[1..], r)
  }

  /** A row of the final table was there at the start or was written after the cursor. */
  lemma {:induction false} FollowOrigin(table: seq<Row>, w: Watermark, limit: nat, rounds: seq<seq<Row>>, r: Row)
    requires DistinctIds(table) && Rising(table, w, limit, rounds, r) && r in Follow(table, w, limit, rounds).table
    ensures r in table || After(r, PageAt(table, w, limit).next)
    decreases |rounds|
  {
    if rounds != [] {
      var page, after := PageAt(table, w, limit), PutAll(table, rounds[0]);
      PutAllFacts(table, rounds[0]);
      FollowOrigin(after, page.next, limit, rounds[1..], r);
      if r !in after {
        AfterPage(after, page.next, limit, r);
      }
    }
  }

  /** The last version of a row, whatever other rows and versions are written with what
      stamps: when the walk ends it has been delivered, if it lies after the start and each
      of its own writes was stamped after the cursor. */
  lemma {:induction false} LastVersionDelivered(table: seq<Row>, w: Watermark, limit: nat, rounds: seq<seq<Row>>, r: Row)
    requires DistinctIds(table) && Rising(table, w, limit, rounds, r) && After(r, w)
    requires !Follow(table, w, limit, rounds).hasMore && r in Follow(table, w, limit, rounds).table
    ensures r in Follow(table, w, limit, rounds).delivered
    decreases |rounds|
  {
    if rounds == [] {
      PageCovers(table, w, limit, r);
    } else {
      var page, after := PageAt(table, w, limit), PutAll(table, rounds[0]);
      PutAllFacts(table, rounds[0]);
      if After(r, page.next) {
        LastVersionDelivered(after, page.next, limit, rounds[1..], r);
      } else {
        FollowOrigin(table, w, limit, rounds, r);
        PageCovers(table, w, limit, r);
      }
    }
  }

  /** Whatever a walk delivers from a cursor on comes after that cursor, so a version
      written at or before it is lost to this walk. */
  lemma {:induction false} EarlierWriteIsLost(table: seq<Row>, w: Watermark, limit: nat, rounds: seq<seq<Row>>, r: Row)
    requires DistinctIds(table) && !After(r, w)
    ensures r !in Follow(table, w, limit, rounds).delivered
  {
    FollowInOrder(table, w, limit, rounds);
  }

  // -------------------------------------------------------------- page sizes

  const DEFAULT_PAGE_LIMIT := 100
  const MAX_PAGE_LIMIT := 500

  /** clampLimit; a value that is not finite is passed as None. */
  function ClampLimit(requested: Option<real>): int {
    if requested.None? || requested.value <= 0.0 then DEFAULT_PAGE_LIMIT
    else if requested.value.Floor < MAX_PAGE_LIMIT then requested.value.Floor
    else MAX_PAGE_LIMIT
  }

  /** The clamp reaches [1, 500] for every request except a fraction below one,
      which becomes 0. */
  lemma {:induction false} ClampExactly(requested: Option<real>)
    ensures 1 <= ClampLimit(requested) <= MAX_PAGE_LIMIT
      <==> !(requested.Some? && 0.0 < requested.value < 1.0)
    ensures requested.Some? && 0.0 < requested.value < 1.0 ==> ClampLimit(requested) == 0
    ensures requested.None? || requested.value <= 0.0 ==> ClampLimit(requested) == 100
    ensures requested.Some? && 1.0 <= requested.value <= 500.0 ==>
              requested.value - 1.0 < ClampLimit(requested) as real <= requested.value
    ensures requested.Some? && 500.0 <= requested.value ==> ClampLimit(requested) == 500
  {
  }
}
