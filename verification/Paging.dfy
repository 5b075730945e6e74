/**
 The paginated environment listing: the store's window (internal/store), the lookahead page of the API
 (internal/api/handlers.go) and the client that follows the advertised offsets (cmd/ramify/client.go).
 */
module Paging {
  import opened Wrappers

  datatype Row = Row(id: string, project: string, branch: string, createdAt: int)

  // ---------- ORDER BY created_at, id ----------

  predicate TextBefore(a: string, b: string) {
    if b == [] then false
    else if a == [] then true
    else a[0] < b[0] || (a[0] == b[0] && TextBefore(a[1..], b[1..]))
  }

  predicate Before(a: Row, b: Row) {
    a.createdAt < b.createdAt || (a.createdAt == b.createdAt && TextBefore(a.id, b.id))
  }

  predicate Matches(r: Row, project: string, branch: string) {
    (project == "" || r.project == project) && (branch == "" || r.branch == branch)
  }

  function Insert(r: Row, rows: seq<Row>): seq<Row> {
    if rows == [] || Before(r, rows[0]) then [r] + rows else [rows[0]] + Insert(r, rows[1..])
  }

  /** Every matching row of the table, in order. */
  function Listing(table: seq<Row>, project: string, branch: string): seq<Row> {
    if table == [] then []
    else
      var n := |table| - 1;
      var listed := Listing(table[..n], project, branch);
      if Matches(table[n], project, branch) then Insert(table[n], listed) else listed
  }

  predicate InOrder(rows: seq<Row>) {
    forall i, j :: 0 <= i < j < |rows| ==> Before(rows[i], rows[j])
  }

  predicate DistinctIds(table: seq<Row>) {
    forall i, j :: 0 <= i < j < |table| ==> table[i].id != table[j].id
  }

  lemma {:induction false} TextOrder(a: string, b: string, c: string)
    ensures !TextBefore(a, a)
    ensures a != b ==> TextBefore(a, b) || TextBefore(b, a)
    ensures TextBefore(a, b) && TextBefore(b, c) ==> TextBefore(a, c)
    decreases |a| + |b| + |c|
  {
    if a != [] { TextOrder(a[1..], if b != [] then b[1..] else [], if c != [] then c[1..] else []); }
    if a != [] && b != [] && a[0] == b[0] { assert a == [a[0]] + a[1..] && b == [b[0]] + b[1..]; }
  }

  /** The texts agree up to k, and there a ends or has the smaller character. */
  predicate BelowAt(a: string, b: string, k: nat) {
    k <= |a| && k < |b| && a[..k] == b[..k] && (k == |a| || a[k] < b[k])
  }

  /** Byte order: the first difference decides, and a proper prefix comes first. */
  lemma TextOrderIsLexical(a: string, b: string)
    ensures TextBefore(a, b) <==> exists k: nat :: BelowAt(a, b, k)
  {
    hide TextBefore, BelowAt;
    if TextBefore(a, b) { var k := FirstDifference(a, b); }
    forall k: nat | BelowAt(a, b, k) ensures TextBefore(a, b) { DifferenceDecides(a, b, k); }
  }

  lemma {:induction false} FirstDifference(a: string, b: string) returns (k: nat)
    requires TextBefore(a, b)
    ensures BelowAt(a, b, k)
  {
    k := 0;
    if a != [] && a[0] == b[0] {
      k := FirstDifference(a[1..], b[1..]);
      assert a[..k + 1] == [a[0]] + a[1..][..k] && b[..k + 1] == [b[0]] + b[1..][..k];
      k := k + 1;
    }
  }

  lemma {:induction false} DifferenceDecides(a: string, b: string, k: nat)
    requires BelowAt(a, b, k)
    ensures TextBefore(a, b)
    decreases k
  {
    if k > 0 {
      assert a[0] == a[..k][0] && b[0] == b[..k][0];
      assert a[1..][..k - 1] == a[..k][1..] && b[1..][..k - 1] == b[..k][1..];
      DifferenceDecides(a[1..], b[1..], k - 1);
    }
  }

  lemma Transitive(a: Row, b: Row, c: Row)
    ensures !Before(a, a)
    ensures Before(a, b) && Before(b, c) ==> Before(a, c)
  {
    TextOrder(a.id, b.id, c.id);
  }

  lemma {:induction false} InsertEffect(r: Row, rows: seq<Row>)
    requires InOrder(rows) && forall x :: x in rows ==> x.id != r.id
    ensures InOrder(Insert(r, rows))
    ensures forall x :: x in Insert(r, rows) <==> x == r || x in rows
  {
    if rows != [] {
      if Before(r, rows[0]) {
        forall i | 0 <= i < |rows| ensures Before(r, rows[i]) { Transitive(r, rows[0], rows[i]); }
      } else {
        assert rows == [rows[0]] + rows[1..];
        InsertEffect(r, rows[1..]);
        TextOrder(r.id, rows[0].id, "");
        assert forall x :: x in Insert(r, rows[1..]) ==> Before(rows[0], x);
      }
    }
  }

  /** Main result: the listing holds exactly the matching rows, in strict (created_at, id) order, so each exactly once. */
  lemma {:induction false} ListingIsOrdered(table: seq<Row>, project: string, branch: string)
    requires DistinctIds(table)
    ensures var listed := Listing(table, project, branch);
            && InOrder(listed)
            && forall x :: x in listed <==> x in table && Matches(x, project, branch)
  {
    hide Matches, InOrder, Insert;
    if table == [] {
      assert InOrder([]) by { NothingInOrder(); }
    } else {
      var n := |table| - 1;
      ListingIsOrdered(table[..n], project, branch);
      assert table == table[..n] + [table[n]];
      InsertEffect(table[n], Listing(table[..n], project, branch));
    }
  }

  /** The same, spelled out: which rows are listed, and by what they are ordered. */
  lemma ListingSpelledOut(table: seq<Row>, project: string, branch: string)
    requires DistinctIds(table)
    ensures var listed := Listing(table, project, branch);
            && (forall x :: x in listed <==>
                  x in table && (project == "" || x.project == project) && (branch == "" || x.branch == branch))
            && (forall i, j :: 0 <= i < j < |listed| ==>
                  listed[i].createdAt < listed[j].createdAt
                  || (listed[i].createdAt == listed[j].createdAt && TextBefore(listed[i].id, listed[j].id)))
  {
    hide Listing;
    ListingIsOrdered(table, project, branch);
  }

  lemma NothingInOrder()
    ensures InOrder([])
  {
  }

  lemma TailMembers(rows: seq<Row>)
    requires InOrder(rows) && rows != []
    ensures forall x :: x in rows[1..] <==> x in rows && x != rows[0]
  {
    assert rows == [rows[0]] + rows[1..];
    Transitive(rows[0], rows[0], rows[0]);
  }

  lemma {:induction false} OrderDecides(a: seq<Row>, b: seq<Row>)
    requires InOrder(a) && InOrder(b)
    requires forall x :: x in a <==> x in b
    ensures a == b
  {
    assert a != [] ==> a[0] in b;
    assert b != [] ==> b[0] in a;
    if a != [] && b != [] {
      if a[0] != b[0] {
        Transitive(a[0], b[0], a[0]);
        assert false;
      }
      TailMembers(a);
      TailMembers(b);
      OrderDecides(a[1..], b[1..]);
      assert a == [a[0]] + a[1..] && b == [b[0]] + b[1..];
    }
  }

  /** The listing does not depend on how the table happens to be stored. */
  lemma ListingIsDetermined(t: seq<Row>, u: seq<Row>, project: string, branch: string)
    requires DistinctIds(t) && DistinctIds(u)
    requires forall x :: x in t <==> x in u
    ensures Listing(t, project, branch) == Listing(u, project, branch)
  {
    hide InOrder, Listing, Matches, DistinctIds;
    ListingIsOrdered(t, project, branch);
    ListingIsOrdered(u, project, branch);
    OrderDecides(Listing(t, project, branch), Listing(u, project, branch));
  }

  // ---------- the store's window ----------

  const DefaultListLimit := 100
  const MaxListLimit := 500
  const MaxQueryLimit := MaxListLimit + 1

  datatype ListOptions = ListOptions(project: string, branch: string, limit: int, offset: int)

  function Normalized(o: ListOptions): ListOptions {
    var limit := if o.limit <= 0 then DefaultListLimit
                 else if o.limit > MaxQueryLimit then MaxQueryLimit
                 else o.limit;
    o.(limit := limit, offset := if o.offset < 0 then 0 else o.offset)
  }

  function Min(a: int, b: int): int {
    if a < b then a else b
  }

  /** LIMIT and OFFSET: at most limit rows from offset on. */
  function Window(rows: seq<Row>, offset: nat, limit: nat): seq<Row> {
    rows[Min(offset, |rows|)..Min(offset + limit, |rows|)]
  }

  function ListEnvironments(table: seq<Row>, opts: ListOptions): seq<Row> {
    var o := Normalized(opts);
    Window(Listing(table, o.project, o.branch), o.offset, o.limit)
  }

  /** What the store returns, in numbers, for any limit and offset: at most 501 rows, 100 if the limit is not positive. */
  lemma StoreWindow(table: seq<Row>, opts: ListOptions)
    ensures var rows := Listing(table, opts.project, opts.branch);
            var size := if opts.limit <= 0 then 100 else if opts.limit <= 501 then opts.limit else 501;
            var from := if opts.offset <= 0 then 0 else Min(opts.offset, |rows|);
            ListEnvironments(table, opts) == rows[from..Min(from + size, |rows|)]
  {
    hide Listing;
  }

  // ---------- the handler ----------

  /** A query parameter: missing or empty, not a number, or a number. */
  datatype Param = Missing | Garbage | Number(value: int)

  datatype Problem = BadRequest | Unreachable | TooManyPages

  /** One response: the rows, and the offset of the next page if there is one. */
  datatype Page = Page(rows: seq<Row>, next: Option<nat>)

  function IntParam(p: Param): Option<nat> {
    match p
    case Missing => Some(0)
    case Garbage => None
    case Number(v) => if v < 0 then None else Some(v)
  }

  /** The page size a client gets for a limit. */
  function PageSize(limit: nat): nat {
    if limit == 0 then DefaultListLimit else Min(limit, MaxListLimit)
  }

  /** What the response should be: the window of that size, and its end if rows are left beyond it. */
  function PageOf(listing: seq<Row>, limit: nat, offset: nat): Page {
    Page(Window(listing, offset, PageSize(limit)),
         if offset + PageSize(limit) < |listing| then Some(offset + PageSize(limit)) else None)
  }

  lemma Lookahead(rows: seq<Row>, offset: nat, size: nat)
    ensures var seen := Window(rows, offset, size + 1);
            && (|seen| == size + 1 <==> offset + size < |rows|)
            && (if |seen| == size + 1 then seen[..size] else seen) == Window(rows, offset, size)
            && (|seen| == size + 1 ==> |seen[..size]| == size)
  {
  }

  /**
   What a response must be, in numbers: refused for a parameter that is no number or negative; else as many rows from
   the offset on as asked for, a hundred if not asked, five hundred at most, and where they end if rows are left.
   */
  predicate Shows(listing: seq<Row>, limit: Param, offset: Param, response: Result<Page, Problem>) {
    if limit == Garbage || offset == Garbage || (limit.Number? && limit.value < 0) || (offset.Number? && offset.value < 0)
    then response == Err(BadRequest)
    else
      var from := if offset.Number? then Min(offset.value, |listing|) else 0;
      var size := if limit.Missing? || limit.value == 0 then 100 else if limit.value <= 500 then limit.value else 500;
      var to := Min(from + size, |listing|);
      response == Ok(Page(listing[from..to], if to < |listing| then Some(to) else None))
  }

  lemma ShowsPage(listing: seq<Row>, limit: Param, offset: Param)
    ensures Shows(listing, limit, offset,
                  if IntParam(limit).None? || IntParam(offset).None? then Err(BadRequest)
                  else Ok(PageOf(listing, IntParam(limit).value, IntParam(offset).value)))
  {
  }

  /** Main result: asking the store for one row too many shows exactly the page, and exactly whether another follows. */
  method HandleListEnvironments(table: seq<Row>, project: string, branch: string, limit: Param, offset: Param)
    returns (response: Result<Page, Problem>)
    ensures response ==
            if IntParam(limit).None? || IntParam(offset).None? then Err(BadRequest)
            else Ok(PageOf(Listing(table, project, branch), IntParam(limit).value, IntParam(offset).value))
    ensures Shows(Listing(table, project, branch), limit, offset, response)
  {
    hide Listing, Shows;
    ShowsPage(Listing(table, project, branch), limit, offset);
    var l, o := IntParam(limit), IntParam(offset);
    if l.None? { return Err(BadRequest); }
    if o.None? { return Err(BadRequest); }
    var page := ListOptions(project, branch, Min(if l.value > 1 then l.value else 1, MaxListLimit) + 1, o.value);
    if l.value == 0 { page := page.(limit := DefaultListLimit + 1); }
    var envs := ListEnvironments(table, page);
    Lookahead(Listing(table, project, branch), o.value, PageSize(l.value));
    var next: Option<nat> := None;
    if |envs| == page.limit {
      envs := envs[..page.limit - 1];
      next := Some(page.offset + |envs|);
    }
    return Ok(Page(envs, next));
  }

  // ---------- following the offsets ----------

  /** The rows collected from offset on by following the advertised offsets, with any limit on every page. */
  function Follow(listing: seq<Row>, limits: nat -> nat, page: nat, offset: nat): seq<Row>
    decreases |listing| - offset
  {
    var p := PageOf(listing, limits(page), offset);
    if p.next.None? then p.rows else p.rows + Follow(listing, limits, page + 1, p.next.value)
  }

  /** Main result: whatever limits the caller asks for, following the offsets yields the whole listing, once, in order. */
  lemma {:induction false} FollowingYieldsTheListing(listing: seq<Row>, limits: nat -> nat, page: nat, offset: nat)
    ensures Follow(listing, limits, page, offset) == listing[Min(offset, |listing|)..]
    ensures offset == 0 ==> Follow(listing, limits, page, offset) == listing
    decreases |listing| - offset
  {
    var p := PageOf(listing, limits(page), offset);
    if p.next.Some? {
      FollowingYieldsTheListing(listing, limits, page + 1, p.next.value);
    }
  }

  // ---------- the client ----------

  const MaxListPages := 1000

  /** tables(i) is the table when page i is served, answered(i) whether the request comes back. */
  function Walk(tables: nat -> seq<Row>, answered: nat -> bool, project: string, branch: string, page: nat, offset: nat,
                all: seq<Row>): Result<seq<Row>, Problem>
    decreases MaxListPages - page
  {
    if page >= MaxListPages then Err(TooManyPages)
    else if !answered(page) then Err(Unreachable)
    else
      var p := PageOf(Listing(tables(page), project, branch), 0, offset);
      if p.next.None? then Ok(all + p.rows)
      else Walk(tables, answered, project, branch, page + 1, p.next.value, all + p.rows)
  }

  method ListAll(tables: nat -> seq<Row>, answered: nat -> bool, project: string, branch: string)
    returns (result: Result<seq<Row>, Problem>)
    ensures result == Walk(tables, answered, project, branch, 0, 0, [])
  {
    hide Listing, PageOf, Shows;
    var all: seq<Row> := [];
    var offset: nat := 0;
    for page := 0 to MaxListPages
      invariant Walk(tables, answered, project, branch, 0, 0, []) ==
                Walk(tables, answered, project, branch, page, offset, all)
    {
      if !answered(page) { return Err(Unreachable); }
      var response := HandleListEnvironments(tables(page), project, branch, Missing,
                                             if offset > 0 then Number(offset) else Missing);
      all := all + response.value.rows;
      if response.value.next.None? { return Ok(all); }
      offset := response.value.next.value;
    }
    return Err(TooManyPages);
  }

  /** Main result: on a fixed table the client returns the whole listing if that takes at most 1000 pages, else an error. */
  lemma ClientReturnsTheListing(table: seq<Row>, project: string, branch: string)
    ensures var listing := Listing(table, project, branch);
            Walk(_ => table, _ => true, project, branch, 0, 0, []) ==
            if |listing| <= 100_000 then Ok(listing) else Err(TooManyPages)
  {
    WalkFrom(table, project, branch, 0, []);
  }

  lemma {:induction false} WalkFrom(table: seq<Row>, project: string, branch: string, page: nat, all: seq<Row>)
    requires page <= MaxListPages
    requires var listing := Listing(table, project, branch);
             all == Window(listing, 0, page * DefaultListLimit) && (page == 0 || |listing| > page * DefaultListLimit)
    ensures var listing := Listing(table, project, branch);
            Walk(_ => table, _ => true, project, branch, page, page * DefaultListLimit, all) ==
            if |listing| <= MaxListPages * DefaultListLimit then Ok(listing) else Err(TooManyPages)
    decreases MaxListPages - page
  {
    hide Listing;
    var listing := Listing(table, project, branch);
    var p := PageOf(listing, 0, page * DefaultListLimit);
    if page < MaxListPages {
      if p.next.None? {
        assert all + p.rows == listing;
      } else {
        WalkFrom(table, project, branch, page + 1, all + p.rows);
      }
    }
  }

  // ---------- a table that grows meanwhile ----------

  /** A row created after every row of the table goes to the end of the listing. */
  lemma ListingGrows(table: seq<Row>, r: Row, project: string, branch: string)
    requires DistinctIds(table + [r])
    requires forall x :: x in table ==> Before(x, r)
    ensures Listing(table + [r], project, branch) ==
            Listing(table, project, branch) + if Matches(r, project, branch) then [r] else []
  {
    hide Matches, Listing, Before;
    var listed := Listing(table, project, branch);
    forall i, j | 0 <= i < j < |table| ensures table[i].id != table[j].id {
      assert (table + [r])[i].id != (table + [r])[j].id;
    }
    ListingIsOrdered(table, project, branch);
    ListingIsOrdered(table + [r], project, branch);
    var grown := listed + if Matches(r, project, branch) then [r] else [];
    assert InOrder(grown);
    OrderDecides(Listing(table + [r], project, branch), grown);
  }

  ghost predicate Growing(tables: nat -> seq<Row>, project: string, branch: string) {
    forall i: nat :: Listing(tables(i), project, branch) <= Listing(tables(i + 1), project, branch)
  }

  /**
   Main result: while environments are only added, a walk that ends has returned the whole listing of the moment its
   last page was served: no row was skipped and none came twice.
   */
  lemma WalkOverGrowth(tables: nat -> seq<Row>, answered: nat -> bool, project: string, branch: string)
    requires Growing(tables, project, branch)
    ensures var result := Walk(tables, answered, project, branch, 0, 0, []);
            result.Ok? ==> exists last: nat :: last < MaxListPages
                                               && result.value == Listing(tables(last), project, branch)
  {
    GrowthFrom(tables, answered, project, branch, 0, []);
  }

  lemma {:induction false} GrowthFrom(tables: nat -> seq<Row>, answered: nat -> bool, project: string, branch: string,
                                      page: nat, all: seq<Row>)
    requires Growing(tables, project, branch)
    requires all <= Listing(tables(page), project, branch)
    ensures var result := Walk(tables, answered, project, branch, page, |all|, all);
            result.Ok? ==> exists last: nat :: last < MaxListPages
                                               && result.value == Listing(tables(last), project, branch)
    decreases MaxListPages - page
  {
    hide Listing;
    if page < MaxListPages && answered(page) {
      var listing := Listing(tables(page), project, branch);
      var p := PageOf(listing, 0, |all|);
      if p.next.None? {
        assert all + p.rows == listing;
      } else {
        assert all + p.rows == listing[..p.next.value];
        assert listing <= Listing(tables(page + 1), project, branch);
        GrowthFrom(tables, answered, project, branch, page + 1, all + p.rows);
      }
    }
  }
}
