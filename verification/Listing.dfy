/**
  The keyset listing of one owner's operations (crates/operations/src/list.rs), and whole walks over it
  while other transactions insert operations and move statuses between the pages.
*/
module Listing {
  import opened Common
  import opened Transition
  import Authority

  /** The columns of an operation that never change. */
  datatype Row = Row(acceptedAt: Instant, id: Uuid, owner: Uuid, kind: Authority.Kind)

  /** The operations stored at one moment, each with its status. */
  type Table = map<Row, Status>

  datatype Scope = Scope(owner: Uuid, status: Option<Status>, kind: Option<Authority.Kind>,
                         before: Option<(Instant, Uuid)>, limit: int)

  datatype Page = Page(rows: seq<Row>, hasMore: bool)

  /** `(accepted_at, operation_id)` compared as SQL compares row values. */
  predicate KeyLess(a: (Instant, Uuid), b: (Instant, Uuid)) {
    a.0 < b.0 || (a.0 == b.0 && a.1 < b.1)
  }

  function Key(row: Row): (Instant, Uuid) {
    (row.acceptedAt, row.id)
  }

  predicate Selects(scope: Scope, row: Row, status: Status) {
    && row.owner == scope.owner
    && (scope.status.Some? ==> status == scope.status.value)
    && (scope.kind.Some? ==> row.kind == scope.kind.value)
    && (scope.before.Some? ==> KeyLess(Key(row), scope.before.value))
  }

  function Matching(table: Table, scope: Scope): set<Row> {
    set row | row in table && Selects(scope, row, table[row])
  }

  /** Primary key: no two operations share an identifier. */
  ghost predicate UniqueIds(rows: set<Row>) {
    forall a, b | a in rows && b in rows && a.id == b.id :: a == b
  }

  ghost predicate Descending(rows: seq<Row>) {
    forall i, j | 0 <= i < j < |rows| :: KeyLess(Key(rows[j]), Key(rows[i]))
  }

  /** The rows of a set, newest accepted first. */
  ghost predicate IsOrdered(rows: seq<Row>, of: set<Row>) {
    Descending(rows) && forall row :: row in rows <==> row in of
  }

  lemma {:induction false} Greatest(rows: set<Row>) returns (top: Row)
    requires rows != {} && UniqueIds(rows)
    ensures top in rows && forall row | row in rows && row != top :: KeyLess(Key(row), Key(top))
  {
    top :| top in rows;
    if rows != {top} {
      var rest := rows - {top};
      var other := Greatest(rest);
      if KeyLess(Key(top), Key(other)) {
        top := other;
      } else {
        assert KeyLess(Key(other), Key(top));
      }
    }
  }

  /** The answer of the statement exists. */
  lemma {:induction false} Ordered(rows: set<Row>) returns (ordered: seq<Row>)
    requires UniqueIds(rows)
    ensures IsOrdered(ordered, rows)
    decreases |rows|
  {
    if rows == {} {
      ordered := [];
    } else {
      var top := Greatest(rows);
      var rest := Ordered(rows - {top});
      ordered := [top] + rest;
    }
  }

  lemma EmptyOrdered(a: seq<Row>, rows: set<Row>)
    requires IsOrdered(a, rows)
    ensures a == [] <==> rows == {}
  {
    if a != [] {
      assert a[0] in a;
    }
    if rows != {} {
      var row :| row in rows;
      assert row in a;
    }
  }

  lemma TailOrdered(a: seq<Row>, rows: set<Row>)
    requires IsOrdered(a, rows) && a != []
    ensures IsOrdered(a[1..], rows - {a[0]})
    ensures a[0] in rows && forall row | row in rows && row != a[0] :: KeyLess(Key(row), Key(a[0]))
  {
    assert a == [a[0]] + a[1..];
  }

  /** And it is unique. */
  lemma {:induction false} OrderedIsUnique(a: seq<Row>, b: seq<Row>, rows: set<Row>)
    requires IsOrdered(a, rows) && IsOrdered(b, rows)
    ensures a == b
  {
    EmptyOrdered(a, rows);
    EmptyOrdered(b, rows);
    if a != [] {
      TailOrdered(a, rows);
      TailOrdered(b, rows);
      assert a[0] == b[0];
      OrderedIsUnique(a[1..], b[1..], rows - {a[0]});
    }
  }

  /** What the statement with `limit $6` fetches. */
  ghost predicate Fetches(table: Table, scope: Scope, fetched: seq<Row>) {
    exists all :: IsOrdered(all, Matching(table, scope))
      && fetched == all[..Min(|all|, Max(scope.limit, 0) + 1)]
  }

  /**
    One page: its rows are the newest matching ones, at most `limit`, and `has_more` says exactly
    whether a matching row lies beyond them.
  */
  ghost predicate IsPage(table: Table, scope: Scope, page: Page) {
    && Descending(page.rows)
    && |page.rows| <= Max(scope.limit, 0)
    && (forall row | row in page.rows :: row in Matching(table, scope))
    && (page.hasMore <==> exists row :: row in Matching(table, scope) && row !in page.rows)
    && (page.hasMore ==> |page.rows| == Max(scope.limit, 0))
    && forall row, shown | row in Matching(table, scope) && row !in page.rows && shown in page.rows ::
         KeyLess(Key(row), Key(shown))
  }

  /** Read one page from what the statement fetched: one row more than the limit decides `has_more`. */
  method ListOperations(ghost table: Table, scope: Scope, fetched: seq<Row>) returns (page: Page)
    requires Fetches(table, scope, fetched)
    ensures IsPage(table, scope, page)
  {
    var limit := Max(scope.limit, 0);
    var hasMore := |fetched| > limit;
    var kept := if hasMore then fetched[..limit] else fetched;
    var rows: seq<Row> := [];
    for i := 0 to |kept|
      invariant rows == kept[..i]
    {
      rows := rows + [kept[i]];
    }
    page := Page(rows, hasMore);

    ghost var all :| IsOrdered(all, Matching(table, scope)) && fetched == all[..Min(|all|, limit + 1)];
    assert rows == all[..Min(|all|, limit)];
    PageOfOrdered(table, scope, all);
  }

  lemma PageOfOrdered(table: Table, scope: Scope, all: seq<Row>)
    requires IsOrdered(all, Matching(table, scope))
    ensures var limit := Max(scope.limit, 0);
            IsPage(table, scope, Page(all[..Min(|all|, limit)], |all| > limit))
  {
    var limit := Max(scope.limit, 0);
    var shown := all[..Min(|all|, limit)];
    assert forall i | 0 <= i < |shown| :: shown[i] == all[i] && shown[i] in shown;
    if |all| > limit {
      assert all[limit] in all;
      assert forall i | 0 <= i < limit :: KeyLess(Key(all[limit]), Key(all[i]));
    }
  }

  // ---------------------------------------------------------------------------------------------
  // Walks
  // ---------------------------------------------------------------------------------------------

  /** A walk: page `i` is read from `tables[i]`, each from the anchor the page before it ended at. */
  ghost predicate IsWalk(tables: seq<Table>, scope: Scope, pages: seq<Page>)
    decreases |pages|
  {
    && 1 <= |pages| == |tables|
    && IsPage(tables[0], scope, pages[0])
    && (|pages| > 1 ==>
          && pages[0].hasMore && pages[0].rows != []
          && IsWalk(tables[1..], Next(scope, pages[0]), pages[1..]))
  }

  function Next(scope: Scope, page: Page): Scope
    requires page.rows != []
  {
    scope.(before := Some(Key(page.rows[|page.rows| - 1])))
  }

  function Yielded(pages: seq<Page>): seq<Row>
    decreases |pages|
  {
    if pages == [] then [] else pages[0].rows + Yielded(pages[1..])
  }

  /** The rows a scope selects are all below its anchor. */
  lemma {:induction false} WalkDescends(tables: seq<Table>, scope: Scope, pages: seq<Page>)
    requires IsWalk(tables, scope, pages)
    ensures Descending(Yielded(pages))
    ensures scope.before.Some? ==> forall row | row in Yielded(pages) :: KeyLess(Key(row), scope.before.value)
    decreases |pages|
  {
    if |pages| > 1 {
      WalkDescends(tables[1..], Next(scope, pages[0]), pages[1..]);
      var first, rest := pages[0].rows, Yielded(pages[1..]);
      var last := first[|first| - 1];
      forall row | row in rest ensures KeyLess(Key(row), Key(last)) {
      }
      assert last in first;
      forall i, j | 0 <= i < j < |first + rest| && j >= |first|
        ensures KeyLess(Key((first + rest)[j]), Key((first + rest)[i]))
      {
        assert (first + rest)[j] == rest[j - |first|] && rest[j - |first|] in rest;
        if i >= |first| {
          assert (first + rest)[i] == rest[i - |first|];
        }
      }
    } else {
      assert Yielded(pages) == pages[0].rows;
    }
  }

  /** Whether one row was accepted after the other; the identifier breaks ties. */
  predicate Newer(a: Row, b: Row) {
    a.acceptedAt > b.acceptedAt || (a.acceptedAt == b.acceptedAt && a.id > b.id)
  }

  /** The page a row was shown on, and the table it was read from. */
  ghost predicate ShownAt(tables: seq<Table>, pages: seq<Page>, i: nat, row: Row) {
    i < |pages| == |tables| && row in pages[i].rows && row in tables[i]
  }

  lemma {:induction false} WalkShows(tables: seq<Table>, scope: Scope, pages: seq<Page>, row: Row) returns (i: nat)
    requires IsWalk(tables, scope, pages) && row in Yielded(pages)
    ensures ShownAt(tables, pages, i, row) && Selects(scope.(before := None), row, tables[i][row])
    decreases |pages|
  {
    if row in pages[0].rows {
      i := 0;
      assert row in Matching(tables[0], scope);
    } else {
      var later := WalkShows(tables[1..], Next(scope, pages[0]), pages[1..], row);
      i := later + 1;
    }
  }

  /**
    Whatever a walk yields is the owner's, of the kind and below the anchor asked for, and had the status
    asked for on the page that showed it; the whole walk is ordered by acceptance, newest first.
  */
  lemma WalkYieldsOnlyItsScope(tables: seq<Table>, scope: Scope, pages: seq<Page>)
    requires IsWalk(tables, scope, pages)
    ensures forall row | row in Yielded(pages) ::
      && row.owner == scope.owner && (scope.kind.Some? ==> row.kind == scope.kind.value)
      && (scope.before.Some? ==>
            row.acceptedAt < scope.before.value.0
            || (row.acceptedAt == scope.before.value.0 && row.id < scope.before.value.1))
      && exists i: nat ::
           ShownAt(tables, pages, i, row) && (scope.status.Some? ==> tables[i][row] == scope.status.value)
    ensures forall i, j | 0 <= i < j < |Yielded(pages)| :: Newer(Yielded(pages)[i], Yielded(pages)[j])
  {
    WalkDescends(tables, scope, pages);
    forall row | row in Yielded(pages)
      ensures row.owner == scope.owner && (scope.kind.Some? ==> row.kind == scope.kind.value)
      ensures exists i: nat ::
        ShownAt(tables, pages, i, row) && (scope.status.Some? ==> tables[i][row] == scope.status.value)
    {
      var i := WalkShows(tables, scope, pages, row);
    }
  }

  lemma {:induction false} WalkFindsRow(tables: seq<Table>, scope: Scope, pages: seq<Page>, row: Row)
    requires IsWalk(tables, scope, pages) && scope.limit >= 1 && !pages[|pages| - 1].hasMore
    requires scope.before.Some? ==> KeyLess(Key(row), scope.before.value)
    requires forall i | 0 <= i < |tables| ::
      row in tables[i] && Selects(scope.(before := None), row, tables[i][row])
    ensures row in Yielded(pages)
    decreases |pages|
  {
    assert row in Matching(tables[0], scope);
    if row !in pages[0].rows {
      assert pages[0].hasMore;
      var last := pages[0].rows[|pages[0].rows| - 1];
      assert last in pages[0].rows;
      assert KeyLess(Key(row), Key(last));
      WalkFindsRow(tables[1..], Next(scope, pages[0]), pages[1..], row);
    }
  }

  /**
    A walk followed to its end, while operations are inserted and statuses move between its pages,
    yields no row twice, and yields exactly once every row that its filters select on every page. When
    the filters name immutable columns only, those are all the rows present at the first page.
  */
  lemma WalkIsExact(tables: seq<Table>, scope: Scope, pages: seq<Page>)
    requires IsWalk(tables, scope, pages) && scope.limit >= 1 && !pages[|pages| - 1].hasMore
    requires forall i, j | 0 <= i < j < |tables| :: tables[i].Keys <= tables[j].Keys
    ensures forall i, j | 0 <= i < j < |Yielded(pages)| :: Yielded(pages)[i] != Yielded(pages)[j]
    ensures forall row | row in Matching(tables[0], scope)
        && (forall i | 0 <= i < |tables| :: scope.status.Some? ==> tables[i][row] == scope.status.value) ::
      row in Yielded(pages)
    ensures scope.status.None? ==> forall row | row in Matching(tables[0], scope) :: row in Yielded(pages)
  {
    WalkDescends(tables, scope, pages);
    forall row | row in Matching(tables[0], scope)
        && (forall i | 0 <= i < |tables| :: scope.status.Some? ==> tables[i][row] == scope.status.value)
      ensures row in Yielded(pages)
    {
      WalkFindsRow(tables, scope, pages, row);
    }
  }

  // ---------------------------------------------------------------------------------------------
  // Which filters a walk can be trusted with
  // ---------------------------------------------------------------------------------------------

  /** What other transactions do to the table: rows are added, and a status stays or is advanced. */
  ghost predicate Moves(before: Table, after: Table) {
    && before.Keys <= after.Keys
    && forall row | row in before :: after[row] == before[row] || Apply(before[row], after[row]) == Advance(after[row])
  }

  /** Below the terminal rank a status that keeps its rank is unchanged. */
  lemma {:induction false} SameRankStays(before: Status, incoming: seq<Status>)
    requires !IsTerminal(before) && Rank(SettleAll(before, incoming)) == Rank(before)
    ensures SettleAll(before, incoming) == before
    decreases |incoming|
  {
    if incoming != [] {
      RunEndsHighest(Settle(before, incoming[0]), incoming[1..]);
      SameRankStays(before, incoming[1..]);
    }
  }

  /** One status can become another exactly when some run of reports settles it there. */
  lemma MovesAreSettlements(before: Status, after: Status)
    ensures before == after || Apply(before, after) == Advance(after)
       <==> exists incoming :: SettleAll(before, incoming) == after
  {
    if before == after {
      assert SettleAll(before, []) == after;
    } else if Apply(before, after) == Advance(after) {
      assert [after][1..] == [];
      assert SettleAll(before, [after]) == SettleAll(after, []);
    }
    if incoming :| SettleAll(before, incoming) == after {
      RunEndsHighest(before, incoming);
      assert Rank(before) <= Rank(after);
      if IsTerminal(before) {
        TerminalIsFinal(before, incoming);
      } else if Rank(before) == Rank(after) {
        SameRankStays(before, incoming);
      }
    }
  }

  ghost predicate Evolves(tables: seq<Table>) {
    && (forall i | 0 <= i < |tables| :: UniqueIds(tables[i].Keys))
    && forall i | 0 <= i < |tables| - 1 :: Moves(tables[i], tables[i + 1])
  }

  /** A finished walk over an evolving table that never yields a row its first page selects. */
  ghost predicate Misses(tables: seq<Table>, scope: Scope, pages: seq<Page>, row: Row) {
    && IsWalk(tables, scope, pages) && !pages[|pages| - 1].hasMore && Evolves(tables)
    && row in Matching(tables[0], scope) && row !in Yielded(pages)
  }

  ghost predicate Complete(scope: Scope) {
    forall tables, pages, row :: !Misses(tables, scope, pages, row)
  }

  lemma {:induction false} RowsStay(tables: seq<Table>, i: nat, row: Row)
    requires Evolves(tables) && i < |tables| && row in tables[0]
    ensures row in tables[i] && (IsTerminal(tables[0][row]) ==> tables[i][row] == tables[0][row])
  {
    if i > 0 {
      RowsStay(tables, i - 1, row);
      assert Moves(tables[i - 1], tables[i]);
    }
  }

  lemma SettledFilterMissesNothing(tables: seq<Table>, scope: Scope, pages: seq<Page>, row: Row)
    requires scope.limit >= 1 && (scope.status.None? || IsTerminal(scope.status.value))
    ensures !Misses(tables, scope, pages, row)
  {
    if Misses(tables, scope, pages, row) {
      forall i | 0 <= i < |tables| ensures row in tables[i] && Selects(scope.(before := None), row, tables[i][row]) {
        RowsStay(tables, i, row);
      }
      WalkFindsRow(tables, scope, pages, row);
    }
  }

  /** Rows below the anchor that the scope selects while their status is the one it asks for, newest first. */
  function Below(scope: Scope, n: nat): (rows: seq<Row>)
    ensures |rows| == n
    ensures forall i | 0 <= i < n :: rows[i] == RowBelow(scope, i)
  {
    seq(n, i requires 0 <= i < n => RowBelow(scope, i))
  }

  function RowBelow(scope: Scope, i: nat): Row {
    var anchor := if scope.before.Some? then scope.before.value.0 else 0;
    Row(anchor - 1 - i, i, scope.owner, if scope.kind.Some? then scope.kind.value else Authority.SitesReleaseBuild)
  }

  function AllAt(rows: seq<Row>, status: Status): Table {
    map row | row in rows :: status
  }

  lemma BelowIsOrdered(scope: Scope, n: nat)
    requires scope.status.Some?
    ensures IsOrdered(Below(scope, n), Matching(AllAt(Below(scope, n), scope.status.value), scope))
    ensures UniqueIds(AllAt(Below(scope, n), scope.status.value).Keys)
  {
  }

  /** The oldest of the rows leaves the filter after the first page: the second page is empty and the last. */
  lemma LastRowIsMissed(scope: Scope, rows: seq<Row>, page: Page)
    requires scope.limit >= 1 && scope.status.Some? && !IsTerminal(scope.status.value)
    requires rows == Below(scope, scope.limit + 1) && page == Page(rows[..scope.limit], true)
    ensures var table := AllAt(rows, scope.status.value)[rows[scope.limit] := Succeeded];
      IsPage(table, Next(scope, page), Page([], false)) && rows[scope.limit] !in page.rows
  {
    var table := AllAt(rows, scope.status.value)[rows[scope.limit] := Succeeded];
    var next := Next(scope, page);
    assert page.rows[scope.limit - 1] == RowBelow(scope, scope.limit - 1);
    forall row | row in table ensures !Selects(next, row, table[row]) {
      var i :| 0 <= i < |rows| && rows[i] == row;
    }
    assert Matching(table, next) == {};
  }

  lemma TwoPageWalk(first: Table, second: Table, scope: Scope, page: Page, last: Page)
    requires IsPage(first, scope, page) && page.hasMore && page.rows != []
    requires IsPage(second, Next(scope, page), last)
    ensures IsWalk([first, second], scope, [page, last])
    ensures Yielded([page, last]) == page.rows + last.rows
  {
    assert [first, second][1..] == [second] && [page, last][1..] == [last];
    assert IsWalk([second], Next(scope, page), [last]);
    assert [last][1..] == [];
    assert Yielded([last]) == last.rows;
  }

  lemma OneRowAdvances(first: Table, row: Row, status: Status)
    requires UniqueIds(first.Keys) && row in first && Apply(first[row], status) == Advance(status)
    ensures Evolves([first, first[row := status]])
  {
    assert first[row := status].Keys == first.Keys;
  }

  lemma TwoPagesMiss(first: Table, scope: Scope, page: Page, missed: Row)
    requires UniqueIds(first.Keys) && missed in Matching(first, scope) && missed !in page.rows
    requires !IsTerminal(first[missed]) && IsPage(first, scope, page) && page.hasMore && page.rows != []
    requires IsPage(first[missed := Succeeded], Next(scope, page), Page([], false))
    ensures Misses([first, first[missed := Succeeded]], scope, [page, Page([], false)], missed)
  {
    TwoPageWalk(first, first[missed := Succeeded], scope, page, Page([], false));
    OneRowAdvances(first, missed, Succeeded);
  }

  /** The first page over those rows: all but the oldest. */
  lemma FirstPageBelow(scope: Scope, rows: seq<Row>)
    requires scope.limit >= 1 && scope.status.Some? && rows == Below(scope, scope.limit + 1)
    ensures var first := AllAt(rows, scope.status.value);
      && IsPage(first, scope, Page(rows[..scope.limit], true)) && UniqueIds(first.Keys)
      && rows[scope.limit] in Matching(first, scope) && first[rows[scope.limit]] == scope.status.value
  {
    var first := AllAt(rows, scope.status.value);
    BelowIsOrdered(scope, scope.limit + 1);
    PageOfOrdered(first, scope, rows);
    assert rows[scope.limit] in rows;
  }

  /** A filter on a status that can still change: for every limit some walk misses a row. */
  lemma StatusFilterCanMissARow(scope: Scope)
    requires scope.limit >= 1 && scope.status.Some? && !IsTerminal(scope.status.value)
    ensures !Complete(scope)
  {
    var rows := Below(scope, scope.limit + 1);
    var page := Page(rows[..scope.limit], true);
    FirstPageBelow(scope, rows);
    LastRowIsMissed(scope, rows, page);
    TwoPagesMiss(AllAt(rows, scope.status.value), scope, page, rows[scope.limit]);
  }

  /**
    A walk yields every row selected at its first page, however rows are inserted and statuses advance
    under it, exactly when the scope filters on no status or on a terminal one.
  */
  lemma CompleteFilters(scope: Scope)
    requires scope.limit >= 1
    ensures Complete(scope) <==> scope.status.None? || IsTerminal(scope.status.value)
  {
    if scope.status.None? || IsTerminal(scope.status.value) {
      forall tables, pages, row ensures !Misses(tables, scope, pages, row) {
        SettledFilterMissesNothing(tables, scope, pages, row);
      }
    } else {
      StatusFilterCanMissARow(scope);
    }
  }
}
