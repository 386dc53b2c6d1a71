/** Keyset pagination: the cursor scan behind every list operation.

    `Page` is the meaning ("filter in key order, drop what lies before the
    cursor, take a page").  `ListWithCursor` is the scan, with its separate
    filtered and unfiltered paths; it computes `Page` for every input.
 */
module Pagination {
  import opened Options
  import opened Keys

  /** The unfiltered case is the source's nil predicate. */
  datatype Filter<!T> = Everything | Matching(pred: T -> bool)

  datatype ListParams = ListParams(pageSize: int, cursor: string)

  /** An empty `nextCursor` says that the listing is complete. */
  datatype ListResult<T> = ListResult(items: seq<Row<T>>, nextCursor: string, totalCount: nat)

  predicate Keeps<T>(filter: Filter<T>, row: Row<T>)
  {
    filter.Everything? || filter.pred(row.value)
  }

  /** The matching rows, in key order. */
  function Select<T>(rows: seq<Row<T>>, filter: Filter<T>): (r: seq<Row<T>>)
  {
    if rows == [] then []
    else
      var last := rows[|rows| - 1];
      Select(rows[..|rows| - 1], filter) + (if Keeps(filter, last) then [last] else [])
  }

  /** The rows whose key is not below the cursor. */
  function From<T>(rows: seq<Row<T>>, cursor: string): (r: seq<Row<T>>)
  {
    if rows == [] then []
    else
      var last := rows[|rows| - 1];
      From(rows[..|rows| - 1], cursor) + (if Less(last.key, cursor) then [] else [last])
  }

  /** How many of `available` rows a page takes.  Size 0 asks for everything; a
      negative size takes nothing. */
  function PageLength(pageSize: int, available: nat): (n: nat)
    ensures n <= available
  {
    if pageSize == 0 || pageSize >= available then available
    else if pageSize < 0 then 0
    else pageSize
  }

  /** The meaning of a list call. */
  function Page<T>(rows: seq<Row<T>>, params: ListParams, filter: Filter<T>): (r: ListResult<T>)
  {
    var matching := Select(rows, filter);
    PageOf(From(matching, params.cursor), params.pageSize, |matching|)
  }

  /** The page cut from the remaining matching rows. */
  function PageOf<T>(rest: seq<Row<T>>, pageSize: int, total: nat): (r: ListResult<T>)
  {
    var n := PageLength(pageSize, |rest|);
    ListResult(rest[..n], if n < |rest| then rest[n].key else "", total)
  }

  // ---------- Select and From ----------

  lemma {:induction false} SelectMembers<T>(rows: seq<Row<T>>, filter: Filter<T>, r: Row<T>)
    ensures r in Select(rows, filter) <==> r in rows && Keeps(filter, r)
  {
    if rows != [] {
      var n := |rows| - 1;
      SelectMembers(rows[..n], filter, r);
      assert r in rows <==> r in rows[..n] || r == rows[n];
    }
  }

  lemma {:induction false} FromMembers<T>(rows: seq<Row<T>>, cursor: string, r: Row<T>)
    ensures r in From(rows, cursor) <==> r in rows && !Less(r.key, cursor)
  {
    if rows != [] {
      var n := |rows| - 1;
      FromMembers(rows[..n], cursor, r);
      assert r in rows <==> r in rows[..n] || r == rows[n];
    }
  }

  lemma AppendSorted<T>(rows: seq<Row<T>>, last: Row<T>)
    requires Sorted(rows)
    requires forall r | r in rows :: Less(r.key, last.key)
    ensures Sorted(rows + [last])
  {
  }

  lemma {:induction false} SelectSorted<T>(rows: seq<Row<T>>, filter: Filter<T>)
    requires Sorted(rows)
    ensures Sorted(Select(rows, filter))
  {
    if rows != [] {
      var n := |rows| - 1;
      SelectSorted(rows[..n], filter);
      forall r | r in Select(rows[..n], filter)
        ensures Less(r.key, rows[n].key)
      {
        SelectMembers(rows[..n], filter, r);
      }
      AppendSorted(Select(rows[..n], filter), rows[n]);
    }
  }

  lemma {:induction false} SelectEverything<T>(rows: seq<Row<T>>)
    ensures Select(rows, Everything) == rows
  {
    if rows != [] {
      var front, last := rows[..|rows| - 1], rows[|rows| - 1];
      SelectEverything(front);
      SelectStep(front, last, Everything);
      assert rows == front + [last];
    }
  }

  lemma SelectStep<T>(rows: seq<Row<T>>, last: Row<T>, filter: Filter<T>)
    ensures Select(rows + [last], filter) == Select(rows, filter) + (if Keeps(filter, last) then [last] else [])
  {
    assert (rows + [last])[..|rows|] == rows;
  }

  lemma FromStep<T>(rows: seq<Row<T>>, last: Row<T>, cursor: string)
    ensures From(rows + [last], cursor) == From(rows, cursor) + (if Less(last.key, cursor) then [] else [last])
  {
    assert (rows + [last])[..|rows|] == rows;
  }

  /** On key-ordered rows, dropping what lies before the cursor leaves a suffix:
      the one that starts at any split point between below and not below. */
  lemma {:induction false} FromIsSuffix<T>(rows: seq<Row<T>>, cursor: string, s: nat)
    requires s <= |rows|
    requires forall i | 0 <= i < s :: Less(rows[i].key, cursor)
    requires forall i | s <= i < |rows| :: !Less(rows[i].key, cursor)
    ensures From(rows, cursor) == rows[s..]
  {
    if rows != [] {
      var n := |rows| - 1;
      var front, last := rows[..n], rows[n];
      assert rows == front + [last];
      FromStep(front, last, cursor);
      FromIsSuffix(front, cursor, if s <= n then s else n);
      if s <= n {
        assert rows[s..] == front[s..] + [last];
      } else {
        assert front[n..] == [] && rows[s..] == [];
      }
    }
  }

  /** Once one row has reached the cursor, every later row has too. */
  lemma ReachedStaysReached<T>(rows: seq<Row<T>>, cursor: string, i: nat, j: nat)
    requires Sorted(rows) && i <= j < |rows|
    requires !Less(rows[i].key, cursor)
    ensures !Less(rows[j].key, cursor)
  {
    LessTotal(rows[i].key, rows[j].key);
    NotLessTransitive(rows[j].key, rows[i].key, cursor);
  }

  /** The split point of key-ordered rows at a cursor. */
  lemma {:induction false} SplitAt<T>(rows: seq<Row<T>>, cursor: string) returns (s: nat)
    requires Sorted(rows)
    ensures s <= |rows|
    ensures forall i | 0 <= i < s :: Less(rows[i].key, cursor)
    ensures forall i | s <= i < |rows| :: !Less(rows[i].key, cursor)
    ensures From(rows, cursor) == rows[s..]
  {
    s := 0;
    while s < |rows| && Less(rows[s].key, cursor)
      invariant s <= |rows|
      invariant forall i | 0 <= i < s :: Less(rows[i].key, cursor)
    {
      s := s + 1;
    }
    forall i | s <= i < |rows|
      ensures !Less(rows[i].key, cursor)
    {
      ReachedStaysReached(rows, cursor, s, i);
    }
    FromIsSuffix(rows, cursor, s);
  }

  lemma FromSorted<T>(rows: seq<Row<T>>, cursor: string)
    requires Sorted(rows)
    ensures Sorted(From(rows, cursor))
  {
    var _ := SplitAt(rows, cursor);
  }

  // ---------- The scan ----------

  /** Index of the first row not below the cursor: the iterator's Seek. */
  method Seek<T>(rows: seq<Row<T>>, cursor: string) returns (s: nat)
    requires Sorted(rows)
    ensures s <= |rows|
    ensures rows[s..] == From(rows, cursor)
  {
    s := 0;
    while s < |rows| && Less(rows[s].key, cursor)
      invariant s <= |rows|
      invariant forall i | 0 <= i < s :: Less(rows[i].key, cursor)
    {
      s := s + 1;
    }
    forall i | s <= i < |rows|
      ensures !Less(rows[i].key, cursor)
    {
      ReachedStaysReached(rows, cursor, s, i);
    }
    FromIsSuffix(rows, cursor, s);
  }

  /** The list scan.  Both paths compute `Page`, for every cursor and page size. */
  method ListWithCursor<T>(rows: seq<Row<T>>, params: ListParams, filter: Filter<T>)
    returns (result: ListResult<T>)
    requires Sorted(rows)
    ensures result == Page(rows, params, filter)
  {
    if filter.Everything? {
      result := ListUnfiltered(rows, params);
    } else {
      result := ListFiltered(rows, params, filter);
    }
  }

  /** No filter: count the keys, then seek and collect one page. */
  method ListUnfiltered<T>(rows: seq<Row<T>>, params: ListParams) returns (result: ListResult<T>)
    requires Sorted(rows)
    ensures result == Page(rows, params, Everything)
  {
    SelectEverything(rows);
    var totalCount := 0;
    for i := 0 to |rows|
      invariant totalCount == i
    {
      totalCount := totalCount + 1;
    }

    var start := 0;
    if params.cursor != "" {
      start := Seek(rows, params.cursor);
    } else {
      FromIsSuffix(rows, "", 0);
    }
    var items, nextCursor := CollectPage(rows, start, params.pageSize);
    result := ListResult(items, nextCursor, totalCount);
  }

  /** The iterator loop that collects values until the page is full. */
  method CollectPage<T>(rows: seq<Row<T>>, start: nat, pageSize: int)
    returns (items: seq<Row<T>>, nextCursor: string)
    requires start <= |rows|
    ensures forall total :: ListResult(items, nextCursor, total) == PageOf(rows[start..], pageSize, total)
  {
    var returnAll := pageSize == 0;
    var collected := 0;
    items, nextCursor := [], "";
    var i := start;
    while i < |rows|
      invariant start <= i <= |rows|
      invariant collected == i - start && items == rows[start..i] && nextCursor == ""
      invariant returnAll || collected == 0 || collected <= pageSize
    {
      if !returnAll && collected >= pageSize {
        nextCursor := rows[i].key;
        break;
      }
      items := items + [rows[i]];
      collected := collected + 1;
      i := i + 1;
    }
    assert collected == PageLength(pageSize, |rows[start..]|);
    assert rows[start..][..collected] == rows[start..i];
  }

  /** What one more remaining row does to a page. */
  lemma PageStep<T>(rest: seq<Row<T>>, row: Row<T>, pageSize: int, total: nat)
    ensures var page := PageOf(rest, pageSize, total);
      PageOf(rest + [row], pageSize, total + 1) ==
        if |page.items| < |rest| then page.(totalCount := total + 1)
        else if pageSize != 0 && |page.items| >= pageSize
        then page.(nextCursor := row.key, totalCount := total + 1)
        else page.(items := page.items + [row], totalCount := total + 1)
  {
    var n := PageLength(pageSize, |rest|);
    assert (rest + [row])[..n] == rest[..n];
    assert n == |rest| ==> (rest + [row])[..n + 1] == rest[..n] + [row];
  }

  /** The remaining matching rows among the first `i`. */
  ghost function RestAt<T>(rows: seq<Row<T>>, i: nat, params: ListParams, filter: Filter<T>): seq<Row<T>>
    requires i <= |rows|
  {
    From(Select(rows[..i], filter), params.cursor)
  }

  /** The page cut from the first `i` rows. */
  ghost function PageAt<T>(rows: seq<Row<T>>, i: nat, params: ListParams, filter: Filter<T>): ListResult<T>
    requires i <= |rows|
  {
    PageOf(RestAt(rows, i, params, filter), params.pageSize, |Select(rows[..i], filter)|)
  }

  lemma PageAtEnds<T>(rows: seq<Row<T>>, params: ListParams, filter: Filter<T>)
    ensures RestAt(rows, 0, params, filter) == [] && PageAt(rows, 0, params, filter) == ListResult([], "", 0)
    ensures PageAt(rows, |rows|, params, filter) == Page(rows, params, filter)
  {
    assert rows[..0] == [] && rows[..|rows|] == rows;
  }

  /** How one more scanned row changes the page cut so far. */
  lemma ScanStep<T>(rows: seq<Row<T>>, i: nat, params: ListParams, filter: Filter<T>)
    requires i < |rows|
    ensures var row, page, rest := rows[i], PageAt(rows, i, params, filter), RestAt(rows, i, params, filter);
      var counted := page.(totalCount := page.totalCount + 1);
      && RestAt(rows, i + 1, params, filter)
           == rest + (if Keeps(filter, row) && !Less(row.key, params.cursor) then [row] else [])
      && PageAt(rows, i + 1, params, filter) ==
           if !Keeps(filter, row) then page
           else if Less(row.key, params.cursor) || |page.items| < |rest| then counted
           else if params.pageSize != 0 && |page.items| >= params.pageSize then counted.(nextCursor := row.key)
           else counted.(items := page.items + [row])
  {
    var row, matching := rows[i], Select(rows[..i], filter);
    assert rows[..i + 1] == rows[..i] + [row];
    SelectStep(rows[..i], row, filter);
    FromStep(matching, row, params.cursor);
    assert RestAt(rows, i, params, filter) + [] == RestAt(rows, i, params, filter) && matching + [] == matching;
    PageStep(From(matching, params.cursor), row, params.pageSize, |matching|);
  }

  /** The rows below the cursor are those before `split`. */
  ghost predicate SplitsAt<T>(rows: seq<Row<T>>, cursor: string, split: nat)
  {
    forall i | 0 <= i < |rows| :: Less(rows[i].key, cursor) <==> i < split
  }

  /** What the variables of the filtered pass say after the first `i` rows. */
  ghost predicate Scanned<T>(rows: seq<Row<T>>, i: nat, params: ListParams, filter: Filter<T>, split: nat,
                             result: ListResult<T>, reachedCursor: bool, collected: nat, pageFull: bool)
    requires i <= |rows|
  {
    var rest := RestAt(rows, i, params, filter);
    && result == PageAt(rows, i, params, filter)
    && reachedCursor == (params.cursor == "" || rest != []) && (rest != [] ==> split < i)
    && collected == |result.items| && pageFull == (collected < |rest|)
  }

  /** One row of the filtered pass, case by case. */
  lemma ScannedStep<T>(rows: seq<Row<T>>, i: nat, params: ListParams, filter: Filter<T>, split: nat,
                       result: ListResult<T>, reachedCursor: bool, collected: nat, pageFull: bool)
    requires i < |rows| && SplitsAt(rows, params.cursor, split)
    requires Scanned(rows, i, params, filter, split, result, reachedCursor, collected, pageFull)
    ensures var row, counted := rows[i], result.(totalCount := result.totalCount + 1);
      if !Keeps(filter, row) then
        Scanned(rows, i + 1, params, filter, split, result, reachedCursor, collected, pageFull)
      else if Less(row.key, params.cursor) then
        !reachedCursor && Scanned(rows, i + 1, params, filter, split, counted, false, collected, pageFull)
      else if pageFull then
        Scanned(rows, i + 1, params, filter, split, counted, true, collected, true)
      else if params.pageSize != 0 && collected >= params.pageSize then
        Scanned(rows, i + 1, params, filter, split, counted.(nextCursor := row.key), true, collected, true)
      else
        Scanned(rows, i + 1, params, filter, split, counted.(items := counted.items + [row]), true, collected + 1,
                false)
  {
    ScanStep(rows, i, params, filter);
  }

  /** With a filter: one pass that counts every match and collects one page. */
  method ListFiltered<T>(rows: seq<Row<T>>, params: ListParams, filter: Filter<T>)
    returns (result: ListResult<T>)
    requires Sorted(rows)
    requires filter.Matching?
    ensures result == Page(rows, params, filter)
  {
    ghost var split := SplitAt(rows, params.cursor);
    result := ScanMatches(rows, params, filter, split);
  }

  /** The filtered pass itself; all it needs of the key order is where the rows
      below the cursor end. */
  method ScanMatches<T>(rows: seq<Row<T>>, params: ListParams, filter: Filter<T>, ghost split: nat)
    returns (result: ListResult<T>)
    requires filter.Matching?
    requires SplitsAt(rows, params.cursor, split)
    ensures result == Page(rows, params, filter)
  {
    var reachedCursor := params.cursor == "";
    var returnAll := params.pageSize == 0;
    var collected, pageFull := 0, false;
    result := ListResult([], "", 0);
    PageAtEnds(rows, params, filter);
    var i := 0;
    while i < |rows|
      invariant i <= |rows|
      invariant Scanned(rows, i, params, filter, split, result, reachedCursor, collected, pageFull)
    {
      var row := rows[i];
      ScannedStep(rows, i, params, filter, split, result, reachedCursor, collected, pageFull);
      i := i + 1;
      if !filter.pred(row.value) {
        continue;
      }
      result := result.(totalCount := result.totalCount + 1);
      if !reachedCursor {
        if !Less(row.key, params.cursor) {
          reachedCursor := true;
        } else {
          continue;
        }
      }
      if pageFull {
        continue;
      }
      if !returnAll && collected >= params.pageSize {
        result := result.(nextCursor := row.key);
        pageFull := true;
        continue;
      }
      result := result.(items := result.items + [row]);
      collected := collected + 1;
    }
  }

  // ---------- Walking pages while the store changes ----------

  /** One list call of a walk: the rows stored at that moment, the page size asked
      for, and the page returned. */
  datatype Visit<T> = Visit(rows: seq<Row<T>>, size: int, page: ListResult<T>)

  /** Consecutive list calls that pass each returned cursor to the next call.  The
      rows of different visits are unrelated: anything may be written in between. */
  ghost predicate WalkFrom<T>(visits: seq<Visit<T>>, filter: Filter<T>, cursor: string)
  {
    && |visits| > 0
    && Sorted(visits[0].rows)
    && visits[0].page == Page(visits[0].rows, ListParams(visits[0].size, cursor), filter)
    && (|visits| > 1 ==>
          && visits[0].page.nextCursor != ""
          && WalkFrom(visits[1..], filter, visits[0].page.nextCursor))
  }

  /** Everything a walk returned, in the order in which it was returned. */
  function Returned<T>(visits: seq<Visit<T>>): (r: seq<Row<T>>)
  {
    if visits == [] then [] else visits[0].page.items + Returned(visits[1..])
  }

  /** The last call reported that nothing is left. */
  predicate Complete<T>(visits: seq<Visit<T>>)
  {
    |visits| > 0 && visits[|visits| - 1].page.nextCursor == ""
  }

  /** One page covers the matching rows from its cursor up to the next cursor: its
      rows are stored and match, lie in that key range, and no matching row of that
      range is missing. */
  lemma PageCovers<T>(rows: seq<Row<T>>, params: ListParams, filter: Filter<T>, r: Row<T>)
    requires Sorted(rows) && params.pageSize >= 0
    ensures var page := Page(rows, params, filter);
      && (r in page.items ==>
            && r in rows && Keeps(filter, r) && !Less(r.key, params.cursor)
            && (page.nextCursor != "" ==> Less(r.key, page.nextCursor)))
      && (r in rows && Keeps(filter, r) && !Less(r.key, params.cursor) ==>
            r in page.items || (page.nextCursor != "" && !Less(r.key, page.nextCursor)))
  {
    var matching := Select(rows, filter);
    SelectSorted(rows, filter);
    FromSorted(matching, params.cursor);
    SelectMembers(rows, filter, r);
    FromMembers(matching, params.cursor, r);
    PageSplits(From(matching, params.cursor), params.pageSize, |matching|, r);
  }

  /** A page splits the remaining rows into those before the next cursor, which it
      returns, and the others. */
  lemma PageSplits<T>(rest: seq<Row<T>>, pageSize: nat, total: nat, r: Row<T>)
    requires Sorted(rest)
    ensures var page := PageOf(rest, pageSize, total);
      && (r in page.items ==> r in rest && (page.nextCursor != "" ==> Less(r.key, page.nextCursor)))
      && (r in rest ==> r in page.items || (page.nextCursor != "" && !Less(r.key, page.nextCursor)))
  {
    var n := PageLength(pageSize, |rest|);
    if i :| 0 <= i < |rest| && rest[i] == r && n <= i {
      LessTotal(rest[n].key, r.key);
      assert Less(rest[0].key, rest[n].key);
    }
  }

  lemma PageSorted<T>(rows: seq<Row<T>>, params: ListParams, filter: Filter<T>)
    requires Sorted(rows)
    ensures Sorted(Page(rows, params, filter).items)
  {
    SelectSorted(rows, filter);
    FromSorted(Select(rows, filter), params.cursor);
  }

  lemma ConcatSorted<T>(a: seq<Row<T>>, b: seq<Row<T>>, cut: string)
    requires Sorted(a) && Sorted(b)
    requires forall r | r in a :: Less(r.key, cut)
    requires forall r | r in b :: !Less(r.key, cut)
    ensures Sorted(a + b)
  {
    forall i, j | 0 <= i < |a| && 0 <= j < |b|
      ensures Less(a[i].key, b[j].key)
    {
      assert a[i] in a && b[j] in b;
      LessTotal(cut, b[j].key);
      if cut != b[j].key {
        LessTransitive(a[i].key, cut, b[j].key);
      }
    }
  }

  /** However the store changes between the calls, a walk returns strictly
      increasing keys, so no key twice, and nothing before its first cursor. */
  lemma {:induction false} WalkIncreases<T>(visits: seq<Visit<T>>, filter: Filter<T>, cursor: string)
    requires WalkFrom(visits, filter, cursor)
    requires forall v | v in visits :: v.size >= 0
    ensures Sorted(Returned(visits))
    ensures forall r | r in Returned(visits) :: !Less(r.key, cursor)
    decreases |visits|
  {
    var first := visits[0];
    var params := ListParams(first.size, cursor);
    assert first in visits;
    PageSorted(first.rows, params, filter);
    forall r | r in first.page.items
      ensures !Less(r.key, cursor)
      ensures first.page.nextCursor != "" ==> Less(r.key, first.page.nextCursor)
    {
      PageCovers(first.rows, params, filter, r);
    }
    if |visits| == 1 {
      assert Returned(visits) == first.page.items;
    } else {
      var cut := first.page.nextCursor;
      var rest := Returned(visits[1..]);
      WalkIncreases(visits[1..], filter, cut);
      ConcatSorted(first.page.items, rest, cut);
      NextNotBelow(first.rows, params, filter);
      forall r | r in rest
        ensures !Less(r.key, cursor)
      {
        NotLessTransitive(r.key, cut, cursor);
      }
    }
  }

  /** Cursors never move backwards. */
  lemma NextNotBelow<T>(rows: seq<Row<T>>, params: ListParams, filter: Filter<T>)
    requires Page(rows, params, filter).nextCursor != ""
    ensures !Less(Page(rows, params, filter).nextCursor, params.cursor)
  {
    var rest := From(Select(rows, filter), params.cursor);
    var n := PageLength(params.pageSize, |rest|);
    FromMembers(Select(rows, filter), params.cursor, rest[n]);
  }

  /** The row was stored, and matched, at the time of every call of the walk. */
  ghost predicate PresentThroughout<T>(visits: seq<Visit<T>>, filter: Filter<T>, key: string)
  {
    forall v | v in visits :: exists r :: r in v.rows && r.key == key && Keeps(filter, r)
  }

  /** A complete walk misses no key that is stored and matching throughout,
      whatever is written or deleted around it; with `WalkIncreases`, it returns
      each such key exactly once. */
  lemma {:induction false} WalkReturnsAll<T>(visits: seq<Visit<T>>, filter: Filter<T>, cursor: string, key: string)
    requires WalkFrom(visits, filter, cursor) && Complete(visits)
    requires forall v | v in visits :: v.size >= 0
    requires PresentThroughout(visits, filter, key) && !Less(key, cursor)
    ensures exists r :: r in Returned(visits) && r.key == key
    decreases |visits|
  {
    var first := visits[0];
    assert first in visits;
    var r :| r in first.rows && r.key == key && Keeps(filter, r);
    PageCovers(first.rows, ListParams(first.size, cursor), filter, r);
    if r in first.page.items {
      assert r in Returned(visits);
    } else {
      WalkReturnsAll(visits[1..], filter, first.page.nextCursor, key);
      var q :| q in Returned(visits[1..]) && q.key == key;
      assert q in Returned(visits);
    }
  }

  /** Every row of a walk was stored, and matched, when it was returned. */
  lemma {:induction false} WalkReturnsOnlyStored<T>(visits: seq<Visit<T>>, filter: Filter<T>, cursor: string, r: Row<T>)
    requires WalkFrom(visits, filter, cursor)
    requires forall v | v in visits :: v.size >= 0
    requires r in Returned(visits)
    ensures Keeps(filter, r) && exists v :: v in visits && r in v.page.items && r in v.rows
    decreases |visits|
  {
    var first := visits[0];
    assert first in visits;
    PageCovers(first.rows, ListParams(first.size, cursor), filter, r);
    if r !in first.page.items {
      WalkReturnsOnlyStored(visits[1..], filter, first.page.nextCursor, r);
      var v :| v in visits[1..] && r in v.page.items && r in v.rows;
      assert v in visits;
    }
  }

  // ---------- Walking a store that does not change ----------

  /** After a full page, the next call continues exactly where the page ended. */
  lemma NextContinues<T>(matching: seq<Row<T>>, cursor: string, n: nat)
    requires Sorted(matching)
    requires n < |From(matching, cursor)|
    ensures From(matching, From(matching, cursor)[n].key) == From(matching, cursor)[n..]
  {
    var s := SplitAt(matching, cursor);
    var cut := matching[s + n].key;
    forall i | s + n <= i < |matching|
      ensures !Less(matching[i].key, cut)
    {
      LessTotal(cut, matching[i].key);
    }
    FromIsSuffix(matching, cut, s + n);
    assert matching[s..][n..] == matching[s + n..];
  }

  /** A positive page size never yields the empty key as the next cursor. */
  lemma CursorNotEmpty<T>(rest: seq<Row<T>>, n: nat)
    requires Sorted(rest) && 0 < n < |rest|
    ensures rest[n].key != ""
  {
    assert Less(rest[0].key, rest[n].key);
  }

  /** The calls of a client that follows every cursor on an unchanging store. */
  function PageWalk<T>(rows: seq<Row<T>>, size: int, filter: Filter<T>, cursor: string): (pages: seq<ListResult<T>>)
    requires Sorted(rows) && size >= 1
    decreases |From(Select(rows, filter), cursor)|
  {
    var page := Page(rows, ListParams(size, cursor), filter);
    if page.nextCursor == "" then [page]
    else
      SelectSorted(rows, filter);
      NextContinues(Select(rows, filter), cursor, size);
      [page] + PageWalk(rows, size, filter, page.nextCursor)
  }

  function Flatten<T>(pages: seq<ListResult<T>>): (r: seq<Row<T>>)
  {
    if pages == [] then [] else pages[0].items + Flatten(pages[1..])
  }

  lemma WalkUnfolds<T>(rows: seq<Row<T>>, size: int, filter: Filter<T>, cursor: string)
    requires Sorted(rows) && size >= 1
    ensures var rest := From(Select(rows, filter), cursor);
      var walk := PageWalk(rows, size, filter, cursor);
      if |rest| <= size
      then walk == [ListResult(rest, "", |Select(rows, filter)|)]
      else
        && Sorted(rest) && rest[size].key != ""
        && walk == [ListResult(rest[..size], rest[size].key, |Select(rows, filter)|)]
                   + PageWalk(rows, size, filter, rest[size].key)
        && From(Select(rows, filter), rest[size].key) == rest[size..]
  {
    var matching := Select(rows, filter);
    var rest := From(matching, cursor);
    SelectSorted(rows, filter);
    FromSorted(matching, cursor);
    if |rest| <= size {
      assert rest[..|rest|] == rest;
    } else {
      CursorNotEmpty(rest, size);
      NextContinues(matching, cursor, size);
    }
  }

  /** Following the cursors on an unchanging store returns the filtered listing from
      the first cursor on. */
  lemma {:induction false} PageWalkComplete<T>(rows: seq<Row<T>>, size: int, filter: Filter<T>, cursor: string)
    requires Sorted(rows) && size >= 1
    ensures Flatten(PageWalk(rows, size, filter, cursor)) == From(Select(rows, filter), cursor)
    decreases |From(Select(rows, filter), cursor)|
  {
    var rest, total := From(Select(rows, filter), cursor), |Select(rows, filter)|;
    WalkUnfolds(rows, size, filter, cursor);
    if |rest| <= size {
      FlattenStep(ListResult(rest, "", total), []);
    } else {
      PageWalkComplete(rows, size, filter, rest[size].key);
      FlattenStep(ListResult(rest[..size], rest[size].key, total), PageWalk(rows, size, filter, rest[size].key));
      assert rest == rest[..size] + rest[size..];
    }
  }

  lemma FlattenStep<T>(page: ListResult<T>, pages: seq<ListResult<T>>)
    ensures Flatten([page] + pages) == page.items + Flatten(pages)
    ensures Flatten([page]) == page.items
  {
    assert ([page] + pages)[1..] == pages;
    assert [page][1..] == [];
  }

  /** `calls` is the ceiling of n / size, or 1 when n is 0. */
  predicate CallsFor(calls: nat, n: nat, size: int)
  {
    if n == 0 then calls == 1 else (calls - 1) * size < n <= calls * size
  }

  lemma OneMoreCall(calls: nat, n: nat, size: int)
    requires 1 <= size < n && CallsFor(calls, n - size, size)
    ensures CallsFor(calls + 1, n, size)
  {
    assert (calls + 1) * size == calls * size + size;
    assert calls * size == (calls - 1) * size + size;
  }

  /** It takes one call per started page. */
  lemma {:induction false} PageWalkCalls<T>(rows: seq<Row<T>>, size: int, filter: Filter<T>, cursor: string)
    requires Sorted(rows) && size >= 1
    ensures CallsFor(|PageWalk(rows, size, filter, cursor)|, |From(Select(rows, filter), cursor)|, size)
    decreases |From(Select(rows, filter), cursor)|
  {
    var rest := From(Select(rows, filter), cursor);
    WalkUnfolds(rows, size, filter, cursor);
    if |rest| > size {
      PageWalkCalls(rows, size, filter, rest[size].key);
      OneMoreCall(|PageWalk(rows, size, filter, rest[size].key)|, |rest|, size);
    }
  }

  // ---------- Which walks end ----------

  /** Where a client stands that has followed the cursor `n` times; None once a page said
      that the listing is complete.  Any page size. */
  function Followed<T>(rows: seq<Row<T>>, size: int, filter: Filter<T>, cursor: string, n: nat): (c: Option<string>)
  {
    if n == 0 then Some(cursor)
    else
      match Followed(rows, size, filter, cursor, n - 1)
      case None => None
      case Some(c) =>
        var next := Page(rows, ListParams(size, c), filter).nextCursor;
        if next == "" then None else Some(next)
  }

  ghost predicate WalkEnds<T>(rows: seq<Row<T>>, size: int, filter: Filter<T>, cursor: string)
  {
    exists n: nat :: Followed(rows, size, filter, cursor, n) == None
  }

  /** A negative page size returns no rows, and as its cursor the first remaining key: the
      next call gives the same answer. */
  lemma NegativeSizeNeverAdvances<T>(rows: seq<Row<T>>, size: int, filter: Filter<T>, cursor: string)
    requires Sorted(rows) && size < 0
    ensures var page, rest := Page(rows, ListParams(size, cursor), filter), From(Select(rows, filter), cursor);
      && page.items == []
      && page.nextCursor == (if rest == [] then "" else rest[0].key)
      && (rest != [] ==> Page(rows, ListParams(size, rest[0].key), filter) == page)
  {
    SelectSorted(rows, filter);
    var rest := From(Select(rows, filter), cursor);
    if rest != [] {
      NextContinues(Select(rows, filter), cursor, 0);
      assert rest[0..] == rest;
    }
  }

  /** A cursor that leads to itself is never left. */
  lemma {:induction false} StuckForever<T>(rows: seq<Row<T>>, size: int, filter: Filter<T>, cursor: string,
                                           first: string, n: nat)
    requires first != "" && Page(rows, ListParams(size, cursor), filter).nextCursor == first
    requires Page(rows, ListParams(size, first), filter).nextCursor == first
    ensures Followed(rows, size, filter, cursor, n) == Some(if n == 0 then cursor else first)
  {
    if n > 0 {
      StuckForever(rows, size, filter, cursor, first, n - 1);
    }
  }

  /** Following from the second page on is following one step less. */
  lemma {:induction false} FollowedFromNext<T>(rows: seq<Row<T>>, size: int, filter: Filter<T>, cursor: string, n: nat)
    requires Page(rows, ListParams(size, cursor), filter).nextCursor != ""
    ensures Followed(rows, size, filter, cursor, n + 1)
         == Followed(rows, size, filter, Page(rows, ListParams(size, cursor), filter).nextCursor, n)
  {
    if n == 0 {
      assert Followed(rows, size, filter, cursor, 0) == Some(cursor);
    } else {
      FollowedFromNext(rows, size, filter, cursor, n - 1);
    }
  }

  lemma EndsAtOnce<T>(rows: seq<Row<T>>, size: int, filter: Filter<T>, cursor: string)
    requires Page(rows, ListParams(size, cursor), filter).nextCursor == ""
    ensures WalkEnds(rows, size, filter, cursor)
  {
    assert Followed(rows, size, filter, cursor, 0) == Some(cursor);
    assert Followed(rows, size, filter, cursor, 1) == None;
  }

  lemma {:induction false} PositiveSizeEnds<T>(rows: seq<Row<T>>, size: int, filter: Filter<T>, cursor: string)
    requires Sorted(rows) && size >= 1
    ensures WalkEnds(rows, size, filter, cursor)
    decreases |From(Select(rows, filter), cursor)|
  {
    var next := Page(rows, ListParams(size, cursor), filter).nextCursor;
    if next == "" {
      EndsAtOnce(rows, size, filter, cursor);
    } else {
      SelectSorted(rows, filter);
      NextContinues(Select(rows, filter), cursor, size);
      PositiveSizeEnds(rows, size, filter, next);
      var n: nat :| Followed(rows, size, filter, next, n) == None;
      FollowedFromNext(rows, size, filter, cursor, n);
    }
  }

  /** Following the cursors on an unchanging store comes to an end if and only if the page
      size is not negative, or nothing remains, or the first remaining key is empty. */
  lemma WalkEndsIff<T>(rows: seq<Row<T>>, size: int, filter: Filter<T>, cursor: string)
    requires Sorted(rows)
    ensures var rest := From(Select(rows, filter), cursor);
      WalkEnds(rows, size, filter, cursor) <==> size >= 0 || rest == [] || rest[0].key == ""
  {
    var rest := From(Select(rows, filter), cursor);
    if size >= 1 {
      PositiveSizeEnds(rows, size, filter, cursor);
    } else if size == 0 || rest == [] || rest[0].key == "" {
      EndsAtOnce(rows, size, filter, cursor);
    } else {
      NegativeSizeNeverAdvances(rows, size, filter, cursor);
      forall n: nat
        ensures Followed(rows, size, filter, cursor, n) != None
      {
        StuckForever(rows, size, filter, cursor, rest[0].key, n);
      }
    }
  }

  /** One stored row and a page size of minus one. */
  lemma EndlessWalk()
    ensures !WalkEnds([Row("a", 0)], -1, Everything, "")
  {
    var rows := [Row("a", 0)];
    SelectEverything(rows);
    FromIsSuffix(rows, "", 0);
    WalkEndsIff(rows, -1, Everything, "");
  }
}
