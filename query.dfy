/**
 * The parts of a SELECT that the repositories' list queries share:
 * a WHERE filter, an ORDER BY ... DESC, LIMIT/OFFSET windows and the
 * `COUNT(*) OVER()` total read back from the returned rows.
 */
module Query {
  import opened Wrappers
  import opened Store

  /** A sort key: the first ORDER BY column, then the second one. */
  datatype SortKey = SortKey(major: int, minor: int)

  /** `a` comes first, or ties, in a descending ORDER BY. */
  predicate KeyGe(a: SortKey, b: SortKey) {
    a.major > b.major || (a.major == b.major && a.minor >= b.minor)
  }

  ghost predicate SortedDesc<T>(s: seq<T>, key: T -> SortKey) {
    forall i, j :: 0 <= i < j < |s| ==> KeyGe(key(s[i]), key(s[j]))
  }

  /** Places `x` in front of the first element it does not sort after. */
  function InsertDesc<T>(x: T, s: seq<T>, key: T -> SortKey): (r: seq<T>)
    requires SortedDesc(s, key)
    ensures SortedDesc(r, key)
    ensures multiset(r) == multiset(s) + multiset{x}
    decreases |s|
  {
    if |s| == 0 then [x]
    else if KeyGe(key(x), key(s[0])) then
      assert forall j :: 0 < j < |[x] + s| ==> KeyGe(key(s[0]), key(([x] + s)[j]));
      [x] + s
    else
      var rest := InsertDesc(x, s[1..], key);
      assert s == [s[0]] + s[1..];
      assert forall j :: 0 <= j < |rest| ==> KeyGe(key(s[0]), key(rest[j])) by {
        forall j | 0 <= j < |rest| ensures KeyGe(key(s[0]), key(rest[j])) {
          assert rest[j] in multiset(rest);
          if rest[j] != x {
            assert rest[j] in multiset(s[1..]);
            var k :| 0 <= k < |s[1..]| && s[1..][k] == rest[j];
            assert s[k + 1] == rest[j];
          }
        }
      }
      [s[0]] + rest
  }

  /**
   * ORDER BY key DESC, as an insertion sort. Rows with equal keys keep
   * their table order (SQL leaves their order unspecified).
   */
  function SortDesc<T>(s: seq<T>, key: T -> SortKey): (r: seq<T>)
    ensures SortedDesc(r, key)
    ensures multiset(r) == multiset(s)
    decreases |s|
  {
    if |s| == 0 then []
    else
      assert s == [s[0]] + s[1..];
      InsertDesc(s[0], SortDesc(s[1..], key), key)
  }

  /** WHERE: the rows satisfying `p`, in table order. */
  function Filter<T(!new)>(s: seq<T>, p: T -> bool): (r: seq<T>)
    ensures |r| <= |s|
    ensures forall i :: 0 <= i < |r| ==> p(r[i])
    ensures forall x :: x in r <==> x in s && p(x)
    decreases |s|
  {
    if |s| == 0 then []
    else
      var rest := Filter(s[1..], p);
      assert forall x :: x in s <==> x == s[0] || x in s[1..];
      if p(s[0]) then [s[0]] + rest else rest
  }

  /** Filtering with two predicates that agree on every row gives the same rows. */
  lemma {:induction false} FilterSameTest<T(!new)>(s: seq<T>, p: T -> bool, q: T -> bool)
    requires forall x :: p(x) == q(x)
    ensures Filter(s, p) == Filter(s, q)
    decreases |s|
  {
    if |s| > 0 {
      FilterSameTest(s[1..], p, q);
    }
  }

  /** LIMIT limit OFFSET offset. */
  function Window<T>(rows: seq<T>, limit: int, offset: int): (r: seq<T>)
    requires limit >= 0 && offset >= 0
    ensures |r| <= limit
    ensures offset >= |rows| ==> |r| == 0
    ensures offset < |rows| ==> offset + |r| <= |rows| && (|r| == limit || offset + |r| == |rows|)
    ensures forall i :: 0 <= i < |r| ==> r[i] == rows[offset + i]
  {
    var lo := if offset < |rows| then offset else |rows|;
    var hi := if offset + limit < |rows| then offset + limit else |rows|;
    rows[lo..hi]
  }

  /**
   * The optional pagination of the orders and bookings lists: LIMIT only
   * when the page size is positive, and OFFSET (page-1)*size only when
   * the page is positive as well.
   */
  function OptionalPage<T>(rows: seq<T>, page: int, pageSize: int): (r: seq<T>)
    ensures pageSize <= 0 ==> r == rows
    ensures pageSize > 0 && page <= 0 ==> r == rows[..if pageSize < |rows| then pageSize else |rows|]
    ensures pageSize > 0 && page > 0 ==> r == Window(rows, pageSize, (page - 1) * pageSize)
  {
    if pageSize > 0 then
      if page > 0 then Window(rows, pageSize, (page - 1) * pageSize)
      else Window(rows, pageSize, 0)
    else rows
  }

  /**
   * The fixed pagination of the movements list: LIMIT size OFFSET
   * (page-1)*size always, which the database refuses when either is
   * negative.
   */
  function FixedPage<T>(rows: seq<T>, page: int, pageSize: int): (r: Result<seq<T>, RepoError>)
    ensures r.Err? <==> pageSize < 0 || (page - 1) * pageSize < 0
    ensures r.Ok? ==> r.value == Window(rows, pageSize, (page - 1) * pageSize)
  {
    if pageSize < 0 then Err(DatabaseError("LIMIT must not be negative"))
    else if (page - 1) * pageSize < 0 then Err(DatabaseError("OFFSET must not be negative"))
    else Ok(Window(rows, pageSize, (page - 1) * pageSize))
  }

  /** The total a list reports: COUNT(*) OVER() scanned from the returned rows, so 0 when no row comes back. */
  function ReportedTotal<T>(matching: seq<T>, returned: seq<T>): (n: int)
    ensures |returned| == 0 ==> n == 0
    ensures |returned| > 0 ==> n == |matching|
  {
    if |returned| == 0 then 0 else |matching|
  }

  /** A positive page of a list that has rows beyond the offset comes back non-empty, so its total is the match count. */
  lemma TotalReportedWhenPageInRange<T>(rows: seq<T>, page: int, pageSize: int)
    requires pageSize > 0 && page > 0 && (page - 1) * pageSize < |rows|
    ensures ReportedTotal(rows, OptionalPage(rows, page, pageSize)) == |rows|
  {
    var r := OptionalPage(rows, page, pageSize);
    assert |r| > 0;
  }

  /** A page past the end of the list is empty, so the reported total drops to 0. */
  lemma TotalZeroPastTheEnd<T>(rows: seq<T>, page: int, pageSize: int)
    requires pageSize > 0 && page > 0 && (page - 1) * pageSize >= |rows|
    ensures OptionalPage(rows, page, pageSize) == []
    ensures ReportedTotal(rows, OptionalPage(rows, page, pageSize)) == 0
  {
  }

  lemma ProductNonNegative(a: int, b: int)
    requires a >= 0 && b >= 0
    ensures a * b >= 0
  {
  }

  /** A window of a listed table keeps its order and takes its rows from it. */
  lemma WindowListed<T>(rows: seq<T>, s: seq<T>, p: T -> bool, key: T -> SortKey, limit: int, offset: int)
    requires limit >= 0 && offset >= 0
    requires SortedDesc(rows, key) && forall i :: 0 <= i < |rows| ==> rows[i] in s && p(rows[i])
    ensures var r := Window(rows, limit, offset);
      SortedDesc(r, key) && forall i :: 0 <= i < |r| ==> r[i] in s && p(r[i])
  {
    var r := Window(rows, limit, offset);
    forall i | 0 <= i < |r| ensures r[i] in s && p(r[i]) {
      assert r[i] == rows[offset + i];
    }
    forall i, j | 0 <= i < j < |r| ensures KeyGe(key(r[i]), key(r[j])) {
      assert r[i] == rows[offset + i] && r[j] == rows[offset + j];
    }
  }

  /** A window of a filtered, sorted table: its rows come from the table, pass the filter, and are in order. */
  lemma WindowOfSortedFiltered<T(!new)>(s: seq<T>, p: T -> bool, key: T -> SortKey, limit: int, offset: int)
    requires limit >= 0 && offset >= 0
    ensures var r := Window(SortDesc(Filter(s, p), key), limit, offset);
      SortedDesc(r, key) && forall i :: 0 <= i < |r| ==> r[i] in s && p(r[i])
  {
    SortedFilteredListed(s, p, key);
    WindowListed(SortDesc(Filter(s, p), key), s, p, key, limit, offset);
  }

  /**
   * The rows an optionally paginated list returns: from the table, passing
   * the filter, in descending key order, and at most a page of them when
   * the page size is positive.
   */
  lemma OptionalPageListed<T(!new)>(s: seq<T>, p: T -> bool, key: T -> SortKey, page: int, pageSize: int)
    ensures var r := OptionalPage(SortDesc(Filter(s, p), key), page, pageSize);
      && SortedDesc(r, key)
      && (forall i :: 0 <= i < |r| ==> r[i] in s && p(r[i]))
      && (pageSize > 0 ==> |r| <= pageSize)
  {
    SortedFilteredListed(s, p, key);
    PageListed(SortDesc(Filter(s, p), key), s, p, key, page, pageSize);
  }

  /** An optional page of a listed table keeps its order, takes its rows from it, and holds at most a page. */
  lemma PageListed<T>(rows: seq<T>, s: seq<T>, p: T -> bool, key: T -> SortKey, page: int, pageSize: int)
    requires SortedDesc(rows, key) && forall i :: 0 <= i < |rows| ==> rows[i] in s && p(rows[i])
    ensures var r := OptionalPage(rows, page, pageSize);
      && SortedDesc(r, key)
      && (forall i :: 0 <= i < |r| ==> r[i] in s && p(r[i]))
      && (pageSize > 0 ==> |r| <= pageSize)
  {
    if pageSize > 0 {
      var offset := if page > 0 then (page - 1) * pageSize else 0;
      assert offset >= 0 by { if page > 0 { ProductNonNegative(page - 1, pageSize); } }
      assert OptionalPage(rows, page, pageSize) == Window(rows, pageSize, offset);
      WindowListed(rows, s, p, key, pageSize, offset);
    }
  }

  /** The whole filtered, sorted table: its rows come from the table, pass the filter, and are in order. */
  lemma SortedFilteredListed<T(!new)>(s: seq<T>, p: T -> bool, key: T -> SortKey)
    ensures var r := SortDesc(Filter(s, p), key);
      SortedDesc(r, key) && forall i :: 0 <= i < |r| ==> r[i] in s && p(r[i])
  {
    var matching := Filter(s, p);
    var r := SortDesc(matching, key);
    forall i | 0 <= i < |r| ensures r[i] in s && p(r[i]) {
      assert r[i] in multiset(r);
      assert r[i] in multiset(matching);
    }
  }

  /** The same for the always-paginated list, when the database accepts the window. */
  lemma FixedPageListed<T(!new)>(s: seq<T>, p: T -> bool, key: T -> SortKey, page: int, pageSize: int)
    requires FixedPage(SortDesc(Filter(s, p), key), page, pageSize).Ok?
    ensures var r := FixedPage(SortDesc(Filter(s, p), key), page, pageSize).value;
      && SortedDesc(r, key)
      && (forall i :: 0 <= i < |r| ==> r[i] in s && p(r[i]))
      && |r| <= pageSize
  {
    WindowOfSortedFiltered(s, p, key, pageSize, (page - 1) * pageSize);
  }

  /** The services' list defaults (GetCategories, GetItems, GetStaffMembers, GetShifts): a page below 1 becomes 1 and a size below 1 becomes 10. */
  function PageDefaults(page: int, pageSize: int): (r: (int, int))
    ensures r.0 >= 1 && r.1 >= 1
    ensures page > 0 ==> r.0 == page
    ensures pageSize > 0 ==> r.1 == pageSize
    ensures page <= 0 ==> r.0 == 1
    ensures pageSize <= 0 ==> r.1 == 10
  {
    (if page <= 0 then 1 else page, if pageSize <= 0 then 10 else pageSize)
  }

  /**
   * The defaults keep LIMIT and OFFSET non-negative, so the repository's
   * always-paginated query is never refused, and applying them twice
   * changes nothing.
   */
  lemma {:induction false} DefaultPageAccepted<T>(rows: seq<T>, page: int, pageSize: int)
    ensures var d := PageDefaults(page, pageSize);
      FixedPage(rows, d.0, d.1).Ok? && PageDefaults(d.0, d.1) == d
  {
    var d := PageDefaults(page, pageSize);
    ProductNonNegative(d.0 - 1, d.1);
  }
}
