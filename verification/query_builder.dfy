/** The query helpers: pagination clamping, search-input sanitising, the
    LIKE search condition and the paginated query with its total count.
    A table is a sequence of rows (each a map from column name to value, a
    missing column reading as SQL NULL) in the order the database returns
    them; the database's LIKE test and its ORDER BY are passed in. */
module QueryBuilder {
  import opened Wrappers
  import opened JsText
  import opened Subsequences

  // ---------------------------------------------------------------------
  // validatePagination
  // ---------------------------------------------------------------------

  datatype Pagination = Pagination(page: int, limit: int)

  const DefaultLimit := 10
  const MaxLimit := 100

  /** `Math.floor(x) || fallback`: the floor of a finite number, with `0`
      (falsy) and a missing or `NaN` argument replaced by `fallback`. */
  function FloorOr(x: Option<real>, fallback: int): (v: int)
    ensures x.Some? && x.value.Floor != 0 ==> v == x.value.Floor
    ensures x.None? || x.value.Floor == 0 ==> v == fallback
  {
    if x.Some? && x.value.Floor != 0 then x.value.Floor else fallback
  }

  /** `validatePagination(page, limit)`; `None` is a missing or `NaN` argument. */
  function ValidatePagination(page: Option<real>, limit: Option<real>): (p: Pagination)
    ensures p.page >= 1 && 1 <= p.limit <= MaxLimit
    ensures page.Some? && page.value.Floor >= 1 ==> p.page == page.value.Floor
    ensures page.None? || page.value.Floor < 1 ==> p.page == 1
    ensures limit.None? || limit.value.Floor == 0 ==> p.limit == DefaultLimit
    ensures limit.Some? && limit.value.Floor < 0 ==> p.limit == 1
    ensures limit.Some? && 1 <= limit.value.Floor <= MaxLimit ==> p.limit == limit.value.Floor
    ensures limit.Some? && limit.value.Floor > MaxLimit ==> p.limit == MaxLimit
  {
    var pg := FloorOr(page, 1);
    var lm := FloorOr(limit, DefaultLimit);
    Pagination(if pg < 1 then 1 else pg, if lm < 1 then 1 else if lm > MaxLimit then MaxLimit else lm)
  }

  /** An in-range integer pair passes through unchanged. */
  lemma InRangePaginationUnchanged(page: int, limit: int)
    requires page >= 1 && 1 <= limit <= MaxLimit
    ensures ValidatePagination(Some(page as real), Some(limit as real)) == Pagination(page, limit)
  {
  }

  /** Validating an already validated pair changes nothing. */
  lemma ValidatePaginationIdempotent(page: Option<real>, limit: Option<real>)
    ensures var p := ValidatePagination(page, limit);
            ValidatePagination(Some(p.page as real), Some(p.limit as real)) == p
  {
    var p := ValidatePagination(page, limit);
    InRangePaginationUnchanged(p.page, p.limit);
  }

  /** The clamping cases the query-builder tests exercise. */
  lemma PaginationExamples()
    ensures ValidatePagination(Some(-5.0), Some(10.0)) == Pagination(1, 10)
    ensures ValidatePagination(Some(0.0), Some(10.0)) == Pagination(1, 10)
    ensures ValidatePagination(Some(2.7), Some(10.0)) == Pagination(2, 10)
    ensures ValidatePagination(Some(1.0), Some(-10.0)) == Pagination(1, 1)
    ensures ValidatePagination(Some(1.0), Some(0.0)) == Pagination(1, 10)
    ensures ValidatePagination(Some(1.0), Some(500.0)) == Pagination(1, 100)
    ensures ValidatePagination(Some(1.0), Some(15.7)) == Pagination(1, 15)
    ensures ValidatePagination(None, None) == Pagination(1, 10)
  {
  }

  // ---------------------------------------------------------------------
  // sanitizeSearchInput
  // ---------------------------------------------------------------------

  /** The argument of `sanitizeSearchInput`: a string or any other value. */
  datatype SearchInput = Text(s: string) | NotText

  const MaxSearchLength := 100

  /** The characters the two `replace` calls delete: angle brackets, then
      quotes and backslashes. */
  const AngleBrackets: set<char> := {'<', '>'}
  const QuotesAndBackslash: set<char> := {'\'', '"', '\\'}

  /** `s.replace(/[…]/g, '')`: every character of `chars` deleted, every
      other character kept, in order. */
  function RemoveAll(s: string, chars: set<char>): (r: string)
    ensures forall i :: 0 <= i < |r| ==> r[i] !in chars
    ensures IsSubsequence(r, s)
  {
    if |s| == 0 then []
    else
      var rest := RemoveAll(s[1..], chars);
      assert s == [s[0]] + s[1..];
      if s[0] in chars then
        SubsequenceExtendFront(rest, s);
        rest
      else
        var r := [s[0]] + rest;
        assert r[1..] == rest;
        r
  }

  /** A character that is not deleted keeps its number of occurrences. */
  lemma {:induction false} RemoveAllCounts(s: string, chars: set<char>)
    ensures forall c :: c !in chars ==> multiset(RemoveAll(s, chars))[c] == multiset(s)[c]
  {
    if |s| > 0 {
      RemoveAllCounts(s[1..], chars);
      assert s == [s[0]] + s[1..];
      var rest := RemoveAll(s[1..], chars);
      if s[0] !in chars {
        assert RemoveAll(s, chars) == [s[0]] + rest;
      }
    }
  }

  /** Two deletions in turn are one deletion of both character sets. */
  lemma {:induction false} RemoveAllTwice(s: string, a: set<char>, b: set<char>)
    ensures RemoveAll(RemoveAll(s, a), b) == RemoveAll(s, a + b)
  {
    if |s| > 0 {
      RemoveAllTwice(s[1..], a, b);
      var rest := RemoveAll(s[1..], a);
      if s[0] !in a {
        assert RemoveAll(s, a) == [s[0]] + rest;
        assert ([s[0]] + rest)[1..] == rest;
      }
    }
  }

  /** The first `n` characters (`substring(0, n)`). */
  function Take(s: string, n: nat): (r: string)
    ensures |r| == if |s| < n then |s| else n
    ensures r == s[..|r|]
  {
    if |s| <= n then s else s[..n]
  }

  /** `sanitizeSearchInput(input)`. */
  function SanitizeSearchInput(input: SearchInput): (r: string)
    ensures input.NotText? ==> r == ""
    ensures |r| <= MaxSearchLength
    ensures forall i :: 0 <= i < |r| ==> r[i] !in AngleBrackets && r[i] !in QuotesAndBackslash
    ensures input.Text? ==> IsSubsequence(r, input.s)
    ensures input.Text? ==>
              var kept := RemoveAll(Trim(input.s), AngleBrackets + QuotesAndBackslash);
              && |r| == (if |kept| < MaxSearchLength then |kept| else MaxSearchLength)
              && r == kept[..|r|]
  {
    match input
    case NotText => ""
    case Text(s) =>
      var t := Trim(s);
      var a := RemoveAll(t, AngleBrackets);
      var b := RemoveAll(a, QuotesAndBackslash);
      var r := Take(b, MaxSearchLength);
      DeletionsAndTruncation(s, t, a, b, r, LeadingWhiteSpace(s), LeadingWhiteSpace(s) + |t|);
      SanitizedAvoidsDeleted(t, a, b, r);
      RemoveAllTwice(t, AngleBrackets, QuotesAndBackslash);
      r
  }

  /** A prefix of a subsequence of a subsequence of a slice of `s` is a
      subsequence of `s`. */
  lemma DeletionsAndTruncation(s: string, t: string, a: string, b: string, r: string, i: nat, j: nat)
    requires i <= j <= |s| && t == s[i..j]
    requires IsSubsequence(a, t) && IsSubsequence(b, a)
    requires |r| <= |b| && r == b[..|r|]
    ensures IsSubsequence(r, s)
  {
    PrefixOfSubsequence(b, a, |r|);
    SubsequenceTransitive(r, a, t);
    SubsequenceOfSlice(r, s, i, j);
  }

  lemma SanitizedAvoidsDeleted(t: string, a: string, b: string, r: string)
    requires a == RemoveAll(t, AngleBrackets) && b == RemoveAll(a, QuotesAndBackslash)
    requires r == Take(b, MaxSearchLength)
    ensures forall i :: 0 <= i < |r| ==> r[i] !in AngleBrackets && r[i] !in QuotesAndBackslash
  {
    forall i | 0 <= i < |r|
      ensures r[i] !in AngleBrackets && r[i] !in QuotesAndBackslash
    {
      assert r[i] == b[i];
      assert b[i] in b;
      SubsequenceMembers(b, a);
      var j :| 0 <= j < |a| && a[j] == b[i];
    }
  }

  /** Without any white space at its ends, any of the deleted characters or
      more than 100 characters, a search string passes through unchanged. */
  lemma CleanSearchUnchanged(s: string)
    requires s == [] || (!IsWhiteSpace(s[0]) && !IsWhiteSpace(s[|s| - 1]))
    requires forall i :: 0 <= i < |s| ==> s[i] !in AngleBrackets && s[i] !in QuotesAndBackslash
    requires |s| <= MaxSearchLength
    ensures SanitizeSearchInput(Text(s)) == s
  {
    TrimClean(s);
    RemoveNothing(s, AngleBrackets);
    RemoveNothing(s, QuotesAndBackslash);
  }

  /** Sanitising twice can differ from sanitising once: deleting a quote can
      leave white space at an end that the first trim no longer sees. */
  lemma SanitizeNotIdempotent()
    ensures SanitizeSearchInput(Text("a '")) == "a "
    ensures SanitizeSearchInput(Text("a ")) == "a"
  {
    SanitizeQuotedExample();
    SanitizeSpacedExample();
  }

  lemma SanitizeQuotedExample()
    ensures SanitizeSearchInput(Text("a '")) == "a "
  {
    QuotedTrimmed();
    QuotedWithoutBrackets();
    DropTrailingQuote();
  }

  lemma QuotedTrimmed()
    ensures Trim("a '") == "a '"
  {
    TrimClean("a '");
  }

  lemma QuotedWithoutBrackets()
    ensures RemoveAll("a '", AngleBrackets) == "a '"
  {
    RemoveNothing("a '", AngleBrackets);
  }

  lemma SanitizeSpacedExample()
    ensures SanitizeSearchInput(Text("a ")) == "a"
  {
    TrimTrailingSpace();
    RemoveNothing("a", AngleBrackets);
    RemoveNothing("a", QuotesAndBackslash);
  }

  lemma DropTrailingQuote()
    ensures RemoveAll("a '", QuotesAndBackslash) == "a "
  {
    assert "a '"[1..] == " '";
    assert " '"[1..] == "'";
    assert "'"[1..] == [];
    assert RemoveAll("'", QuotesAndBackslash) == [];
  }

  lemma TrimTrailingSpace()
    ensures Trim("a ") == "a"
  {
    assert TrimStart("a ") == "a ";
    assert "a "[..1] == "a";
    assert TrimEnd("a ") == TrimEnd("a");
  }

  lemma TrimClean(s: string)
    requires s == [] || (!IsWhiteSpace(s[0]) && !IsWhiteSpace(s[|s| - 1]))
    ensures Trim(s) == s
  {
    assert TrimStart(s) == s;
    assert TrimEnd(s) == s;
  }

  lemma {:induction false} RemoveNothing(s: string, chars: set<char>)
    requires forall i :: 0 <= i < |s| ==> s[i] !in chars
    ensures RemoveAll(s, chars) == s
  {
    if |s| > 0 {
      RemoveNothing(s[1..], chars);
    }
  }

  // ---------------------------------------------------------------------
  // buildSearchCondition
  // ---------------------------------------------------------------------

  /** `SearchConfig`: the searched fields and an optional table prefix
      (`joinTable` / `joinCondition` are never read by the helpers). */
  datatype SearchConfig = SearchConfig(fields: seq<string>, table: Option<string>)

  /** One `column LIKE pattern` disjunct. */
  datatype LikeClause = LikeClause(column: string, pattern: string)

  /** `table.field` when `table` is a non-empty string, `field` otherwise. */
  function QualifiedName(table: Option<string>, field: string): string {
    if table.Some? && table.value != "" then table.value + "." + field else field
  }

  /** `buildSearchCondition(search, config)` applied to a query: `None` when
      the query is returned unchanged, otherwise the disjuncts of the added
      `where` group. */
  function BuildSearchCondition(search: string, config: SearchConfig): (cond: Option<seq<LikeClause>>)
    ensures cond.None? <==> search == ""
    ensures cond.Some? ==> |cond.value| == |config.fields|
    ensures cond.Some? ==> forall i :: 0 <= i < |cond.value| ==>
              cond.value[i].pattern == "%" + search + "%"
              && cond.value[i].column == QualifiedName(config.table, config.fields[i])
  {
    if search == "" then None
    else Some(seq(|config.fields|, i requires 0 <= i < |config.fields| =>
                LikeClause(QualifiedName(config.table, config.fields[i]), "%" + search + "%")))
  }

  type Row = map<string, string>

  /** Whether a row satisfies the `where` group: an empty group restricts
      nothing; a NULL column never matches. */
  predicate SatisfiesAny(row: Row, clauses: seq<LikeClause>, like: (string, string) -> bool) {
    |clauses| == 0
    || exists i :: 0 <= i < |clauses| && clauses[i].column in row
                   && like(row[clauses[i].column], clauses[i].pattern)
  }

  /** The rows a search keeps, in order. */
  function FilterRows(rows: seq<Row>, clauses: seq<LikeClause>, like: (string, string) -> bool): (kept: seq<Row>)
    ensures forall x :: x in kept <==> x in rows && SatisfiesAny(x, clauses, like)
    ensures IsSubsequence(kept, rows)
    ensures |kept| <= |rows|
  {
    if |rows| == 0 then []
    else
      var rest := FilterRows(rows[1..], clauses, like);
      assert rows == [rows[0]] + rows[1..];
      if SatisfiesAny(rows[0], clauses, like) then
        var kept := [rows[0]] + rest;
        assert kept[1..] == rest;
        kept
      else
        SubsequenceExtendFront(rest, rows);
        rest
  }

  /** The search keeps every matching row as often as the table holds it,
      and no other row. */
  lemma {:induction false} FilterRowsCounts(rows: seq<Row>, clauses: seq<LikeClause>, like: (string, string) -> bool)
    ensures var kept := FilterRows(rows, clauses, like);
            forall x :: multiset(kept)[x] == if SatisfiesAny(x, clauses, like) then multiset(rows)[x] else 0
  {
    if |rows| > 0 {
      FilterRowsCounts(rows[1..], clauses, like);
      assert rows == [rows[0]] + rows[1..];
      assert multiset(rows) == multiset{rows[0]} + multiset(rows[1..]);
      var rest := FilterRows(rows[1..], clauses, like);
      if SatisfiesAny(rows[0], clauses, like) {
        assert FilterRows(rows, clauses, like) == [rows[0]] + rest;
        assert multiset(FilterRows(rows, clauses, like)) == multiset{rows[0]} + multiset(rest);
      } else {
        assert FilterRows(rows, clauses, like) == rest;
      }
    }
  }

  /** A non-empty search keeps exactly the rows in which some configured
      field, qualified as configured, is LIKE `%search%`. */
  lemma SearchSemantics(search: string, config: SearchConfig, row: Row, like: (string, string) -> bool)
    requires search != "" && |config.fields| > 0
    ensures var cond := BuildSearchCondition(search, config);
            SatisfiesAny(row, cond.value, like)
            <==> exists i :: 0 <= i < |config.fields|
                   && QualifiedName(config.table, config.fields[i]) in row
                   && like(row[QualifiedName(config.table, config.fields[i])], "%" + search + "%")
  {
    var cond := BuildSearchCondition(search, config);
    if SatisfiesAny(row, cond.value, like) {
      var i :| 0 <= i < |cond.value| && cond.value[i].column in row
               && like(row[cond.value[i].column], cond.value[i].pattern);
      assert QualifiedName(config.table, config.fields[i]) in row;
    }
    if exists i :: 0 <= i < |config.fields|
         && QualifiedName(config.table, config.fields[i]) in row
         && like(row[QualifiedName(config.table, config.fields[i])], "%" + search + "%") {
      var i :| 0 <= i < |config.fields|
               && QualifiedName(config.table, config.fields[i]) in row
               && like(row[QualifiedName(config.table, config.fields[i])], "%" + search + "%");
      assert cond.value[i].column in row;
    }
  }

  // ---------------------------------------------------------------------
  // buildPaginatedQuery
  // ---------------------------------------------------------------------

  datatype Direction = Asc | Desc

  datatype OrderBy = OrderBy(column: string, direction: Option<Direction>)

  /** The `config` argument of `buildPaginatedQuery` for a request without
      `joins`; `data` holds whole rows, not the `selectFields` projection. */
  datatype PageRequest = PageRequest(
    search: Option<string>, searchConfig: Option<SearchConfig>,
    pagination: Pagination, orderBy: Option<OrderBy>)

  datatype QueryResult = QueryResult(data: seq<Row>, page: int, limit: int, total: int)

  /** The ordering direction actually requested. */
  function EffectiveDirection(o: OrderBy): (d: Direction)
    ensures o.direction.None? ==> d == Desc
    ensures o.direction.Some? ==> d == o.direction.value
  {
    o.direction.GetOr(Desc)
  }

  /** The rows both the data and the count query select: filtered only when
      both a non-empty search and a search configuration are given. */
  function Matching(rows: seq<Row>, req: PageRequest, like: (string, string) -> bool): (m: seq<Row>)
    ensures req.search.None? || req.search.value == "" || req.searchConfig.None? ==> m == rows
    ensures req.search.Some? && req.search.value != "" && req.searchConfig.Some? ==>
              var clauses := BuildSearchCondition(req.search.value, req.searchConfig.value).value;
              forall x :: x in m <==> x in rows && SatisfiesAny(x, clauses, like)
    ensures IsSubsequence(m, rows)
  {
    if req.search.Some? && req.search.value != "" && req.searchConfig.Some? then
      var cond := BuildSearchCondition(req.search.value, req.searchConfig.value);
      FilterRows(rows, cond.value, like)
    else
      SubsequenceOfSelf(rows);
      rows
  }

  /** An ORDER BY only rearranges the rows it is given. */
  ghost predicate Reorders(sort: (seq<Row>, string, Direction) -> seq<Row>) {
    forall xs, column, direction :: multiset(sort(xs, column, direction)) == multiset(xs)
  }

  /** The matching rows in the order the data query returns them. */
  function Ordered(matching: seq<Row>, orderBy: Option<OrderBy>,
                   sort: (seq<Row>, string, Direction) -> seq<Row>): (o: seq<Row>)
    requires Reorders(sort)
    ensures multiset(o) == multiset(matching) && |o| == |matching|
    ensures orderBy.None? ==> o == matching
    ensures orderBy.Some? && orderBy.value.direction.None? ==> o == sort(matching, orderBy.value.column, Desc)
    ensures orderBy.Some? && orderBy.value.direction.Some? ==>
              o == sort(matching, orderBy.value.column, orderBy.value.direction.value)
  {
    if orderBy.Some? then
      var o := sort(matching, orderBy.value.column, EffectiveDirection(orderBy.value));
      assert |multiset(o)| == |multiset(matching)|;
      o
    else matching
  }

  /** `LIMIT limit OFFSET offset` applied to `xs`. */
  function Window(xs: seq<Row>, offset: nat, limit: nat): (w: seq<Row>)
    ensures |w| == if offset >= |xs| then 0 else if |xs| - offset < limit then |xs| - offset else limit
    ensures forall i :: 0 <= i < |w| ==> w[i] == xs[offset + i]
  {
    if offset >= |xs| then []
    else if |xs| - offset < limit then xs[offset..]
    else xs[offset..offset + limit]
  }

  /** `(page - 1) * limit`, the number of rows the earlier pages hold. */
  function Offset(page: int, limit: int): (offset: nat)
    requires page >= 1 && limit >= 0
    ensures offset == (page - 1) * limit
  {
    var k: nat := page - 1;
    var l: nat := limit;
    k * l
  }

  /** `buildPaginatedQuery(knex, table, fields, req)` over the rows of the
      (joined) table. */
  function BuildPaginatedQuery(rows: seq<Row>, req: PageRequest, like: (string, string) -> bool,
                               sort: (seq<Row>, string, Direction) -> seq<Row>): (r: QueryResult)
    requires req.pagination.page >= 1 && req.pagination.limit >= 0
    requires Reorders(sort)
    ensures r.page == req.pagination.page && r.limit == req.pagination.limit
    ensures r.total == |Matching(rows, req, like)| && r.total <= |rows|
    ensures |r.data| <= r.limit
    ensures r.data == Window(Ordered(Matching(rows, req, like), req.orderBy, sort),
                             Offset(req.pagination.page, req.pagination.limit), r.limit)
    ensures var offset := Offset(req.pagination.page, req.pagination.limit);
            |r.data| == if offset >= r.total then 0
                         else if r.total - offset < r.limit then r.total - offset else r.limit
    ensures forall x :: x in r.data ==> x in Matching(rows, req, like)
    ensures req.pagination.page == 1 && r.total <= r.limit ==>
              multiset(r.data) == multiset(Matching(rows, req, like))
  {
    var page := req.pagination.page;
    var limit := req.pagination.limit;
    var offset := Offset(page, limit);
    var matching := Matching(rows, req, like);
    var ordered := Ordered(matching, req.orderBy, sort);
    SubsequenceLength(matching, rows);
    PageOfReordering(ordered, matching, page, limit);
    QueryResult(Window(ordered, offset, limit), page, limit, |matching|)
  }

  /** The page of a reordering of `matching`: its length, its rows, and the
      whole of `matching` when one page holds it all. */
  lemma PageOfReordering(ordered: seq<Row>, matching: seq<Row>, page: int, limit: int)
    requires page >= 1 && limit >= 0
    requires multiset(ordered) == multiset(matching) && |ordered| == |matching|
    ensures var offset := Offset(page, limit);
            var w := Window(ordered, offset, limit);
            && |w| == (if offset >= |matching| then 0
                       else if |matching| - offset < limit then |matching| - offset else limit)
            && (forall x :: x in w ==> x in matching)
            && (page == 1 && |matching| <= limit ==> multiset(w) == multiset(matching))
  {
    WindowOfReordering(ordered, matching, Offset(page, limit), limit);
    if page == 1 && |matching| <= limit {
      FirstWindowIsWhole(ordered, limit);
    }
  }

  /** An ORDER BY without a direction sorts the matching rows descending on
      its column before the page is cut. */
  lemma DefaultOrderIsDesc(rows: seq<Row>, req: PageRequest, like: (string, string) -> bool,
                           sort: (seq<Row>, string, Direction) -> seq<Row>, column: string)
    requires req.pagination.page >= 1 && req.pagination.limit >= 0
    requires Reorders(sort)
    requires req.orderBy == Some(OrderBy(column, None))
    ensures BuildPaginatedQuery(rows, req, like, sort).data
            == Window(sort(Matching(rows, req, like), column, Desc),
                      Offset(req.pagination.page, req.pagination.limit), req.pagination.limit)
  {
  }

  /** Every row of a window of a reordering of `matching` is a matching row. */
  lemma WindowOfReordering(ordered: seq<Row>, matching: seq<Row>, offset: nat, limit: nat)
    requires multiset(ordered) == multiset(matching)
    ensures forall x :: x in Window(ordered, offset, limit) ==> x in matching
  {
    var w := Window(ordered, offset, limit);
    forall x | x in w
      ensures x in matching
    {
      var i :| 0 <= i < |w| && w[i] == x;
      assert ordered[offset + i] == x;
      assert x in multiset(ordered);
    }
  }

  /** When the first page is large enough, it holds all the ordered rows. */
  lemma FirstWindowIsWhole(ordered: seq<Row>, limit: nat)
    requires |ordered| <= limit
    ensures Window(ordered, 0, limit) == ordered
  {
  }

  /** Reading pages 1..k in turn returns the ordered rows from the start,
      without gaps or repeats. */
  lemma {:induction false} PagesCoverPrefix(xs: seq<Row>, limit: nat, k: nat)
    requires limit >= 1
    ensures PagesConcat(xs, limit, k) == xs[..if k * limit < |xs| then k * limit else |xs|]
  {
    if k > 0 {
      PagesCoverPrefix(xs, limit, k - 1);
      var lo := (k - 1) * limit;
      assert k * limit == lo + limit;
      WindowExtendsPrefix(xs, lo, limit);
    }
  }

  /** The rows before `lo` followed by the window at `lo` are the rows
      before `lo + limit`. */
  lemma WindowExtendsPrefix(xs: seq<Row>, lo: nat, limit: nat)
    ensures xs[..if lo < |xs| then lo else |xs|] + Window(xs, lo, limit)
            == xs[..if lo + limit < |xs| then lo + limit else |xs|]
  {
    if lo < |xs| {
      var hi := if lo + limit < |xs| then lo + limit else |xs|;
      assert Window(xs, lo, limit) == xs[lo..hi];
      assert xs[..lo] + xs[lo..hi] == xs[..hi];
    }
  }

  /** Pages 1..k of `xs`, concatenated. */
  function PagesConcat(xs: seq<Row>, limit: nat, k: nat): seq<Row> {
    if k == 0 then [] else PagesConcat(xs, limit, k - 1) + Window(xs, (k - 1) * limit, limit)
  }
}
