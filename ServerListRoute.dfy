/**
 * `GET /api/servers/list` of src/app/api/servers/list/route.ts: one page of
 * the servers of a country that have players, optionally narrowed by a
 * search string, most players first, each with its rank in the whole
 * ordering, and the page count.
 *
 * The database is the sequence of server rows in the order the database
 * keeps them; whether the two queries fail is a parameter.
 */
module ServerListRoute {
  import opened Wrappers
  import opened Strings
  import opened Seqs
  import opened ServerStore

  const DefaultLocale := "DE"
  const DefaultPage := 1
  const DefaultPageSize := 50

  /** The query string, each parameter absent (`None`) or given. An empty
      parameter is falsy in the source and counts as absent. */
  datatype Query = Query(locale: Option<string>, page: Option<int>, pageSize: Option<int>, search: Option<string>)

  /** The parameters the handler works with. */
  datatype Params = Params(locale: string, page: int, pageSize: int, search: string)

  /** `searchParams.get(name) || fallback` for a string parameter. */
  function StringOr(p: Option<string>, fallback: string): (r: string)
    ensures p.Some? && p.value != "" ==> r == p.value
    ensures (p.None? || p.value == "") ==> r == fallback
  {
    match p
    case None => fallback
    case Some(v) => if v == "" then fallback else v
  }

  /** Reads the parameters, each absent or empty one taking its default. */
  function ReadParams(q: Query): (ps: Params)
    ensures q.locale.None? ==> ps.locale == DefaultLocale
    ensures q.page.None? ==> ps.page == DefaultPage
    ensures q.pageSize.None? ==> ps.pageSize == DefaultPageSize
    ensures q.search.None? ==> ps.search == ""
    ensures q.page.Some? ==> ps.page == q.page.value
    ensures q.pageSize.Some? ==> ps.pageSize == q.pageSize.value
  {
    Params(
      StringOr(q.locale, DefaultLocale),
      q.page.GetOr(DefaultPage),
      q.pageSize.GetOr(DefaultPageSize),
      StringOr(q.search, ""))
  }

  /** The number of rows before the page. */
  function Skip(page: int, pageSize: int): (skip: nat)
    requires page >= 1 && pageSize >= 1
    ensures skip == (page - 1) * pageSize
    ensures page == 1 ==> skip == 0
  {
    (page - 1) * pageSize
  }

  /** One column a `contains` condition can look at. */
  datatype TextColumn = ProjectName | ProjectDescription

  /** The clause `whereClause` the handler builds: a country, more than
      `minPlayers` players, and, when there is one, a list of columns one of
      which must contain the search string. */
  datatype Where = Where(localeCountry: string, minPlayers: int, anyContains: Option<(seq<TextColumn>, string)>)

  /** `{ localeCountry, playersCurrent: { gt: 0 }, ...(search && { OR }) }`:
      spreading the empty string adds no condition. */
  function WhereClause(locale: string, search: string): (w: Where)
    ensures w.localeCountry == locale && w.minPlayers == 0
    ensures w.anyContains.Some? <==> search != ""
  {
    Where(locale, 0,
      if search == "" then None else Some(([ProjectName, ProjectDescription], search)))
  }

  function Column(row: ServerRow, c: TextColumn): string {
    match c
    case ProjectName => row.projectName
    case ProjectDescription => row.projectDescription
  }

  /** The database's reading of a `where` clause for one row. */
  predicate Satisfies(w: Where, row: ServerRow) {
    && row.localeCountry == w.localeCountry
    && row.playersCurrent > w.minPlayers
    && match w.anyContains
       case None => true
       case Some(cond) =>
         var (columns, text) := cond;
         exists k | 0 <= k < |columns| :: Contains(Column(row, columns[k]), text)
  }

  /** The rows the handler counts and lists. */
  function Matches(ps: Params): ServerRow -> bool {
    (row: ServerRow) => Satisfies(WhereClause(ps.locale, ps.search), row)
  }

  /** A row matches exactly when it is of the country, has players, and the
      search is empty or found in the project name or description. */
  lemma MatchesIff(ps: Params, row: ServerRow)
    ensures Matches(ps)(row) <==>
            && row.localeCountry == ps.locale
            && row.playersCurrent > 0
            && (ps.search == "" || Contains(row.projectName, ps.search) || Contains(row.projectDescription, ps.search))
  {
    if ps.search != "" {
      var columns := [ProjectName, ProjectDescription];
      if Contains(row.projectName, ps.search) {
        assert Contains(Column(row, columns[0]), ps.search);
      }
      if Contains(row.projectDescription, ps.search) {
        assert Contains(Column(row, columns[1]), ps.search);
      }
    }
  }

  /** The matching rows, most players first: the order of `orderBy:
      { playersCurrent: "desc" }`. */
  function Ordered(table: seq<ServerRow>, ps: Params): (r: seq<ServerRow>)
    ensures SortedDesc(r, PlayersCurrent)
    ensures multiset(r) == multiset(Filter(table, Matches(ps)))
    ensures |r| == |Filter(table, Matches(ps))|
  {
    SortDesc(Filter(table, Matches(ps)), PlayersCurrent)
  }

  /** One server of the answer: the selected columns and the rank. */
  datatype Listed = Listed(
    id: string,
    projectName: string,
    playersCurrent: int,
    projectDescription: string,
    playersMax: int,
    localeCountry: string,
    iconVersion: int,
    rank: int)

  function Select(row: ServerRow, rank: int): Listed {
    Listed(row.id, row.projectName, row.playersCurrent, row.projectDescription,
           row.playersMax, row.localeCountry, row.iconVersion, rank)
  }

  /** `skip` and `take`: the rows from offset `skip`, at most `take` of them. */
  function Window(rows: seq<ServerRow>, skip: nat, take: nat): (w: seq<ServerRow>)
    ensures |w| == Max(0, Min(take, |rows| - skip))
    ensures forall i :: 0 <= i < |w| ==> w[i] == rows[skip + i]
  {
    if skip >= |rows| then [] else rows[skip..Min(skip + take, |rows|)]
  }

  /** `servers.map((server, index) => ({ ...server, rank: skip + index + 1 }))`. */
  function Ranked(rows: seq<ServerRow>, skip: nat): (r: seq<Listed>)
    ensures |r| == |rows|
    ensures forall i :: 0 <= i < |r| ==> r[i] == Select(rows[i], skip + i + 1)
  {
    seq(|rows|, i requires 0 <= i < |rows| => Select(rows[i], skip + i + 1))
  }

  /** The JSON body of the answer; `error` is the message of a failed one. */
  datatype Response = Response(servers: seq<Listed>, totalCount: nat, currentPage: int, totalPages: nat, error: Option<string>)

  /** The answer when a query fails: nothing found, and the page asked for. */
  function ErrorResponse(page: int): Response {
    Response([], 0, page, 0, Some("Failed to fetch servers"))
  }

  /** The answer of two queries that succeed. */
  function Answer(table: seq<ServerRow>, ps: Params): (r: Response)
    requires ps.page >= 1 && ps.pageSize >= 1
    ensures r.error.None? && r.currentPage == ps.page
    ensures r.totalCount == |Ordered(table, ps)|
    ensures r.totalPages == CeilDiv(r.totalCount, ps.pageSize)
    ensures |r.servers| == Max(0, Min(ps.pageSize, r.totalCount - Skip(ps.page, ps.pageSize)))
    ensures forall i :: 0 <= i < |r.servers| ==>
              Skip(ps.page, ps.pageSize) + i < r.totalCount
              && r.servers[i] == Select(Ordered(table, ps)[Skip(ps.page, ps.pageSize) + i], Skip(ps.page, ps.pageSize) + i + 1)
  {
    var skip := Skip(ps.page, ps.pageSize);
    var ordered := Ordered(table, ps);
    var totalCount := |ordered|;
    Response(Ranked(Window(ordered, skip, ps.pageSize), skip), totalCount, ps.page, CeilDiv(totalCount, ps.pageSize), None)
  }

  /** The handler, on the rows of `table`; `fails` says whether one of the
      two queries throws, which turns the answer into the error response. */
  function List(table: seq<ServerRow>, q: Query, fails: bool): (r: Response)
    requires ReadParams(q).page >= 1 && ReadParams(q).pageSize >= 1
    ensures fails ==> r.servers == [] && r.totalCount == 0 && r.totalPages == 0
                      && r.currentPage == ReadParams(q).page && r.error.Some?
    ensures !fails ==> r == Answer(table, ReadParams(q))
  {
    if fails then ErrorResponse(ReadParams(q).page) else Answer(table, ReadParams(q))
  }

  /** Every row of the ordering matches the query. */
  lemma OrderedMatch(table: seq<ServerRow>, ps: Params, k: nat)
    requires k < |Ordered(table, ps)|
    ensures Ordered(table, ps)[k].localeCountry == ps.locale && Ordered(table, ps)[k].playersCurrent > 0
  {
    var row := Ordered(table, ps)[k];
    var matching := Filter(table, Matches(ps));
    assert row in multiset(Ordered(table, ps));
    assert row in multiset(matching);
    var m :| 0 <= m < |matching| && matching[m] == row;
    MatchesIff(ps, row);
  }

  /** Every listed server matches the query, and the page is in
      non-increasing order of players. */
  lemma ListedMatch(table: seq<ServerRow>, ps: Params)
    requires ps.page >= 1 && ps.pageSize >= 1
    ensures var r := Answer(table, ps);
            (forall i :: 0 <= i < |r.servers| ==>
               r.servers[i].localeCountry == ps.locale && r.servers[i].playersCurrent > 0)
            && (forall i, j :: 0 <= i < j < |r.servers| ==> r.servers[i].playersCurrent >= r.servers[j].playersCurrent)
  {
    var r := Answer(table, ps);
    var skip := Skip(ps.page, ps.pageSize);
    var ordered := Ordered(table, ps);
    forall i | 0 <= i < |r.servers|
      ensures r.servers[i].localeCountry == ps.locale && r.servers[i].playersCurrent > 0
    {
      OrderedMatch(table, ps, skip + i);
    }
    forall i, j | 0 <= i < j < |r.servers|
      ensures r.servers[i].playersCurrent >= r.servers[j].playersCurrent
    {
      assert PlayersCurrent(ordered[skip + i]) >= PlayersCurrent(ordered[skip + j]);
    }
  }

  /** The page is non-empty exactly when it is one of the `totalPages`
      pages; then it is full unless it is the last. */
  lemma PageWithinTotal(table: seq<ServerRow>, ps: Params)
    requires ps.page >= 1 && ps.pageSize >= 1
    ensures var r := Answer(table, ps);
            (r.servers != [] <==> r.currentPage <= r.totalPages)
            && (r.currentPage < r.totalPages ==> |r.servers| == ps.pageSize)
  {
    var r := Answer(table, ps);
    PageArithmetic(r.totalCount, ps.page, ps.pageSize);
  }

  lemma MulLe(a: int, b: int, c: nat)
    requires a <= b
    ensures a * c <= b * c
  {
    assert b * c - a * c == (b - a) * c;
  }

  /** The arithmetic of pages: page `page` of size `size` starts before the
      end of `n` rows exactly when `page <= ceil(n / size)`, and an earlier
      page is full. */
  lemma PageArithmetic(n: nat, page: int, size: int)
    requires page >= 1 && size >= 1
    ensures Max(0, Min(size, n - Skip(page, size))) > 0 <==> page <= CeilDiv(n, size)
    ensures page < CeilDiv(n, size) ==> Max(0, Min(size, n - Skip(page, size))) == size
  {
    var total := CeilDiv(n, size);
    CeilDivBounds(n, size);
    var skip := Skip(page, size);
    if page <= total {
      MulLe(page - 1, total - 1, size);
      assert skip < n;
    } else {
      MulLe(total, page - 1, size);
      assert skip >= n;
    }
    if page < total {
      MulLe(page, total - 1, size);
      assert skip + size == page * size;
    }
  }

  /** Ranks run through the whole ordering: the row at position `j` of the
      matching rows is on page `j / pageSize + 1`, at position
      `j % pageSize`, with rank `j + 1`. */
  lemma RankIsPosition(table: seq<ServerRow>, ps: Params, j: nat)
    requires ps.pageSize >= 1 && ps.page == j / ps.pageSize + 1
    requires j < |Ordered(table, ps)|
    ensures var r := Answer(table, ps);
            j % ps.pageSize < |r.servers|
            && r.servers[j % ps.pageSize] == Select(Ordered(table, ps)[j], j + 1)
  {
    PagePosition(j, ps.pageSize);
    var i := j % ps.pageSize;
    var r := Answer(table, ps);
    assert Skip(ps.page, ps.pageSize) + i == j;
  }

  /** Position `j` is at offset `j % d` of page `j / d + 1`. */
  lemma PagePosition(j: nat, d: int)
    requires d >= 1
    ensures Skip(j / d + 1, d) + j % d == j && 0 <= j % d < d
  {
  }
}
