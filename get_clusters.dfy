/** The cluster list web service (plugins/cluster/classes/external/get_clusters.php).

    It lists the clusters a user owns or holds a live grant for, narrowed by
    the optional status, market and search filters, newest first, one page
    at a time, together with the total count and the pagination figures.
    Each listed row reports the user's access level and whether the user
    owns the cluster. */
module GetClusters {
  import opened Common
  import opened Sorting
  import opened ClusterPlugin

  /** The request's filters. A filter that is absent arrives as "", which
      PHP's empty() treats like "0": neither narrows the list. */
  datatype Filters = Filters(status: string, market: string, search: string,
                             limit: Option<int>, offset: Option<int>)

  datatype Row = Row(cluster: Cluster, accessLevel: string, isOwner: bool)

  datatype Pagination = Pagination(limit: int, offset: int, total: nat, pages: int, currentPage: int)

  datatype Listing = Listing(clusters: seq<Row>, totalCount: nat, hasMore: bool, pagination: Pagination)

  const DefaultLimit := 50
  const MaxLimit := 100

  /** The page size: 50 when absent, otherwise clamped to [1, 100]. */
  function ClampLimit(limit: Option<int>): (r: int)
    ensures 1 <= r <= MaxLimit
    ensures limit.None? ==> r == DefaultLimit
    ensures limit.Some? && 1 <= limit.value <= MaxLimit ==> r == limit.value
    ensures limit.Some? && limit.value < 1 ==> r == 1
    ensures limit.Some? && limit.value > MaxLimit ==> r == MaxLimit
  {
    if limit.None? then DefaultLimit
    else if limit.value < 1 then 1
    else if limit.value > MaxLimit then MaxLimit
    else limit.value
  }

  /** The offset: 0 when absent, otherwise raised to at least 0. */
  function ClampOffset(offset: Option<int>): (r: nat)
    ensures offset.None? ==> r == 0
    ensures offset.Some? && offset.value >= 0 ==> r == offset.value
    ensures offset.Some? && offset.value < 0 ==> r == 0
  {
    if offset.None? || offset.value < 0 then 0 else offset.value
  }

  /** The expiry test of the listing query: NULL, or strictly after now. */
  predicate GrantLive(expires: Option<int>, now: int) {
    expires.None? || expires.value > now
  }

  /** The visibility clause: owned by the user, or shared with the user by a
      live cluster grant. */
  predicate Visible(c: Cluster, user: int, grants: seq<Grant>, now: int) {
    c.createdBy == user || exists g :: g in grants && GrantMatches(g, c.id, user) && GrantLive(g.expires, now)
  }

  /** SQL `=` on two strings under the column's collation `fold`. */
  predicate EqualUnder(a: string, b: string, fold: char -> char) {
    |a| == |b| && StartsWithUnder(a, b, fold)
  }

  /** The three filters, each applied only when non-empty. The market and
      search terms are wrapped in `%` and passed to LIKE without escaping,
      so a `%`, `_` or `\` typed by the user keeps its LIKE meaning; `fold`
      is the collation of the compared columns. */
  predicate MatchesFilters(c: Cluster, f: Filters, fold: char -> char) {
    && (IsEmptyStr(f.status) || EqualUnder(c.status, f.status, fold))
    && (IsEmptyStr(f.market) || Like(c.market, "%" + f.market + "%", fold))
    && (IsEmptyStr(f.search) || Like(c.name, "%" + f.search + "%", fold)
                             || Like(c.description, "%" + f.search + "%", fold))
  }

  function Selects(user: int, grants: seq<Grant>, now: int, f: Filters, fold: char -> char): Cluster -> bool {
    c => Visible(c, user, grants, now) && MatchesFilters(c, f, fold)
  }

  /** The rows both the listing query and the count query select. */
  function Selected(clusters: seq<Cluster>, user: int, grants: seq<Grant>, now: int, f: Filters,
                    fold: char -> char): seq<Cluster> {
    Filter(clusters, Selects(user, grants, now, f, fold))
  }

  /** `id` is the primary key of `aitools_clusters`: no two rows share it. */
  predicate UniqueIds(s: seq<Cluster>) {
    forall i, j :: 0 <= i < j < |s| ==> s[i].id != s[j].id
  }

  /** Filtering keeps the ids of the remaining rows apart. */
  lemma {:induction false} FilterKeepsUniqueIds(s: seq<Cluster>, p: Cluster -> bool)
    requires UniqueIds(s)
    ensures UniqueIds(Filter(s, p))
  {
    if s != [] {
      var init, x := s[..|s| - 1], s[|s| - 1];
      FilterKeepsUniqueIds(init, p);
      forall c | c in Filter(init, p)
        ensures c.id != x.id
      {
        var i :| 0 <= i < |init| && init[i] == c;
        assert s[i] == c;
      }
    }
  }

  /** The ids of the rows, in order. */
  function Ids(s: seq<Cluster>): seq<int> {
    seq(|s|, k requires 0 <= k < |s| => s[k].id)
  }

  /** Filtering a table counts at most one distinct id per kept row, and
      exactly one when the table's ids are unique. */
  lemma DistinctIdCount(clusters: seq<Cluster>, p: Cluster -> bool)
    ensures |set id | id in Ids(Filter(clusters, p))| <= |Filter(clusters, p)|
    ensures UniqueIds(clusters) ==> |set id | id in Ids(Filter(clusters, p))| == |Filter(clusters, p)|
  {
    var ids := Ids(Filter(clusters, p));
    SeqSetCard(ids);
    if UniqueIds(clusters) {
      FilterKeepsUniqueIds(clusters, p);
      DistinctSeqSetCard(ids);
    }
  }

  /** The count query: COUNT(DISTINCT c.id) over the selected rows. It never
      exceeds the number of rows, and equals it on a table whose ids are
      unique. */
  function TotalCount(clusters: seq<Cluster>, user: int, grants: seq<Grant>, now: int, f: Filters,
                      fold: char -> char): (n: nat)
    ensures n <= |Selected(clusters, user, grants, now, f, fold)|
    ensures UniqueIds(clusters) ==> n == |Selected(clusters, user, grants, now, f, fold)|
  {
    DistinctIdCount(clusters, Selects(user, grants, now, f, fold));
    |set id | id in Ids(Selected(clusters, user, grants, now, f, fold))|
  }

  /** validate_parameters() accepts the filters: status is PARAM_ALPHA,
      market and search are PARAM_TEXT, and cleaning leaves each unchanged.
      An absent filter is "", which passes. */
  predicate ValidFilters(f: Filters) {
    AlphaParamOk(f.status) && TextParamOk(f.market) && TextParamOk(f.search)
  }

  /** The filters are accepted iff the status is letters only and neither
      term holds a NUL or a '<' that opens a tag. */
  lemma ValidFiltersIff(f: Filters)
    ensures ValidFilters(f)
        <==> && (forall k :: 0 <= k < |f.status| ==> IsAsciiLetter(f.status[k]))
             && TagFree(f.market) && TagFree(f.search)
  {
    AlphaParamOkIff(f.status);
    TextParamOkIff(f.market);
    TextParamOkIff(f.search);
  }

  /** ORDER BY modified_date DESC, as an ascending sort on the negated date. */
  function NewestFirst(c: Cluster): int {
    -c.modifiedDate
  }

  /** The query result before OFFSET/LIMIT. */
  function Ordered(clusters: seq<Cluster>, user: int, grants: seq<Grant>, now: int, f: Filters,
                   fold: char -> char): seq<Cluster> {
    SortBy(Selected(clusters, user, grants, now, f, fold), NewestFirst)
  }

  /** ceil(total / limit). */
  function Pages(total: nat, limit: int): int
    requires limit >= 1
  {
    (total + limit - 1) / limit
  }

  /** floor(offset / limit) + 1. */
  function CurrentPage(offset: nat, limit: int): int
    requires limit >= 1
  {
    offset / limit + 1
  }

  /** `pages` is the ceiling of total / limit: the least number of pages of
      `limit` rows that hold `total` rows. */
  lemma PagesIsCeiling(total: nat, limit: int)
    requires limit >= 1
    ensures Pages(total, limit) >= 0
    ensures Pages(total, limit) * limit >= total
    ensures total > 0 ==> (Pages(total, limit) - 1) * limit < total
    ensures total == 0 <==> Pages(total, limit) == 0
  {
    var p := Pages(total, limit);
    var q := total + limit - 1;
    assert q == p * limit + q % limit;
  }

  /** The current page is the page of `limit` rows the offset falls in. */
  lemma CurrentPageHoldsOffset(offset: nat, limit: int)
    requires limit >= 1
    ensures CurrentPage(offset, limit) >= 1
    ensures (CurrentPage(offset, limit) - 1) * limit <= offset < CurrentPage(offset, limit) * limit
  {
    assert offset == (offset / limit) * limit + offset % limit;
  }

  /** The access level a row reports: 'manage' for the owner, otherwise the
      level of the user's grant row whatever its expiry, 'view' without one. */
  function ReportedLevel(c: Cluster, user: int, grants: seq<Grant>): string {
    if c.createdBy == user then "manage"
    else match FindGrant(grants, c.id, user)
      case Some(g) => g.accessLevel
      case None => "view"
  }

  function FormatRow(c: Cluster, user: int, grants: seq<Grant>): Row {
    Row(c, ReportedLevel(c, user, grants), c.createdBy == user)
  }

  /** execute. `canView` is the `local/aitools:view` capability,
      `pluginAccess` the cluster plugin's has_access() and `fold` the
      collation of the cluster columns. */
  method Execute(canView: bool, pluginAccess: bool, user: int, clusters: seq<Cluster>,
                 grants: seq<Grant>, f: Filters, fold: char -> char, now: int)
    returns (r: Result<Listing>)
    ensures !ValidFilters(f) ==> r == Failure(InvalidParameter)
    ensures ValidFilters(f) && !canView ==> r == Failure(NoCapability)
    ensures ValidFilters(f) && canView && !pluginAccess ==> r == Failure(NoAccess)
    ensures r.Success? <==> ValidFilters(f) && canView && pluginAccess
    ensures r.Success? ==>
      var limit, offset := ClampLimit(f.limit), ClampOffset(f.offset);
      var total := TotalCount(clusters, user, grants, now, f, fold);
      var page := Slice(Ordered(clusters, user, grants, now, f, fold), offset, limit);
      && r.value.totalCount == total
      && r.value.hasMore == (offset + limit < total)
      && r.value.pagination == Pagination(limit, offset, total, Pages(total, limit), CurrentPage(offset, limit))
      && |r.value.clusters| == |page|
      && forall k :: 0 <= k < |page| ==> r.value.clusters[k] == FormatRow(page[k], user, grants)
  {
    if !ValidFilters(f) {
      return Failure(InvalidParameter);
    }
    if !canView {
      return Failure(NoCapability);
    }
    if !pluginAccess {
      return Failure(NoAccess);
    }
    var limit := ClampLimit(f.limit);
    var offset := ClampOffset(f.offset);
    var page := Slice(Ordered(clusters, user, grants, now, f, fold), offset, limit);
    var total := TotalCount(clusters, user, grants, now, f, fold);
    var rows := FormatRows(page, user, grants);
    var pagination := Pagination(limit, offset, total, Pages(total, limit), CurrentPage(offset, limit));
    return Success(Listing(rows, total, offset + limit < total, pagination));
  }

  /** The loop over the fetched page that adds each row's access level and
      ownership. */
  method FormatRows(page: seq<Cluster>, user: int, grants: seq<Grant>) returns (rows: seq<Row>)
    ensures |rows| == |page|
    ensures forall k :: 0 <= k < |page| ==> rows[k] == FormatRow(page[k], user, grants)
  {
    rows := [];
    for i := 0 to |page|
      invariant |rows| == i
      invariant forall k :: 0 <= k < i ==> rows[k] == FormatRow(page[k], user, grants)
    {
      var c := page[i];
      var accessLevel := "view";
      if c.createdBy == user {
        accessLevel := "manage";
      } else {
        var g := FindGrant(grants, c.id, user);
        if g.Some? {
          accessLevel := g.value.accessLevel;
        }
      }
      rows := rows + [Row(c, accessLevel, c.createdBy == user)];
    }
  }

  /** A cluster is counted and can be listed iff it is visible to the user and
      passes all three filters. */
  lemma SelectedIff(clusters: seq<Cluster>, user: int, grants: seq<Grant>, now: int, f: Filters,
                     fold: char -> char, c: Cluster)
    ensures c in Selected(clusters, user, grants, now, f, fold)
        <==> c in clusters && Visible(c, user, grants, now) && MatchesFilters(c, f, fold)
  {
    if c in clusters && Visible(c, user, grants, now) && MatchesFilters(c, f, fold) {
      FilterKeeps(clusters, Selects(user, grants, now, f, fold), c);
    }
  }

  /** For terms free of `%`, `_` and `\`, the market filter keeps exactly
      the clusters whose market contains the term and the search filter those
      whose name or description contains it, under the collation. */
  lemma PlainFiltersAreSubstrings(c: Cluster, f: Filters, fold: char -> char)
    requires IsPlainTerm(f.market) && IsPlainTerm(f.search)
    ensures MatchesFilters(c, f, fold)
        <==> && (IsEmptyStr(f.status) || EqualUnder(c.status, f.status, fold))
             && (IsEmptyStr(f.market) || ContainsUnder(c.market, f.market, fold))
             && (IsEmptyStr(f.search) || ContainsUnder(c.name, f.search, fold)
                                      || ContainsUnder(c.description, f.search, fold))
  {
    LikeSubstring(c.market, f.market, fold);
    LikeSubstring(c.name, f.search, fold);
    LikeSubstring(c.description, f.search, fold);
  }

  /** Because the terms are not escaped, a market filter of "_" narrows
      nothing but empty markets: every visible cluster with a non-empty
      market is selected, whatever its market says. */
  lemma UnderscoreMarketKeepsAll(clusters: seq<Cluster>, user: int, grants: seq<Grant>, now: int,
                                 f: Filters, fold: char -> char, c: Cluster)
    requires f.market == "_" && IsEmptyStr(f.status) && IsEmptyStr(f.search)
    requires c in clusters && Visible(c, user, grants, now)
    ensures c in Selected(clusters, user, grants, now, f, fold) <==> c.market != []
  {
    UnderscoreMatchesAny(c.market, fold);
    SelectedIff(clusters, user, grants, now, f, fold, c);
  }

  /** A page holds selected clusters only, newest first, at most `limit` of
      them, and exactly `limit` whenever has_more is reported. */
  lemma PageShape(clusters: seq<Cluster>, user: int, grants: seq<Grant>, now: int, f: Filters,
                   fold: char -> char)
    ensures var limit, offset := ClampLimit(f.limit), ClampOffset(f.offset);
      var total := TotalCount(clusters, user, grants, now, f, fold);
      var page := Slice(Ordered(clusters, user, grants, now, f, fold), offset, limit);
      && |page| <= limit
      && (offset + limit < total ==> |page| == limit)
      && (forall i, j :: 0 <= i < j < |page| ==> page[i].modifiedDate >= page[j].modifiedDate)
      && (forall c :: c in page ==> c in Selected(clusters, user, grants, now, f, fold))
  {
    var limit, offset := ClampLimit(f.limit), ClampOffset(f.offset);
    var sel := Selected(clusters, user, grants, now, f, fold);
    var ord := SortBy(sel, NewestFirst);
    SliceSorted(ord, NewestFirst, offset, limit);
    forall c | c in ord
      ensures c in sel
    {
      assert c in multiset(ord);
    }
  }

  /** The owner is reported as 'manage' and as owner. */
  lemma OwnerRow(c: Cluster, user: int, grants: seq<Grant>)
    requires c.createdBy == user
    ensures FormatRow(c, user, grants).accessLevel == "manage" && FormatRow(c, user, grants).isOwner
  {
  }

  /** Wherever can_access_cluster honours the user's grant, the reported level
      decides exactly the levels can_access_cluster grants. */
  lemma ReportedLevelAgrees(clusters: map<int, Cluster>, grants: seq<Grant>, user: int,
                            c: Cluster, level: string, now: int)
    requires c.id in clusters && clusters[c.id] == c
    requires c.createdBy == user || (FindGrant(grants, c.id, user).Some?
                                     && !Expired(FindGrant(grants, c.id, user).value.expires, now))
    ensures CanAccessCluster(clusters, grants, user, c.id, level, now)
        <==> LevelRank(ReportedLevel(c, user, grants)) >= LevelRank(level)
  {
  }

  /** The reported level ignores expiry: a non-owner whose only grant is an
      expired 'manage' grant is reported 'manage', while can_access_cluster
      denies the cluster at every level. */
  lemma ReportedLevelIgnoresExpiry(c: Cluster, user: int, now: int, expires: int, level: string)
    requires c.createdBy != user && expires != 0 && expires < now
    ensures var grants := [Grant("cluster", c.id, user, "manage", Some(expires))];
      && ReportedLevel(c, user, grants) == "manage"
      && !CanAccessCluster(map[c.id := c], grants, user, c.id, level, now)
  {
  }

  /** The two expiry tests disagree at the boundary: a grant that expires
      exactly now still opens the cluster by can_access_cluster, yet the
      listing no longer shows it; a zero expiry opens it by can_access_cluster
      but the listing, for any non-negative now, does not show it either. */
  lemma ExpiryBoundaryDiverges(c: Cluster, user: int, now: int, expiry: int)
    requires c.createdBy != user && (expiry == now || expiry == 0) && now >= 0
    ensures var grants := [Grant("cluster", c.id, user, "view", Some(expiry))];
      && CanAccessCluster(map[c.id := c], grants, user, c.id, "view", now)
      && !Visible(c, user, grants, now)
  {
    var grants := [Grant("cluster", c.id, user, "view", Some(expiry))];
    assert forall g :: g in grants ==> g == grants[0];
  }
}
