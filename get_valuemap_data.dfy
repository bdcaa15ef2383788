/** The ValueMapDoc lookup the cluster pages use for their drop-down lists
    (plugins/cluster/classes/external/get_valuemap_data.php).

    For each requested entry field it returns the distinct trimmed values
    with their usage counts, most used first; sample context records when a
    business goal or strategy field was asked for; and per-field counts. */
module GetValuemapData {
  import opened Common
  import opened Sorting
  import opened ClusterPlugin

  /** A row of the per-field GROUP BY query: a distinct value and its count. */
  datatype ValueRow = ValueRow(value: string, usageCount: nat)

  datatype ValueItem = ValueItem(value: string, usageCount: nat, display: string)

  /** A row of the context query; `strategy` None is a NULL strategy. */
  datatype ContextRow = ContextRow(market: string, industry: string, role: string,
                                   businessgoal: string, strategy: Option<string>)

  datatype ContextItem = ContextItem(market: string, industry: string, role: string,
                                     businessgoal: string, strategy: string)

  datatype FieldStats = FieldStats(uniqueValues: nat, totalEntries: nat)

  datatype Response = Response(fields: map<string, seq<ValueItem>>, contextData: seq<ContextItem>,
                               statistics: map<string, FieldStats>, searchApplied: bool,
                               searchTerm: string)

  /** The data the service reads. `values(field, search)` are the grouped
      rows of the field query (NULL and '' excluded, LIKE applied when
      `search` is Some), in the order the `value ASC` tie-break gives them; `context` the context
      query rows, newest first, before get_records_sql keys them; `stats(field, search)` the count query. */
  datatype Database = Database(values: (string, Option<string>) -> seq<ValueRow>,
                               context: seq<ContextRow>,
                               stats: (string, Option<string>) -> FieldStats)

  const DefaultFields: seq<string> := ["market", "industry", "role"]
  const MaxLimit := 200
  const ContextSample := 20

  predicate IsValueField(f: string) {
    f in ValueFields
  }

  function IsValueFieldFn(): string -> bool {
    f => IsValueField(f)
  }

  /** The fields to query: the requested ones that are valid, in request
      order and with repeats (array_intersect), or market, industry and role
      when none is valid. */
  function RequestedFields(fields: seq<string>): (r: seq<string>)
    ensures r != []
    ensures forall f :: f in r ==> f in ValueFields
    ensures Filter(fields, IsValueFieldFn()) != [] ==> r == Filter(fields, IsValueFieldFn())
    ensures Filter(fields, IsValueFieldFn()) == [] ==> r == DefaultFields
  {
    var valid := Filter(fields, IsValueFieldFn());
    if valid == [] then DefaultFields else valid
  }

  /** A requested field is kept iff it is valid, unless no field is valid. */
  lemma RequestedFieldsIff(fields: seq<string>, f: string)
    requires exists g :: g in fields && g in ValueFields
    ensures f in RequestedFields(fields) <==> f in fields && f in ValueFields
  {
    var g :| g in fields && g in ValueFields;
    FilterKeeps(fields, IsValueFieldFn(), g);
    if f in fields && f in ValueFields {
      FilterKeeps(fields, IsValueFieldFn(), f);
    }
  }

  /** The per-field row limit, clamped to [1, 200]. */
  function ClampLimit(limit: int): (r: nat)
    ensures 1 <= r <= MaxLimit
    ensures 1 <= limit <= MaxLimit ==> r == limit
    ensures limit < 1 ==> r == 1
    ensures limit > MaxLimit ==> r == MaxLimit
  {
    if limit < 1 then 1 else if limit > MaxLimit then MaxLimit else limit
  }

  /** The LIKE filter the queries apply: none when the trimmed search term is
      empty in PHP's sense. */
  function SearchFilter(search: string): Option<string> {
    if IsEmptyStr(search) then None else Some(search)
  }

  /** ORDER BY usage_count DESC; the value order of the rows breaks ties. */
  function ByUsageDesc(r: ValueRow): int {
    0 - r.usageCount as int
  }

  /** "value (count)". */
  function Display(value: string, count: nat): string {
    value + " (" + NatToString(count) + ")"
  }

  /** What one record contributes: its trimmed value, unless that is empty. */
  function ItemOf(r: ValueRow): seq<ValueItem> {
    var v := Trim(r.value);
    if IsEmptyStr(v) then [] else [ValueItem(v, r.usageCount, Display(v, r.usageCount))]
  }

  /** The items the per-record loop appends. */
  function ValueItems(rows: seq<ValueRow>): seq<ValueItem> {
    if rows == [] then [] else ValueItems(rows[..|rows| - 1]) + ItemOf(rows[|rows| - 1])
  }

  /** What the service returns for one field. */
  function FieldValues(rows: seq<ValueRow>, limit: nat): seq<ValueItem> {
    ValueItems(Take(SortBy(rows, ByUsageDesc), limit))
  }

  /** Each item carries a trimmed, non-empty value, and its display string is
      the value followed by the count in parentheses, from which the count
      reads back. */
  lemma {:induction false} ValueItemsClean(rows: seq<ValueRow>)
    ensures |ValueItems(rows)| <= |rows|
    ensures forall it :: it in ValueItems(rows) ==>
      && IsTrimmed(it.value) && !IsEmptyStr(it.value)
      && it.display == it.value + " (" + NatToString(it.usageCount) + ")"
      && DigitsValue(NatToString(it.usageCount)) == it.usageCount
  {
    if rows != [] {
      var r := rows[|rows| - 1];
      ValueItemsClean(rows[..|rows| - 1]);
      TrimShape(r.value);
      NatToStringRoundTrip(r.usageCount);
    }
  }

  /** A lower bound on the counts of the rows bounds the counts of the items. */
  lemma {:induction false} ValueItemsBounded(rows: seq<ValueRow>, b: int)
    requires forall k :: 0 <= k < |rows| ==> rows[k].usageCount >= b
    ensures forall it :: it in ValueItems(rows) ==> it.usageCount >= b
  {
    if rows != [] {
      ValueItemsBounded(rows[..|rows| - 1], b);
    }
  }

  /** The items keep the order of their rows, so rows sorted by usage give
      items sorted by usage, most used first. */
  lemma {:induction false} ValueItemsOrdered(rows: seq<ValueRow>)
    requires SortedBy(rows, ByUsageDesc)
    ensures forall i, j :: 0 <= i < j < |ValueItems(rows)| ==>
      ValueItems(rows)[i].usageCount >= ValueItems(rows)[j].usageCount
  {
    if rows != [] {
      var init, last := rows[..|rows| - 1], rows[|rows| - 1];
      assert SortedBy(init, ByUsageDesc);
      ValueItemsOrdered(init);
      assert forall k :: 0 <= k < |init| ==> ByUsageDesc(rows[k]) <= ByUsageDesc(last);
      ValueItemsBounded(init, last.usageCount);
      var items := ValueItems(init);
      assert forall i :: 0 <= i < |items| ==> items[i] in items;
    }
  }

  /** Per field: at most `limit` items, most used first. */
  lemma FieldValuesShape(rows: seq<ValueRow>, limit: nat)
    ensures |FieldValues(rows, limit)| <= limit
    ensures forall i, j :: 0 <= i < j < |FieldValues(rows, limit)| ==>
      FieldValues(rows, limit)[i].usageCount >= FieldValues(rows, limit)[j].usageCount
  {
    var sorted := SortBy(rows, ByUsageDesc);
    var taken := Take(sorted, limit);
    ValueItemsClean(taken);
    assert SortedBy(taken, ByUsageDesc) by {
      forall i, j | 0 <= i < j < |taken|
        ensures ByUsageDesc(taken[i]) <= ByUsageDesc(taken[j])
      {
        assert taken[i] == sorted[i] && taken[j] == sorted[j];
      }
    }
    ValueItemsOrdered(taken);
  }

  /** The index of the first row with market `m`, or |rows| when none has it. */
  function MarketIndex(rows: seq<ContextRow>, m: string): (i: nat)
    ensures i <= |rows|
    ensures i < |rows| ==> rows[i].market == m
    ensures forall j :: 0 <= j < i ==> rows[j].market != m
  {
    if rows == [] then 0
    else if rows[0].market == m then 0
    else 1 + MarketIndex(rows[1..], m)
  }

  /** Stores `r` under its market: over the entry already holding that
      market, in its place, or appended when no entry holds it. */
  function PutByMarket(acc: seq<ContextRow>, r: ContextRow): seq<ContextRow> {
    var i := MarketIndex(acc, r.market);
    if i < |acc| then acc[i := r] else acc + [r]
  }

  /** The context rows as get_records_sql hands them over: keyed by the
      first selected column, market, so a row whose market is already
      present overwrites that entry in its place, and any other row is
      appended. */
  function KeyedByMarket(rows: seq<ContextRow>): seq<ContextRow> {
    if rows == [] then [] else PutByMarket(KeyedByMarket(rows[..|rows| - 1]), rows[|rows| - 1])
  }

  predicate HasMarket(rows: seq<ContextRow>, m: string) {
    exists j :: 0 <= j < |rows| && rows[j].market == m
  }

  predicate DistinctMarkets(rows: seq<ContextRow>) {
    forall i, j :: 0 <= i < j < |rows| ==> rows[i].market != rows[j].market
  }

  /** `r` is a row of `rows` and no later row has its market. */
  predicate IsLastOfMarket(rows: seq<ContextRow>, r: ContextRow) {
    exists i :: 0 <= i < |rows| && rows[i] == r && forall k :: i < k < |rows| ==> rows[k].market != r.market
  }

  /** One store keeps the markets distinct, adds at most one entry, adds
      the stored market and loses none, and leaves every other entry as it
      was. */
  lemma PutByMarketShape(acc: seq<ContextRow>, r: ContextRow)
    requires DistinctMarkets(acc)
    ensures |PutByMarket(acc, r)| <= |acc| + 1
    ensures DistinctMarkets(PutByMarket(acc, r))
    ensures HasMarket(PutByMarket(acc, r), r.market)
    ensures forall m :: HasMarket(acc, m) ==> HasMarket(PutByMarket(acc, r), m)
    ensures forall x :: x in PutByMarket(acc, r) ==> x == r || (x in acc && x.market != r.market)
  {
    var i := MarketIndex(acc, r.market);
    var res := PutByMarket(acc, r);
    if i < |acc| {
      assert res[i] == r;
      forall m | HasMarket(acc, m)
        ensures HasMarket(res, m)
      {
        var j :| 0 <= j < |acc| && acc[j].market == m;
        assert res[j].market == m;
      }
    } else {
      assert res[|acc|] == r;
      forall m | HasMarket(acc, m)
        ensures HasMarket(res, m)
      {
        var j :| 0 <= j < |acc| && acc[j].market == m;
        assert res[j] == acc[j];
      }
    }
  }

  /** A row that is the last of its market stays so when a row of another
      market follows. */
  lemma LastOfMarketExtends(rows: seq<ContextRow>, r: ContextRow, x: ContextRow)
    requires IsLastOfMarket(rows, x) && x.market != r.market
    ensures IsLastOfMarket(rows + [r], x)
  {
    var w :| 0 <= w < |rows| && rows[w] == x && forall k :: w < k < |rows| ==> rows[k].market != x.market;
    assert (rows + [r])[w] == x;
  }

  /** Keying by market keeps one row per market, no more rows than came
      in, every market that came in, and for each market its last row. */
  lemma {:induction false} KeyedByMarketShape(rows: seq<ContextRow>)
    ensures |KeyedByMarket(rows)| <= |rows|
    ensures DistinctMarkets(KeyedByMarket(rows))
    ensures forall k :: 0 <= k < |rows| ==> HasMarket(KeyedByMarket(rows), rows[k].market)
    ensures forall x :: x in KeyedByMarket(rows) ==> IsLastOfMarket(rows, x)
  {
    if rows != [] {
      var init, r := rows[..|rows| - 1], rows[|rows| - 1];
      assert rows == init + [r];
      KeyedByMarketShape(init);
      var acc := KeyedByMarket(init);
      PutByMarketShape(acc, r);
      forall k | 0 <= k < |rows|
        ensures HasMarket(KeyedByMarket(rows), rows[k].market)
      {
        if k < |init| {
          assert rows[k] == init[k];
        }
      }
      forall x | x in KeyedByMarket(rows)
        ensures IsLastOfMarket(rows, x)
      {
        if x == r {
          assert rows[|rows| - 1] == r;
        } else {
          LastOfMarketExtends(init, r, x);
        }
      }
    }
  }

  /** The context query returns the newest row first, so when two of the
      sampled rows share a market only the older one survives the keying. */
  lemma DuplicateMarketKeepsOlder(newer: ContextRow, older: ContextRow)
    requires newer.market == older.market
    ensures KeyedByMarket([newer, older]) == [older]
  {
    assert [newer, older][..1] == [newer];
    assert [newer][..0] == [];
    assert KeyedByMarket([newer]) == [newer];
    assert MarketIndex([newer], older.market) == 0;
  }

  function ContextItemOf(r: ContextRow): ContextItem {
    ContextItem(r.market, r.industry, r.role, r.businessgoal, r.strategy.GetOr(""))
  }

  /** The items the foreach over the keyed context records appends. */
  function ContextItems(rows: seq<ContextRow>): seq<ContextItem> {
    if rows == [] then [] else ContextItems(rows[..|rows| - 1]) + [ContextItemOf(rows[|rows| - 1])]
  }

  /** `item` is what the last row of `rows` with its market makes, a NULL
      strategy given as ''. */
  predicate FromLastOfMarket(rows: seq<ContextRow>, item: ContextItem) {
    exists i :: 0 <= i < |rows| && item == ContextItemOf(rows[i]) && item.strategy == rows[i].strategy.GetOr("")
                && forall k :: i < k < |rows| ==> rows[k].market != rows[i].market
  }

  /** The items made from rows keyed by market: no more than the rows, one
      per market, every market present, each from its market's last row. */
  lemma KeyedItemsShape(rows: seq<ContextRow>)
    ensures var items := ContextItems(KeyedByMarket(rows));
      && |items| <= |rows|
      && (forall i, j :: 0 <= i < j < |items| ==> items[i].market != items[j].market)
      && (forall k :: 0 <= k < |rows| ==> exists j :: 0 <= j < |items| && items[j].market == rows[k].market)
      && (forall j :: 0 <= j < |items| ==> FromLastOfMarket(rows, items[j]))
  {
    var keyed := KeyedByMarket(rows);
    KeyedByMarketShape(rows);
    ContextItemsPointwise(keyed);
    var items := ContextItems(keyed);
    forall i, j | 0 <= i < j < |items|
      ensures items[i].market != items[j].market
    {
      assert items[i].market == keyed[i].market && items[j].market == keyed[j].market;
    }
    forall k | 0 <= k < |rows|
      ensures exists j :: 0 <= j < |items| && items[j].market == rows[k].market
    {
      assert HasMarket(keyed, rows[k].market);
      var j :| 0 <= j < |keyed| && keyed[j].market == rows[k].market;
      assert items[j].market == keyed[j].market;
    }
    forall j | 0 <= j < |items|
      ensures FromLastOfMarket(rows, items[j])
    {
      assert keyed[j] in keyed;
      assert IsLastOfMarket(rows, keyed[j]);
      var i :| 0 <= i < |rows| && rows[i] == keyed[j]
               && forall k :: i < k < |rows| ==> rows[k].market != keyed[j].market;
      assert items[j] == ContextItemOf(rows[i]);
    }
  }

  /** The context sample: the newest 20 context rows keyed by market, so at
      most 20 items, one per market, every sampled market present, each item
      taken from the last (oldest) sampled row of its market, with a NULL
      strategy given as ''. */
  lemma ContextItemsShape(rows: seq<ContextRow>)
    ensures var sample := Take(rows, ContextSample);
      var items := ContextItems(KeyedByMarket(sample));
      && |items| <= ContextSample
      && (forall i, j :: 0 <= i < j < |items| ==> items[i].market != items[j].market)
      && (forall k :: 0 <= k < |sample| ==> exists j :: 0 <= j < |items| && items[j].market == sample[k].market)
      && (forall j :: 0 <= j < |items| ==> FromLastOfMarket(sample, items[j]))
  {
    KeyedItemsShape(Take(rows, ContextSample));
  }

  lemma {:induction false} ContextItemsPointwise(rows: seq<ContextRow>)
    ensures |ContextItems(rows)| == |rows|
    ensures forall k :: 0 <= k < |rows| ==> ContextItems(rows)[k] == ContextItemOf(rows[k])
  {
    if rows != [] {
      ContextItemsPointwise(rows[..|rows| - 1]);
    }
  }

  /** Whether the context sample is read at all. */
  predicate WantsContext(requested: seq<string>) {
    "businessgoal" in requested || "strategy" in requested
  }

  /** validate_parameters() accepts the request: every field name is
      PARAM_ALPHA and the search term PARAM_TEXT, and cleaning leaves each
      unchanged. */
  predicate ValidParameters(fields: seq<string>, search: string) {
    (forall k :: 0 <= k < |fields| ==> AlphaParamOk(fields[k])) && TextParamOk(search)
  }

  /** The request is accepted iff every field name is letters only and the
      search term holds no NUL and no '<' that opens a tag; a field name
      such as "business_goal" is refused outright. */
  lemma ValidParametersIff(fields: seq<string>, search: string)
    ensures ValidParameters(fields, search)
        <==> && (forall k, i :: 0 <= k < |fields| && 0 <= i < |fields[k]| ==> IsAsciiLetter(fields[k][i]))
             && TagFree(search)
    ensures "business_goal" in fields ==> !ValidParameters(fields, search)
  {
    forall k | 0 <= k < |fields|
      ensures AlphaParamOk(fields[k]) <==> forall i :: 0 <= i < |fields[k]| ==> IsAsciiLetter(fields[k][i])
    {
      AlphaParamOkIff(fields[k]);
    }
    TextParamOkIff(search);
    NonLetterAlphaRefused();
  }

  /** execute. `canView` is the `local/aitools:view` capability and
      `pluginAccess` the cluster plugin's has_access(). */
  method Execute(canView: bool, pluginAccess: bool, db: Database,
                 fields: seq<string> := DefaultFields, search: string := "", limit: int := 100)
    returns (r: Result<Response>)
    ensures !ValidParameters(fields, search) ==> r == Failure(InvalidParameter)
    ensures ValidParameters(fields, search) && !canView ==> r == Failure(NoCapability)
    ensures ValidParameters(fields, search) && canView && !pluginAccess ==> r == Failure(NoAccess)
    ensures r.Success? <==> ValidParameters(fields, search) && canView && pluginAccess
    ensures r.Success? ==>
      var requested, term, n := RequestedFields(fields), Trim(search), ClampLimit(limit);
      && r.value.searchTerm == term
      && r.value.searchApplied == !IsEmptyStr(term)
      && r.value.fields == MapOver(requested, FieldsOf(db, SearchFilter(term), n))
      && r.value.statistics == MapOver(requested, StatsOf(db, SearchFilter(term)))
      && r.value.contextData == (if WantsContext(requested) then ContextItems(KeyedByMarket(Take(db.context, ContextSample))) else [])
  {
    if !ValidParameters(fields, search) {
      return Failure(InvalidParameter);
    }
    if !canView {
      return Failure(NoCapability);
    }
    if !pluginAccess {
      return Failure(NoAccess);
    }
    var requested := RequestedFields(fields);
    var term := Trim(search);
    var n := ClampLimit(limit);
    var filter := SearchFilter(term);

    var result := CollectFields(db, requested, filter, n);
    var contextData: seq<ContextItem> := [];
    if WantsContext(requested) {
      contextData := CollectContext(KeyedByMarket(Take(db.context, ContextSample)));
    }
    var stats := CollectStats(db, requested, filter);
    return Success(Response(result, contextData, stats, !IsEmptyStr(term), term));
  }

  function FieldsOf(db: Database, filter: Option<string>, n: nat): string -> seq<ValueItem> {
    f => FieldValues(db.values(f, filter), n)
  }

  function StatsOf(db: Database, filter: Option<string>): string -> FieldStats {
    f => db.stats(f, filter)
  }

  /** The loop over one field's records. */
  method CollectValues(records: seq<ValueRow>) returns (values: seq<ValueItem>)
    ensures values == ValueItems(records)
  {
    values := [];
    for j := 0 to |records|
      invariant values == ValueItems(records[..j])
    {
      ghost var before := values;
      var value := Trim(records[j].value);
      if !IsEmptyStr(value) {
        values := values + [ValueItem(value, records[j].usageCount, Display(value, records[j].usageCount))];
      }
      assert values == before + ItemOf(records[j]);
      assert records[..j + 1][..j] == records[..j];
    }
    assert records[..|records|] == records;
  }

  /** The loop over the requested fields building `$result[$field]`. */
  method CollectFields(db: Database, requested: seq<string>, filter: Option<string>, n: nat)
    returns (result: map<string, seq<ValueItem>>)
    ensures result == MapOver(requested, FieldsOf(db, filter, n))
  {
    result := map[];
    for i := 0 to |requested|
      invariant result == MapOver(requested[..i], FieldsOf(db, filter, n))
    {
      var field := requested[i];
      var records := Take(SortBy(db.values(field, filter), ByUsageDesc), n);
      var values := CollectValues(records);
      assert values == FieldValues(db.values(field, filter), n);
      result := result[field := values];
      assert requested[..i + 1][..i] == requested[..i];
    }
    assert requested[..|requested|] == requested;
  }

  /** The foreach over the keyed context records: one item per record, in
      record order, a NULL strategy as ''. */
  method CollectContext(records: seq<ContextRow>) returns (items: seq<ContextItem>)
    ensures |items| == |records|
    ensures forall k :: 0 <= k < |records| ==> items[k] == ContextItemOf(records[k])
    ensures items == ContextItems(records)
  {
    items := [];
    for k := 0 to |records|
      invariant items == ContextItems(records[..k])
    {
      items := items + [ContextItemOf(records[k])];
      assert records[..k + 1][..k] == records[..k];
    }
    assert records[..|records|] == records;
    ContextItemsPointwise(records);
  }

  /** The loop over the requested fields building `$stats[$field]`. */
  method CollectStats(db: Database, requested: seq<string>, filter: Option<string>)
    returns (stats: map<string, FieldStats>)
    ensures stats == MapOver(requested, StatsOf(db, filter))
  {
    stats := map[];
    for i := 0 to |requested|
      invariant stats == MapOver(requested[..i], StatsOf(db, filter))
    {
      stats := stats[requested[i] := db.stats(requested[i], filter)];
      assert requested[..i + 1][..i] == requested[..i];
    }
    assert requested[..|requested|] == requested;
  }

  /** The response has an entry for each requested field and no other: at
      most `limit` trimmed, non-empty values most used first, and that field's
      counts. */
  lemma ResponseFields(db: Database, requested: seq<string>, filter: Option<string>, n: nat, f: string)
    ensures f in MapOver(requested, FieldsOf(db, filter, n)) <==> f in requested
    ensures f in MapOver(requested, StatsOf(db, filter)) <==> f in requested
    ensures f in requested ==>
      && MapOver(requested, FieldsOf(db, filter, n))[f] == FieldValues(db.values(f, filter), n)
      && MapOver(requested, StatsOf(db, filter))[f] == db.stats(f, filter)
      && |MapOver(requested, FieldsOf(db, filter, n))[f]| <= n
  {
    MapOverIff(requested, FieldsOf(db, filter, n), f);
    MapOverIff(requested, StatsOf(db, filter), f);
    FieldValuesShape(db.values(f, filter), n);
  }

  /** A search term that is blank around the edges is reported as applied
      only when what remains is non-empty; the reported term is trimmed. */
  lemma SearchTermShape(search: string)
    ensures IsTrimmed(Trim(search))
    ensures SearchFilter(Trim(search)).Some? <==> !IsEmptyStr(Trim(search))
  {
    TrimShape(search);
  }
}
