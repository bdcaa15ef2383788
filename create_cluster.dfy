/** The cluster creation web service (plugins/cluster/classes/external/create_cluster.php).

    After validate_parameters() and the capability and plugin-access checks
    it validates the status, looks the market up among the ValueMapDoc
    markets (only to log a custom one), builds the record from the trimmed
    inputs and inserts it. */
module CreateCluster {
  import opened Common
  import opened ClusterPlugin
  import GetClusters

  const Statuses: seq<string> := ["planning", "active", "paused", "completed"]

  /** The record before the insert assigns its id. */
  datatype NewCluster = NewCluster(name: string, market: string, description: string, status: string,
                                   createdBy: int, createdDate: int, modifiedDate: int)

  datatype Created = Created(id: int, cluster: NewCluster)

  /** The row the insert stores under `id`. */
  function Stored(id: int, n: NewCluster): Cluster {
    Cluster(id, n.name, n.market, n.description, n.status, n.createdBy, n.createdDate, n.modifiedDate)
  }

  /** validate_parameters() accepts the request: name, market and
      description are PARAM_TEXT, status is PARAM_ALPHA, and cleaning leaves
      each of them unchanged. */
  predicate ValidParameters(name: string, market: string, description: string, status: string) {
    TextParamOk(name) && TextParamOk(market) && TextParamOk(description) && AlphaParamOk(status)
  }

  /** The request is accepted iff no text argument holds a NUL or a '<' that
      opens a tag and the status is made of letters only. */
  lemma ValidParametersIff(name: string, market: string, description: string, status: string)
    ensures ValidParameters(name, market, description, status)
        <==> && TagFree(name) && TagFree(market) && TagFree(description)
             && forall k :: 0 <= k < |status| ==> IsAsciiLetter(status[k])
  {
    TextParamOkIff(name);
    TextParamOkIff(market);
    TextParamOkIff(description);
    AlphaParamOkIff(status);
  }

  /** execute. `canView` is the `local/aitools:view` capability,
      `pluginAccess` the cluster plugin's has_access(), `knownMarkets` what
      get_valuemapdoc_values('market') returns, and `insertId` the id the
      insert hands back (0 when it stored nothing). */
  function Execute(canView: bool, pluginAccess: bool, user: int, now: int, knownMarkets: seq<string>,
                   insertId: int, name: string, market: string := "", description: string := "",
                   status: string := "planning"): (r: Result<Created>)
    ensures !ValidParameters(name, market, description, status) ==> r == Failure(InvalidParameter)
    ensures ValidParameters(name, market, description, status) ==>
      && (!canView ==> r == Failure(NoCapability))
      && (canView && !pluginAccess ==> r == Failure(NoAccess))
      && (canView && pluginAccess && status !in Statuses ==> r == Failure(InvalidStatus))
      && (canView && pluginAccess && status in Statuses && insertId == 0 ==> r == Failure(CreateFailed))
    ensures r.Success? <==> ValidParameters(name, market, description, status) && canView && pluginAccess
                            && status in Statuses && insertId != 0
    ensures r.Success? ==>
      && r.value.id == insertId
      && r.value.cluster.name == Trim(name)
      && r.value.cluster.market == Trim(market)
      && r.value.cluster.description == Trim(description)
      && r.value.cluster.status == status
      && r.value.cluster.createdBy == user
      && r.value.cluster.createdDate == r.value.cluster.modifiedDate == now
  {
    if !ValidParameters(name, market, description, status) then Failure(InvalidParameter)
    else if !canView then Failure(NoCapability)
    else if !pluginAccess then Failure(NoAccess)
    else if status !in Statuses then Failure(InvalidStatus)
    else
      var cluster := NewCluster(Trim(name), Trim(market), Trim(description), status, user, now, now);
      if insertId == 0 then Failure(CreateFailed) else Success(Created(insertId, cluster))
  }

  /** Whether execute writes "Cluster created with custom market" to the
      error log: the request got past the status check with a non-empty
      market that a non-empty list of ValueMapDoc markets does not hold. */
  predicate LogsCustomMarket(canView: bool, pluginAccess: bool, knownMarkets: seq<string>, name: string,
                             market: string, description: string, status: string) {
    && ValidParameters(name, market, description, status) && canView && pluginAccess && status in Statuses
    && !IsEmptyStr(market) && market !in knownMarkets && knownMarkets != []
  }

  /** The market lookup only decides whether a custom market is logged: the
      outcome is the same whatever markets ValueMapDoc knows, and a logged
      custom market is stored like any other. */
  lemma MarketNotEnforced(canView: bool, pluginAccess: bool, user: int, now: int, k1: seq<string>,
                          k2: seq<string>, insertId: int, name: string, market: string,
                          description: string, status: string)
    ensures Execute(canView, pluginAccess, user, now, k1, insertId, name, market, description, status)
         == Execute(canView, pluginAccess, user, now, k2, insertId, name, market, description, status)
    ensures LogsCustomMarket(canView, pluginAccess, k1, name, market, description, status) && insertId != 0 ==>
      && Execute(canView, pluginAccess, user, now, k1, insertId, name, market, description, status).Success?
      && Execute(canView, pluginAccess, user, now, k1, insertId, name, market, description, status).value.cluster.market
         == Trim(market)
  {
  }

  /** A name wrapped in a tag is refused before anything else is looked at. */
  lemma TaggedNameRefused(canView: bool, pluginAccess: bool, user: int, now: int, knownMarkets: seq<string>,
                          insertId: int, market: string, description: string, status: string)
    ensures Execute(canView, pluginAccess, user, now, knownMarkets, insertId, "<b>Acme</b>", market, description, status)
         == Failure(InvalidParameter)
  {
    TaggedTextRefused();
  }

  /** A status with a hyphen is refused by validate_parameters(), even for a
      caller without the capability, and not by the status check. */
  lemma HyphenStatusRefusedFirst(canView: bool, pluginAccess: bool, user: int, now: int,
                                 knownMarkets: seq<string>, insertId: int, name: string, market: string,
                                 description: string)
    ensures Execute(canView, pluginAccess, user, now, knownMarkets, insertId, name, market, description, "on-hold")
         == Failure(InvalidParameter)
  {
    NonLetterAlphaRefused();
  }

  /** Omitting the status creates the cluster in 'planning' whenever the
      name passes validation. */
  lemma DefaultStatusIsPlanning(user: int, now: int, knownMarkets: seq<string>, insertId: int, name: string)
    requires insertId != 0
    ensures Execute(true, true, user, now, knownMarkets, insertId, name).Success? <==> TagFree(name)
    ensures Execute(true, true, user, now, knownMarkets, insertId, name).Success? ==>
            Execute(true, true, user, now, knownMarkets, insertId, name).value.cluster.status == "planning"
  {
    ValidParametersIff(name, "", "", "planning");
  }

  /** Once stored, the new cluster is open to its creator at every level and
      appears in the creator's own listing. */
  lemma CreatorReachesNewCluster(clusters: map<int, Cluster>, grants: seq<Grant>, user: int, now: int,
                                 knownMarkets: seq<string>, insertId: int, name: string, market: string,
                                 description: string, status: string, level: string)
    requires Execute(true, true, user, now, knownMarkets, insertId, name, market, description, status).Success?
    ensures var c := Execute(true, true, user, now, knownMarkets, insertId, name, market, description, status).value;
      && CanAccessCluster(clusters[insertId := Stored(c.id, c.cluster)], grants, user, insertId, level, now)
      && GetClusters.Visible(Stored(c.id, c.cluster), user, grants, now)
  {
  }

  /** The stored text fields are trimmed: creating again from them, when
      they still pass validation, stores the same text. */
  lemma StoredFieldsTrimmed(user: int, now: int, knownMarkets: seq<string>, insertId: int, name: string,
                            market: string, description: string, status: string)
    requires Execute(true, true, user, now, knownMarkets, insertId, name, market, description, status).Success?
    ensures var c := Execute(true, true, user, now, knownMarkets, insertId, name, market, description, status).value.cluster;
      && IsTrimmed(c.name) && IsTrimmed(c.market) && IsTrimmed(c.description)
      && (ValidParameters(c.name, c.market, c.description, status) ==>
          Execute(true, true, user, now, knownMarkets, insertId, c.name, c.market, c.description, status).value.cluster == c)
  {
    TrimShape(name);
    TrimShape(market);
    TrimShape(description);
    TrimIdempotent(name);
    TrimIdempotent(market);
    TrimIdempotent(description);
  }

  /** Trimming can leave a '<' at the end of a name, where strip_tags()
      takes it for a tag opener: such a stored name would not pass
      validation again. */
  lemma TrimExposesTagOpener()
    ensures TagFree("x <\n") && !TagFree(Trim("x <\n"))
  {
    var s := "x <\n";
    assert Trim(s) == "x <" by {
      assert SkipLeading(s, 0) == 0;
      assert SkipTrailing(s, 0, |s|) == 3;
    }
  }
}
