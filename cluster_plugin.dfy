/** The cluster subplugin's access rules (plugins/cluster/classes/plugin.php).

    A cluster is a sales campaign owned by the user who created it. Other users
    reach it through rows of `aitools_shared_access` ("grants") that carry an
    access level and an optional expiry date. The plugin as a whole is open to
    holders of `local/aitools:view` who either manage AI Tools or pass the
    cohort gate of `aitoolsub_cluster`. */
module ClusterPlugin {
  import opened Common
  import CohortManager
  import Manager

  const PluginName := "aitoolsub_cluster"

  /** A row of `aitools_clusters`; a NULL market or description is "". */
  datatype Cluster = Cluster(id: int, name: string, market: string, description: string,
                             status: string, createdBy: int, createdDate: int, modifiedDate: int)

  /** A row of `aitools_shared_access`; `expires` None is a NULL expiry date. */
  datatype Grant = Grant(resourceType: string, resourceId: int, userId: int,
                         accessLevel: string, expires: Option<int>)

  /** The exceptions the cluster web services raise. InvalidParameter is
      validate_parameters() refusing an argument that cleaning would change;
      InvalidStatus is create_cluster's own check of the status. */
  datatype Error = InvalidParameter | NoCapability | NoAccess | InvalidStatus | CreateFailed

  datatype Result<T> = Success(value: T) | Failure(error: Error)

  /** The ValueMapDoc entry fields the cluster plugin may read. */
  const ValueFields: seq<string> := ["market", "industry", "role", "businessgoal", "strategy"]

  /** Rank of an access level: view 1, edit 2, manage 3, anything else 1. */
  function LevelRank(level: string): (r: int)
    ensures 1 <= r <= 3
    ensures r == 3 <==> level == "manage"
    ensures r == 2 <==> level == "edit"
  {
    if level == "manage" then 3 else if level == "edit" then 2 else 1
  }

  predicate GrantMatches(g: Grant, clusterId: int, user: int) {
    g.resourceType == "cluster" && g.resourceId == clusterId && g.userId == user
  }

  /** The grant `get_record` finds for (cluster, user): the first matching row. */
  function FindGrant(grants: seq<Grant>, clusterId: int, user: int): (r: Option<Grant>)
    ensures r.Some? ==> r.value in grants && GrantMatches(r.value, clusterId, user)
    ensures r.None? ==> forall g :: g in grants ==> !GrantMatches(g, clusterId, user)
  {
    if grants == [] then None
    else if GrantMatches(grants[0], clusterId, user) then Some(grants[0])
    else FindGrant(grants[1..], clusterId, user)
  }

  /** can_access_cluster's expiry test: a NULL or zero expiry never expires;
      otherwise the grant has expired once its date lies strictly before now. */
  predicate Expired(expires: Option<int>, now: int) {
    expires.Some? && expires.value != 0 && expires.value < now
  }

  /** can_access_cluster. */
  function CanAccessCluster(clusters: map<int, Cluster>, grants: seq<Grant>, user: int,
                            clusterId: int, level: string, now: int): (r: bool)
    ensures r ==> clusterId in clusters
    ensures clusterId in clusters && clusters[clusterId].createdBy == user ==> r
    ensures r && clusters[clusterId].createdBy != user ==>
      && FindGrant(grants, clusterId, user).Some?
      && !Expired(FindGrant(grants, clusterId, user).value.expires, now)
      && LevelRank(FindGrant(grants, clusterId, user).value.accessLevel) >= LevelRank(level)
  {
    if clusterId !in clusters then false
    else if clusters[clusterId].createdBy == user then true
    else match FindGrant(grants, clusterId, user)
      case None => false
      case Some(g) =>
        if Expired(g.expires, now) then false
        else LevelRank(g.accessLevel) >= LevelRank(level)
  }

  /** A non-owner holding a live grant gets exactly the levels its rank covers. */
  lemma GrantDecides(clusters: map<int, Cluster>, grants: seq<Grant>, user: int,
                     clusterId: int, level: string, now: int)
    requires clusterId in clusters && clusters[clusterId].createdBy != user
    requires FindGrant(grants, clusterId, user).Some?
    requires !Expired(FindGrant(grants, clusterId, user).value.expires, now)
    ensures CanAccessCluster(clusters, grants, user, clusterId, level, now)
        <==> LevelRank(FindGrant(grants, clusterId, user).value.accessLevel) >= LevelRank(level)
  {
  }

  /** A non-owner without a matching grant row is denied every level. */
  lemma NoGrantDenied(clusters: map<int, Cluster>, grants: seq<Grant>, user: int,
                      clusterId: int, level: string, now: int)
    requires clusterId in clusters && clusters[clusterId].createdBy != user
    requires forall g :: g in grants ==> !GrantMatches(g, clusterId, user)
    ensures !CanAccessCluster(clusters, grants, user, clusterId, level, now)
  {
  }

  /** A NULL or zero expiry never expires: the answer is the same at every time. */
  lemma OpenEndedGrantNeverExpires(clusters: map<int, Cluster>, grants: seq<Grant>, user: int,
                                   clusterId: int, level: string, now: int, later: int)
    requires FindGrant(grants, clusterId, user).Some?
    requires FindGrant(grants, clusterId, user).value.expires in {None, Some(0)}
    ensures CanAccessCluster(clusters, grants, user, clusterId, level, now)
         == CanAccessCluster(clusters, grants, user, clusterId, level, later)
  {
  }

  /** Access levels nest: manage implies edit implies view, and in general a
      level implies every level of lower or equal rank. */
  lemma AccessMonotone(clusters: map<int, Cluster>, grants: seq<Grant>, user: int,
                       clusterId: int, high: string, low: string, now: int)
    requires LevelRank(low) <= LevelRank(high)
    requires CanAccessCluster(clusters, grants, user, clusterId, high, now)
    ensures CanAccessCluster(clusters, grants, user, clusterId, low, now)
  {
  }

  /** has_access: `canView` and `canManage` are the two capability checks in
      the system context; the cohort gate is asked only when the user does not
      manage AI Tools. */
  method HasAccess(canView: bool, canManage: bool, gate: CohortManager.RestrictionTable,
                   userCohorts: set<int>, lookupFails: bool)
    returns (allowed: bool)
    ensures !canView ==> !allowed
    ensures canView && canManage ==> allowed
    ensures canView && !canManage ==>
      (allowed <==> !gate.tableExists || lookupFails || gate.CohortsOf(PluginName) == {}
                    || gate.CohortsOf(PluginName) * userCohorts != {})
  {
    if !canView {
      return false;
    }
    if canManage {
      return true;
    }
    allowed := gate.HasCohortAccess(PluginName, userCohorts, lookupFails);
  }

  /** get_tools: one entry, 'sales_campaigns', whose value is the list of the
      three cluster tools; nothing without access. */
  function ClusterTools(hasAccess: bool): (r: seq<Manager.Tool>)
    ensures !hasAccess ==> r == []
    ensures hasAccess ==> |r| == 1 && r[0].key == "sales_campaigns"
  {
    if !hasAccess then [] else [Manager.Tool("sales_campaigns", None)]
  }

  /** get_dashboard_blocks: two blocks under the list keys 0 and 1; they
      declare a 'priority' and no 'weight'. Nothing without access. */
  function ClusterBlocks(hasAccess: bool): (r: seq<Manager.Block>)
    ensures !hasAccess ==> r == []
    ensures hasAccess ==> |r| == 2 && forall i :: 0 <= i < |r| ==> r[i].weight.None?
  {
    if !hasAccess then [] else [Manager.Block("0", None), Manager.Block("1", None)]
  }

  /** The cluster plugin as the registry sees it. */
  function ClusterInstance(hasAccess: bool): Manager.Plugin {
    Manager.Plugin(true, hasAccess, Some(ClusterTools(hasAccess)), Some(ClusterBlocks(hasAccess)))
  }

  /** The registry files the cluster's entry under the 'general' category,
      because the nested tool list carries no category of its own; its
      blocks sort with the default weight 50. */
  lemma ClusterSeenByRegistry()
    ensures var ts := Manager.AllTools([Manager.Loaded(PluginName, ClusterInstance(true))]);
      && ts == [Manager.TaggedTool(PluginName, "sales_campaigns", None)]
      && Manager.CategoryOf(ts[0]) == Manager.DefaultCategory
    ensures var bs := Manager.AllBlocks([Manager.Loaded(PluginName, ClusterInstance(true))]);
      && |bs| == 2 && Manager.WeightOf(bs[0]) == Manager.WeightOf(bs[1]) == Manager.DefaultWeight
  {
    var ps := [Manager.Loaded(PluginName, ClusterInstance(true))];
    assert ps[..0] == [];
    var bs := ClusterBlocks(true);
    assert bs[..1][..0] == [];
    assert bs[..|bs| - 1] == bs[..1];
  }

  /** The values get_valuemapdoc_values keeps from the DISTINCT rows: each
      trimmed, those that are empty in PHP's sense ("" or "0") dropped. */
  function TrimmedValues(records: seq<string>): seq<string> {
    if records == [] then []
    else
      var v := Trim(records[|records| - 1]);
      TrimmedValues(records[..|records| - 1]) + (if IsEmptyStr(v) then [] else [v])
  }

  /** Every kept value is trimmed and non-empty in PHP's sense. */
  lemma {:induction false} TrimmedValuesClean(records: seq<string>)
    ensures forall v :: v in TrimmedValues(records) ==> IsTrimmed(v) && !IsEmptyStr(v)
  {
    if records != [] {
      TrimmedValuesClean(records[..|records| - 1]);
      TrimShape(records[|records| - 1]);
    }
  }

  /** Every record whose trimmed value is non-empty is kept. */
  lemma {:induction false} TrimmedValuesKeep(records: seq<string>, k: nat)
    requires k < |records| && !IsEmptyStr(Trim(records[k]))
    ensures Trim(records[k]) in TrimmedValues(records)
  {
    var init := records[..|records| - 1];
    if k < |init| {
      assert init[k] == records[k];
      TrimmedValuesKeep(init, k);
    }
  }

  /** get_valuemapdoc_values: `records` are the DISTINCT non-empty field values
      the query returns, in its order. */
  method GetValuemapdocValues(field: string, records: seq<string>) returns (values: seq<string>)
    ensures field !in ValueFields ==> values == []
    ensures field in ValueFields ==> values == TrimmedValues(records)
    ensures forall v :: v in values ==> IsTrimmed(v) && !IsEmptyStr(v)
  {
    if field !in ValueFields {
      return [];
    }
    values := [];
    var i := 0;
    while i < |records|
      invariant 0 <= i <= |records|
      invariant values == TrimmedValues(records[..i])
    {
      var v := Trim(records[i]);
      if !IsEmptyStr(v) {
        values := values + [v];
      }
      assert records[..i + 1][..i] == records[..i];
      i := i + 1;
    }
    assert records[..i] == records;
    TrimmedValuesClean(records);
  }
}
