/** The cohort gate of the AI Tools plugin (classes/cohort_manager.php).

    The table `local_aitools_cohorts` holds (subplugin, cohort) restriction rows.
    A subplugin without rows is open to everybody; a subplugin with rows is open
    to members of any one of its cohorts. Whenever a lookup fails the gate opens
    (fail-open). Administrators add, remove and clear rows. */
module CohortManager {

  type CohortId = int
  type UserId = int

  /** One row of `local_aitools_cohorts`; the table is modelled as a set of these. */
  datatype Restriction = Restriction(subplugin: string, cohort: CohortId)

  /** One row of Moodle's `cohort_members`. */
  datatype Membership = Membership(cohort: CohortId, user: UserId)

  datatype AccessStatistics = AccessStatistics(totalUsers: nat, totalCohorts: nat, unrestricted: bool)

  /** The statistics reported when the table is missing or a query fails. */
  const EmptyStatistics := AccessStatistics(0, 0, true)

  /** The cohorts a user belongs to, read from `cohort_members`. */
  function CohortsOfUser(members: set<Membership>, user: UserId): set<CohortId> {
    set m | m in members && m.user == user :: m.cohort
  }

  /** The distinct users that belong to at least one of `cohorts`. */
  function UsersIn(members: set<Membership>, cohorts: set<CohortId>): set<UserId> {
    set m | m in members && m.cohort in cohorts :: m.user
  }

  /** The users counted by the statistics are exactly the users the gate lets
      through because of a restricting cohort. */
  lemma CountedUsersAreGateMembers(members: set<Membership>, cohorts: set<CohortId>, user: UserId)
    ensures user in UsersIn(members, cohorts) <==> cohorts * CohortsOfUser(members, user) != {}
  {
    if cohorts * CohortsOfUser(members, user) != {} {
      var c :| c in cohorts * CohortsOfUser(members, user);
      var m :| m in members && m.user == user && m.cohort == c;
      assert user in UsersIn(members, cohorts);
    }
    if user in UsersIn(members, cohorts) {
      var m :| m in members && m.cohort in cohorts && m.user == user;
      assert m.cohort in cohorts * CohortsOfUser(members, user);
    }
  }

  /** The rows of `table` restricting `subplugin`. */
  function RowsFor(table: set<Restriction>, subplugin: string): set<Restriction> {
    set r | r in table && r.subplugin == subplugin
  }

  /** The cohorts of `table` restricting `subplugin`. */
  function CohortsFor(table: set<Restriction>, subplugin: string): set<CohortId> {
    set r | r in table && r.subplugin == subplugin :: r.cohort
  }

  /** A subplugin has no restricting cohort exactly when it has no row. */
  lemma NoCohortsIffNoRows(table: set<Restriction>, subplugin: string)
    ensures CohortsFor(table, subplugin) == {} <==> RowsFor(table, subplugin) == {}
  {
    if RowsFor(table, subplugin) != {} {
      var r :| r in RowsFor(table, subplugin);
      assert r.cohort in CohortsFor(table, subplugin);
    }
    if CohortsFor(table, subplugin) != {} {
      var c :| c in CohortsFor(table, subplugin);
      var r :| r in table && r.subplugin == subplugin && r.cohort == c;
      assert r in RowsFor(table, subplugin);
    }
  }

  class RestrictionTable {
    /** Whether the database has the table at all. */
    var tableExists: bool
    var rows: set<Restriction>

    constructor (tableExists: bool, rows: set<Restriction>)
      ensures this.tableExists == tableExists && this.rows == rows
    {
      this.tableExists := tableExists;
      this.rows := rows;
    }

    /** The rows restricting `subplugin`. */
    function RowsOf(subplugin: string): set<Restriction>
      reads this
    {
      RowsFor(rows, subplugin)
    }

    /** The cohorts restricting `subplugin`. */
    function CohortsOf(subplugin: string): set<CohortId>
      reads this
    {
      CohortsFor(rows, subplugin)
    }

    /** has_cohort_access: `userCohorts` are the cohorts of the user asked about
        (the current user when the caller passes 0); `lookupFails` stands for an
        exception raised by any database read, which the source turns into `true`. */
    method HasCohortAccess(subplugin: string, userCohorts: set<CohortId>, lookupFails: bool)
      returns (allowed: bool)
      ensures allowed <==>
        || !tableExists
        || lookupFails
        || CohortsOf(subplugin) == {}
        || CohortsOf(subplugin) * userCohorts != {}
    {
      if lookupFails || !tableExists {
        return true;
      }
      var restricting := CohortsOf(subplugin);
      if restricting == {} {
        return true;
      }
      var pending := restricting;
      while pending != {}
        invariant pending <= restricting
        invariant forall c :: c in restricting && c !in pending ==> c !in userCohorts
        decreases |pending|
      {
        var c :| c in pending;
        if c in userCohorts {
          assert c in restricting * userCohorts;
          return true;
        }
        pending := pending - {c};
      }
      return false;
    }

    /** add_cohort_restriction: inserts the pair unless the table is missing, a
        query fails or the pair is already there; reports whether it inserted. */
    method AddCohortRestriction(subplugin: string, cohort: CohortId, lookupFails: bool)
      returns (ok: bool)
      modifies this
      ensures tableExists == old(tableExists)
      ensures ok == (tableExists && !lookupFails && Restriction(subplugin, cohort) !in old(rows))
      ensures rows == if ok then old(rows) + {Restriction(subplugin, cohort)} else old(rows)
    {
      if !tableExists || lookupFails {
        return false;
      }
      if Restriction(subplugin, cohort) in rows {
        return false;
      }
      rows := rows + {Restriction(subplugin, cohort)};
      return true;
    }

    /** remove_cohort_restriction: deletes exactly the matching pair. */
    method RemoveCohortRestriction(subplugin: string, cohort: CohortId, lookupFails: bool)
      returns (ok: bool)
      modifies this
      ensures tableExists == old(tableExists)
      ensures ok == (tableExists && !lookupFails)
      ensures rows == if ok then old(rows) - {Restriction(subplugin, cohort)} else old(rows)
    {
      if !tableExists || lookupFails {
        return false;
      }
      rows := rows - {Restriction(subplugin, cohort)};
      return true;
    }

    /** clear_cohort_restrictions: deletes every row of `subplugin` and no other. */
    method ClearCohortRestrictions(subplugin: string, lookupFails: bool)
      returns (ok: bool)
      modifies this
      ensures tableExists == old(tableExists)
      ensures ok == (tableExists && !lookupFails)
      ensures ok ==> rows == old(rows) - old(RowsOf(subplugin))
      ensures ok ==> CohortsOf(subplugin) == {}
      ensures ok ==> forall other :: other != subplugin ==> RowsOf(other) == old(RowsOf(other))
      ensures !ok ==> rows == old(rows)
    {
      if !tableExists || lookupFails {
        return false;
      }
      rows := set r | r in rows && r.subplugin != subplugin;
      return true;
    }

    /** get_access_statistics: distinct users in the restricting cohorts, number
        of restriction rows, and whether the subplugin is unrestricted. */
    method GetAccessStatistics(subplugin: string, members: set<Membership>, lookupFails: bool)
      returns (stats: AccessStatistics)
      ensures !tableExists || lookupFails ==> stats == EmptyStatistics
      ensures tableExists && !lookupFails ==>
        && stats.totalCohorts == |RowsOf(subplugin)|
        && stats.totalUsers == |UsersIn(members, CohortsOf(subplugin))|
        && (stats.unrestricted <==> CohortsOf(subplugin) == {})
    {
      if !tableExists || lookupFails {
        return EmptyStatistics;
      }
      var totalUsers := |UsersIn(members, CohortsOf(subplugin))|;
      var totalCohorts := |RowsOf(subplugin)|;
      NoCohortsIffNoRows(rows, subplugin);
      return AccessStatistics(totalUsers, totalCohorts, totalCohorts == 0);
    }
  }

  /** Adding the same pair twice leaves the table as one addition does, and the
      second call reports that it added nothing. */
  method AddTwice(table: RestrictionTable, subplugin: string, cohort: CohortId)
    returns (first: bool, second: bool)
    modifies table
    ensures !second
    ensures table.rows == if first then old(table.rows) + {Restriction(subplugin, cohort)} else old(table.rows)
  {
    first := table.AddCohortRestriction(subplugin, cohort, false);
    second := table.AddCohortRestriction(subplugin, cohort, false);
  }

  /** An unrestricted subplugin lets every user through, and statistics report
      it as unrestricted with nobody counted. */
  method UnrestrictedIsOpen(table: RestrictionTable, subplugin: string, userCohorts: set<CohortId>,
                            members: set<Membership>)
    returns (allowed: bool, stats: AccessStatistics)
    requires table.CohortsOf(subplugin) == {}
    ensures allowed
    ensures stats.unrestricted && stats.totalUsers == 0 && stats.totalCohorts == 0
  {
    allowed := table.HasCohortAccess(subplugin, userCohorts, false);
    stats := table.GetAccessStatistics(subplugin, members, false);
    NoCohortsIffNoRows(table.rows, subplugin);
  }
}
