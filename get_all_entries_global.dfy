/** The global entry listing web service of ValueMapDoc
    (plugins/valuemapdoc/classes/external/get_all_entries_global.php).

    For the user it finds the visible ValueMapDoc modules of the courses the
    user is actively enrolled in, reads each module's entries under the
    module's group mode, newest first, concatenates the lists in module
    order, cuts out a page when asked, and reports each entry with its
    course and activity context, default values for missing fields, and a
    relative modification time, together with entry, course and activity
    counts. */
module GetAllEntriesGlobal {
  import opened Common
  import opened Sorting
  import DataProvider

  /** A row of the module query: a course module with its course and
      activity names. `activity` is the module's instance id. */
  datatype CmInfo = CmInfo(cmid: int, instance: int, courseId: int, courseName: string,
                           courseShortname: string, activityName: string)

  /** A course module row before the module query's conditions. */
  datatype CmRow = CmRow(info: CmInfo, isValuemapdoc: bool, visible: int)

  /** A row of `enrol` joined with `user_enrolments`. */
  datatype Enrolment = Enrolment(courseid: int, userid: int, enrolmentStatus: int, methodStatus: int)

  /** A row of `valuemapdoc_entries` joined with its author; `values` holds
      the value fields that are not NULL. */
  datatype RawEntry = RawEntry(id: int, cid: int, userid: int, groupid: int, timemodified: int,
                               values: map<string, string>, ismaster: Option<int>, username: string)

  /** An entry with the context constants of its module. */
  datatype ContextEntry = ContextEntry(raw: RawEntry, cm: CmInfo)

  datatype Db = Db(cms: seq<CmRow>, enrolments: seq<Enrolment>, entries: seq<RawEntry>)

  /** The relative time of format_time_ago, before its language strings. */
  datatype TimeAgo = JustNow | MinutesAgo(minutes: int) | HoursAgo(hours: int) | DaysAgo(days: int)
                   | OnDate(timestamp: int)

  datatype FormattedEntry = FormattedEntry(
    id: int, userid: int, cmid: int, courseId: int, courseName: string, courseShortname: string,
    activityId: int, activityName: string, values: map<string, string>, username: string, ismaster: int,
    timemodified: int, timemodifiedFormatted: TimeAgo, timecreated: int, timecreatedFormatted: TimeAgo)

  datatype EntryStatistics = EntryStatistics(totalEntries: nat, uniqueCourses: nat, uniqueActivities: nat)

  datatype Pagination = Pagination(page: int, limit: int, total: nat, hasMore: bool)

  datatype Listing = Listing(entries: seq<FormattedEntry>, statistics: EntryStatistics, pagination: Pagination)

  /** The twenty value fields of an entry. */
  const EntryFields: seq<string> := ["market", "industry", "role", "businessgoal", "strategy", "difficulty",
    "situation", "statusquo", "coi", "differentiator", "impact", "newstate", "successmetric",
    "impactstrategy", "impactbusinessgoal", "impactothers", "proof", "time2results", "quote", "clientname"]

  /** get_empty_statistics. */
  const EmptyStatistics := EntryStatistics(0, 0, 0)

  const EmptyListing := Listing([], EmptyStatistics, Pagination(0, 0, 0, false))

  // ---- get_accessible_course_modules

  /** The module query: ValueMapDoc modules that are visible, in a course
      where the user has an active enrolment by an active method. */
  function CmSelected(enrolments: seq<Enrolment>, user: int): CmRow -> bool {
    (row: CmRow) => && row.isValuemapdoc && row.visible == 1
      && exists en :: en in enrolments && en.courseid == row.info.courseId && en.userid == user
                      && en.enrolmentStatus == 0 && en.methodStatus == 0
  }

  function Info(row: CmRow): CmInfo {
    row.info
  }

  /** get_accessible_course_modules. */
  function AccessibleCms(db: Db, user: int): seq<CmInfo> {
    MapSeq(Filter(db.cms, CmSelected(db.enrolments, user)), Info)
  }

  // ---- get_entries_with_context

  /** The per-module query: the module's entries and, in a separate-groups
      module the viewing session user may not see across, only those of
      the target user's groups in the course, or the target user's own
      entries when that user is in no group there. */
  function ActivityClause(site: DataProvider.Site, cm: CmInfo, user: int, session: int): RawEntry -> bool {
    (e: RawEntry) =>
      && e.cid == cm.cmid
      && ((site.groupMode(cm.cmid) == DataProvider.SeparateGroups
           && !site.moduleCap("moodle/site:accessallgroups", cm.cmid, session)) ==>
            var groups := site.courseGroups(cm.courseId, user);
             if groups != {} then e.groupid in groups else e.userid == user)
  }

  /** ORDER BY e.timemodified DESC, as an ascending sort on the negated time. */
  function NewestFirst(e: RawEntry): int {
    -e.timemodified
  }

  function WithContext(cm: CmInfo): RawEntry -> ContextEntry {
    (e: RawEntry) => ContextEntry(e, cm)
  }

  /** One module's entries, newest first, with its context constants. */
  function ActivityEntries(site: DataProvider.Site, entries: seq<RawEntry>, cm: CmInfo, user: int,
                           session: int): seq<ContextEntry> {
    MapSeq(SortBy(Filter(entries, ActivityClause(site, cm, user, session)), NewestFirst), WithContext(cm))
  }

  /** The modules' entry lists, concatenated in module order. */
  function AllEntries(site: DataProvider.Site, entries: seq<RawEntry>, cms: seq<CmInfo>, user: int,
                      session: int): seq<ContextEntry> {
    if cms == [] then []
    else AllEntries(site, entries, cms[..|cms| - 1], user, session)
         + ActivityEntries(site, entries, cms[|cms| - 1], user, session)
  }

  /** The page cut: only with a positive limit and a positive page, the
      `limit` entries from (page - 1) * limit on; otherwise everything. */
  function Paginate<T>(s: seq<T>, page: int, limit: int): (r: seq<T>)
    ensures limit > 0 && page > 0 ==>
      && |r| <= limit
      && (r != [] ==> (page - 1) * limit + |r| <= |s|)
      && (forall k :: 0 <= k < |r| ==> r[k] == s[(page - 1) * limit + k])
      && ((page - 1) * limit + limit <= |s| ==> |r| == limit)
    ensures !(limit > 0 && page > 0) ==> r == s
  {
    if limit > 0 && page > 0 then Slice(s, (page - 1) * limit, limit) else s
  }

  /** get_entries_with_context. */
  method EntriesWithContext(site: DataProvider.Site, entries: seq<RawEntry>, cms: seq<CmInfo>, user: int,
                            session: int, page: int, limit: int) returns (r: seq<ContextEntry>)
    ensures r == Paginate(AllEntries(site, entries, cms, user, session), page, limit)
  {
    if cms == [] {
      return [];
    }
    var all: seq<ContextEntry> := [];
    for i := 0 to |cms|
      invariant all == AllEntries(site, entries, cms[..i], user, session)
    {
      assert cms[..i + 1][..i] == cms[..i];
      all := all + ActivityEntries(site, entries, cms[i], user, session);
    }
    assert cms[..|cms|] == cms;
    r := Paginate(all, page, limit);
  }

  lemma MapSeqWithContext(s: seq<RawEntry>, cm: CmInfo, e: RawEntry, c: CmInfo)
    ensures ContextEntry(e, c) in MapSeq(s, WithContext(cm)) <==> c == cm && e in s
  {
    var m := MapSeq(s, WithContext(cm));
    if c == cm && e in s {
      var k :| 0 <= k < |s| && s[k] == e;
      assert m[k] == ContextEntry(e, c);
    }
  }

  /** A module's list carries that module's context throughout, newest
      first. */
  lemma ActivityEntriesSorted(site: DataProvider.Site, entries: seq<RawEntry>, cm: CmInfo, user: int,
                              session: int)
    ensures var a := ActivityEntries(site, entries, cm, user, session);
      && (forall i :: 0 <= i < |a| ==> a[i].cm == cm)
      && (forall i, j :: 0 <= i < j < |a| ==> a[i].raw.timemodified >= a[j].raw.timemodified)
  {
    var sorted := SortBy(Filter(entries, ActivityClause(site, cm, user, session)), NewestFirst);
    var a := ActivityEntries(site, entries, cm, user, session);
    forall i, j | 0 <= i < j < |a|
      ensures a[i].raw.timemodified >= a[j].raw.timemodified
    {
      assert a[i].raw == sorted[i] && a[j].raw == sorted[j];
    }
  }

  /** A module's list holds exactly the module's entries the group rule
      lets through. */
  lemma ActivityEntriesIff(site: DataProvider.Site, entries: seq<RawEntry>, cm: CmInfo, user: int,
                           session: int, e: RawEntry, c: CmInfo)
    ensures ContextEntry(e, c) in ActivityEntries(site, entries, cm, user, session) <==>
      c == cm && e in entries && ActivityClause(site, cm, user, session)(e)
  {
    var p := ActivityClause(site, cm, user, session);
    var f := Filter(entries, p);
    var sorted := SortBy(f, NewestFirst);
    MapSeqWithContext(sorted, cm, e, c);
    assert e in sorted <==> e in multiset(sorted);
    assert e in f <==> e in multiset(f);
    if e in entries && p(e) {
      FilterKeeps(entries, p, e);
    }
  }

  /** The group rule, mode by mode: outside separate groups, and in
      separate groups for a session user holding accessallgroups, every
      entry of the module; otherwise the entries of the target user's
      groups, or that user's own entries when the user is in no group. The
      target user's own accessallgroups plays no part. */
  lemma ActivityClauseByMode(site: DataProvider.Site, cm: CmInfo, user: int, session: int, e: RawEntry)
    requires e.cid == cm.cmid
    ensures site.groupMode(cm.cmid) != DataProvider.SeparateGroups ==> ActivityClause(site, cm, user, session)(e)
    ensures site.moduleCap("moodle/site:accessallgroups", cm.cmid, session) ==> ActivityClause(site, cm, user, session)(e)
    ensures (site.groupMode(cm.cmid) == DataProvider.SeparateGroups
             && !site.moduleCap("moodle/site:accessallgroups", cm.cmid, session)) ==>
      && (site.courseGroups(cm.courseId, user) != {} ==>
            (ActivityClause(site, cm, user, session)(e) <==> e.groupid in site.courseGroups(cm.courseId, user)))
      && (site.courseGroups(cm.courseId, user) == {} ==>
            (ActivityClause(site, cm, user, session)(e) <==> e.userid == user))
  {
  }

  /** The position of `x` in `s`: its first occurrence, |s| when absent. */
  function IndexOf<T(==)>(s: seq<T>, x: T): (k: nat)
    ensures k <= |s|
    ensures k < |s| <==> x in s
    ensures k < |s| ==> s[k] == x
    ensures forall j :: 0 <= j < k ==> s[j] != x
  {
    if s == [] then 0
    else if s[0] == x then 0
    else 1 + IndexOf(s[1..], x)
  }

  lemma {:induction false} IndexOfAppend<T>(s: seq<T>, c: T, x: T)
    requires x in s
    ensures IndexOf(s + [c], x) == IndexOf(s, x)
  {
    var k := IndexOf(s, x);
    var k' := IndexOf(s + [c], x);
    assert (s + [c])[k] == x;
  }

  ghost predicate InModuleOrder(r: seq<ContextEntry>, cms: seq<CmInfo>) {
    && (forall a :: 0 <= a < |r| ==> r[a].cm in cms)
    && (forall a, b :: 0 <= a < b < |r| ==> IndexOf(cms, r[a].cm) <= IndexOf(cms, r[b].cm))
    && (forall a, b :: 0 <= a < b < |r| && r[a].cm == r[b].cm ==> r[a].raw.timemodified >= r[b].raw.timemodified)
  }

  /** The concatenation runs module by module in the order of the module
      query, and within a module newest first: an earlier entry never
      belongs to a later module, and two entries of one module are in
      descending modification time. Every entry carries one of the
      modules' context. */
  lemma {:induction false} AllEntriesOrder(site: DataProvider.Site, entries: seq<RawEntry>, cms: seq<CmInfo>,
                                           user: int, session: int)
    requires forall i, j :: 0 <= i < j < |cms| ==> cms[i] != cms[j]
    ensures InModuleOrder(AllEntries(site, entries, cms, user, session), cms)
  {
    if cms != [] {
      var init, c := cms[..|cms| - 1], cms[|cms| - 1];
      assert cms == init + [c];
      AllEntriesOrder(site, entries, init, user, session);
      ActivityEntriesSorted(site, entries, c, user, session);
      OrderAppend(AllEntries(site, entries, init, user, session), ActivityEntries(site, entries, c, user, session), init, c);
    }
  }

  /** Appending a newest-first block of a new module keeps module order. */
  lemma OrderAppend(prev: seq<ContextEntry>, last: seq<ContextEntry>, init: seq<CmInfo>, c: CmInfo)
    requires InModuleOrder(prev, init) && c !in init
    requires forall i :: 0 <= i < |last| ==> last[i].cm == c
    requires forall i, j :: 0 <= i < j < |last| ==> last[i].raw.timemodified >= last[j].raw.timemodified
    ensures InModuleOrder(prev + last, init + [c])
  {
    var cms, r := init + [c], prev + last;
    forall a | 0 <= a < |prev|
      ensures IndexOf(cms, prev[a].cm) == IndexOf(init, prev[a].cm) < |init|
    {
      IndexOfAppend(init, c, prev[a].cm);
    }
    assert IndexOf(cms, c) == |init|;
    forall a | 0 <= a < |r|
      ensures r[a].cm in cms
    {
      if a < |prev| {
        assert r[a] == prev[a];
      } else {
        assert r[a] == last[a - |prev|];
      }
    }
    forall a, b | 0 <= a < b < |r|
      ensures IndexOf(cms, r[a].cm) <= IndexOf(cms, r[b].cm)
      ensures r[a].cm == r[b].cm ==> r[a].raw.timemodified >= r[b].raw.timemodified
    {
      if b < |prev| {
        assert r[a] == prev[a] && r[b] == prev[b];
      } else if a < |prev| {
        assert r[a] == prev[a] && r[b] == last[b - |prev|];
      } else {
        assert r[a] == last[a - |prev|] && r[b] == last[b - |prev|];
      }
    }
  }

  // ---- format_time_ago and format_entry

  /** format_time_ago, with `now` for time(). */
  function FormatTimeAgo(now: int, timestamp: int): (r: TimeAgo)
    ensures r == JustNow <==> now - timestamp < 60
    ensures r.MinutesAgo? <==> 60 <= now - timestamp < 3600
    ensures r.HoursAgo? <==> 3600 <= now - timestamp < 86400
    ensures r.DaysAgo? <==> 86400 <= now - timestamp < 604800
    ensures r.OnDate? <==> 604800 <= now - timestamp
    ensures r.MinutesAgo? ==> 1 <= r.minutes < 60 && r.minutes * 60 <= now - timestamp < (r.minutes + 1) * 60
    ensures r.HoursAgo? ==> 1 <= r.hours < 24 && r.hours * 3600 <= now - timestamp < (r.hours + 1) * 3600
    ensures r.DaysAgo? ==> 1 <= r.days < 7 && r.days * 86400 <= now - timestamp < (r.days + 1) * 86400
    ensures r.OnDate? ==> r.timestamp == timestamp
  {
    var diff := now - timestamp;
    if diff < 60 then JustNow
    else if diff < 3600 then MinutesAgo(diff / 60)
    else if diff < 86400 then HoursAgo(diff / 3600)
    else if diff < 604800 then DaysAgo(diff / 86400)
    else OnDate(timestamp)
  }

  /** The value fields with '' for every one that is NULL. */
  function FieldValues(stored: map<string, string>): map<string, string> {
    map f | f in EntryFields :: if f in stored then stored[f] else ""
  }

  /** format_entry, with `now` for time(). */
  function FormatEntry(e: ContextEntry, now: int): (r: FormattedEntry)
    ensures r.values.Keys == set f | f in EntryFields
    ensures forall f :: f in EntryFields && f in e.raw.values ==> r.values[f] == e.raw.values[f]
    ensures forall f :: f in EntryFields && f !in e.raw.values ==> r.values[f] == ""
    ensures r.ismaster == if e.raw.ismaster.Some? then e.raw.ismaster.value else 0
    ensures r.timecreated == r.timemodified == e.raw.timemodified
    ensures r.timecreatedFormatted == r.timemodifiedFormatted == FormatTimeAgo(now, e.raw.timemodified)
    ensures (r.id, r.userid, r.cmid, r.courseId, r.activityId) == (e.raw.id, e.raw.userid, e.cm.cmid, e.cm.courseId, e.cm.instance)
  {
    var ago := FormatTimeAgo(now, e.raw.timemodified);
    FormattedEntry(e.raw.id, e.raw.userid, e.cm.cmid, e.cm.courseId, e.cm.courseName, e.cm.courseShortname,
                   e.cm.instance, e.cm.activityName, FieldValues(e.raw.values), e.raw.username,
                   e.raw.ismaster.GetOr(0), e.raw.timemodified, ago, e.raw.timemodified, ago)
  }

  function Formatter(now: int): ContextEntry -> FormattedEntry {
    (e: ContextEntry) => FormatEntry(e, now)
  }

  // ---- execute

  function CourseIds(es: seq<ContextEntry>): set<int> {
    set e | e in es :: e.cm.courseId
  }

  function ActivityIds(es: seq<ContextEntry>): set<int> {
    set e | e in es :: e.cm.instance
  }

  /** There are no more distinct courses and activities than entries. */
  lemma {:induction false} UniqueCountsBounded(es: seq<ContextEntry>)
    ensures |CourseIds(es)| <= |es| && |ActivityIds(es)| <= |es|
  {
    if es != [] {
      var init, last := es[..|es| - 1], es[|es| - 1];
      UniqueCountsBounded(init);
      assert CourseIds(es) == CourseIds(init) + {last.cm.courseId};
      assert ActivityIds(es) == ActivityIds(init) + {last.cm.instance};
    }
  }

  /** execute. `canView` is `local/aitools:view` in the system context and
      `now` stands for time(). A user id of 0 means the session user. */
  method Execute(site: DataProvider.Site, db: Db, canView: bool, userid: int, page: int, limit: int,
                 session: int, now: int) returns (r: Outcome<Listing>)
    ensures !canView ==> r == Raised("nopermissions")
    ensures canView ==> r.Done?
    ensures canView && AccessibleCms(db, DataProvider.EffectiveUser(userid, session)) == [] ==> r.value == EmptyListing
    ensures canView && AccessibleCms(db, DataProvider.EffectiveUser(userid, session)) != [] ==>
      var user := DataProvider.EffectiveUser(userid, session);
      var es := Paginate(AllEntries(site, db.entries, AccessibleCms(db, user), user, session), page, limit);
      && r.value.entries == MapSeq(es, Formatter(now))
      && r.value.statistics == EntryStatistics(|es|, |CourseIds(es)|, |ActivityIds(es)|)
      && r.value.pagination == Pagination(page, limit, |es|, false)
  {
    if !canView {
      return Raised("nopermissions");
    }
    var user := DataProvider.EffectiveUser(userid, session);
    var cms := AccessibleCms(db, user);
    if cms == [] {
      return Done(EmptyListing);
    }
    var entries := EntriesWithContext(site, db.entries, cms, user, session, page, limit);
    var formatted, courseStats, activityStats := FormatEntries(entries, now);
    var statistics := EntryStatistics(|formatted|, |courseStats|, |activityStats|);
    return Done(Listing(formatted, statistics, Pagination(page, limit, |formatted|, false)));
  }

  /** The loop of execute: each entry formatted, and its course and
      activity names recorded under their ids. */
  method FormatEntries(entries: seq<ContextEntry>, now: int)
    returns (formatted: seq<FormattedEntry>, courseStats: map<int, string>, activityStats: map<int, string>)
    ensures formatted == MapSeq(entries, Formatter(now))
    ensures courseStats.Keys == CourseIds(entries) && activityStats.Keys == ActivityIds(entries)
    ensures forall e :: e in entries ==> e.cm.courseId in courseStats && e.cm.instance in activityStats
  {
    formatted, courseStats, activityStats := [], map[], map[];
    for i := 0 to |entries|
      invariant formatted == MapSeq(entries[..i], Formatter(now))
      invariant courseStats.Keys == CourseIds(entries[..i])
      invariant activityStats.Keys == ActivityIds(entries[..i])
    {
      var e := entries[i];
      assert entries[..i + 1] == entries[..i] + [e];
      formatted := formatted + [FormatEntry(e, now)];
      courseStats := courseStats[e.cm.courseId := e.cm.courseName];
      activityStats := activityStats[e.cm.instance := e.cm.activityName];
    }
    assert entries[..|entries|] == entries;
  }

  /** The two entry views part ways on ungrouped entries: in a
      separate-groups module, an entry outside any group written by someone
      else stays visible in the data provider's table, while this listing
      hides it from a user without accessallgroups. */
  lemma UngroupedEntryDiverges(site: DataProvider.Site, cm: CmInfo, user: int, session: int, e: RawEntry)
    requires site.groupMode(cm.cmid) == DataProvider.SeparateGroups
    requires !site.moduleCap("moodle/site:accessallgroups", cm.cmid, session)
    requires !site.moduleCap("moodle/site:accessallgroups", cm.cmid, user)
    requires e.cid == cm.cmid && e.groupid == 0 && e.userid != user
    requires 0 !in site.courseGroups(cm.courseId, user)
    ensures DataProvider.KeepEntry(site, user)(
      DataProvider.Entry(e.id, e.userid, cm.cmid, cm.courseId, e.groupid, site.groupMode(cm.cmid),
                         e.timemodified, cm.courseShortname, cm.activityName))
    ensures !ActivityClause(site, cm, user, session)(e)
  {
  }
}
