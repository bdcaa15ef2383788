/** The ValueMapDoc data provider (plugins/valuemapdoc/classes/data_provider.php).

    It decides which value map entries, generated content and templates a
    user may see. Entries and content pass a group filter written into the
    query, then a per-module access check (enrolment or course:view, the
    module visible to the user, a module capability). The entry table of the
    dashboard applies Moodle's group modes row by row instead and inserts a
    separator row wherever the (course, activity) pair changes. Templates
    pass a scope clause and a per-scope switch. The statistics count these
    lists, and the grouped view files content by course and activity. */
module DataProvider {
  import opened Common
  import Grouping

  /** Moodle's group modes. */
  const NoGroups := 0
  const SeparateGroups := 1
  const VisibleGroups := 2

  /** Seven days in seconds. */
  const Week := 7 * 24 * 60 * 60

  /** The Moodle services the provider consults, as oracles. */
  datatype Site = Site(
    /** is_enrolled(course context, user). */
    enrolled: (int, int) -> bool,
    /** has_capability(capability, course context of course, user). */
    courseCap: (string, int, int) -> bool,
    /** has_capability(capability, module context of cm, user). */
    moduleCap: (string, int, int) -> bool,
    /** get_fast_modinfo(course, user)->cms[cm]: None when the module is
        absent, otherwise its uservisible flag. */
    modinfo: (int, int, int) -> Option<bool>,
    /** context_course::instance(course) raises. */
    courseMissing: int -> bool,
    /** context_module::instance(cm) raises. */
    moduleMissing: int -> bool,
    /** groups_get_activity_groupmode of the module. */
    groupMode: int -> int,
    /** The course a module belongs to. */
    cmCourse: int -> int,
    /** groups_get_user_groups(course, user)[0]. */
    courseGroups: (int, int) -> set<int>)

  /** One row of `groups_members` joined with `groups`. */
  datatype GroupMember = GroupMember(userid: int, groupid: int, courseid: int)

  /** A value map entry joined with its course module, activity and course. */
  datatype Entry = Entry(id: int, userid: int, cmid: int, courseid: int, groupid: int, groupmode: int,
                         timemodified: int, coursename: string, activityname: string)

  /** A generated content row joined with its course module. */
  datatype Content = Content(id: int, userid: int, cmid: int, courseid: int, groupid: int, groupmode: int,
                             visibility: int, timecreated: int)

  datatype Template = Template(id: int, scope: string, courseid: int, userid: int, groupid: int,
                               isactive: int, name: string)

  /** A ValueMapDoc course module joined with its course. */
  datatype Cm = Cm(id: int, course: int, instance: int, groupmode: int, visible: int, courseVisible: int,
                   shortname: string, fullname: string, activityname: string)

  /** The queries that are wrapped in a try/catch. */
  datatype Query = GroupsQuery | EntriesQuery | ContentQuery | TemplatesQuery

  /** The tables the provider reads, and which of its guarded queries raise. */
  datatype Db = Db(members: seq<GroupMember>, entries: seq<Entry>, content: seq<Content>,
                   templates: seq<Template>, cms: seq<Cm>, fails: Query -> bool)

  datatype Statistics = Statistics(totalEntries: nat, totalContent: nat, totalTemplates: nat,
                                   entriesThisWeek: nat, contentThisWeek: nat,
                                   uniqueCourses: nat, uniqueActivities: nat)

  /** A row of the entry table: an entry, or the separator heading an
      activity's entries. */
  datatype Row = EntryRow(entry: Entry) | Separator(cmid: int, coursename: string, activityname: string)

  /** A user id of 0 stands for the session user. */
  function EffectiveUser(userid: int, session: int): (u: int)
    ensures userid != 0 ==> u == userid
    ensures userid == 0 ==> u == session
  {
    if userid == 0 then session else userid
  }

  // ---- get_user_groups

  function GroupIdsOf(members: seq<GroupMember>, user: int): set<int> {
    set m | m in members && m.userid == user :: m.groupid
  }

  /** The group ids get_user_groups returns: none when its query raises. */
  function GroupIds(db: Db, user: int): set<int> {
    if db.fails(GroupsQuery) then {} else GroupIdsOf(db.members, user)
  }

  /** get_user_groups: the user's groups, each mapped to its course. */
  method UserGroups(db: Db, user: int) returns (r: map<int, int>)
    ensures r.Keys == GroupIds(db, user)
    ensures forall g :: g in r ==> GroupMember(user, g, r[g]) in db.members
  {
    if db.fails(GroupsQuery) {
      return map[];
    }
    var members := db.members;
    r := map[];
    for i := 0 to |members|
      invariant r.Keys == GroupIdsOf(members[..i], user)
      invariant forall g :: g in r ==> GroupMember(user, g, r[g]) in members
    {
      assert members[..i + 1] == members[..i] + [members[i]];
      if members[i].userid == user {
        r := r[members[i].groupid := members[i].courseid];
      }
    }
    assert members[..|members|] == members;
  }

  // ---- build_group_filter_sql

  /** The group clause as the query builder writes it: without groups only
      modules in mode 0 pass; otherwise modes 0 and 1 pass, and mode 2
      passes for the user's groups. */
  predicate GroupFilterAsWritten(groupmode: int, groupid: int, groups: set<int>) {
    if groups == {} then groupmode == 0
    else groupmode == 0 || groupmode == 1 || (groupmode == 2 && groupid in groups)
  }

  /** The group clause with the modes the builder's own comments name: all
      rows of no-groups and visible-groups modules, and the rows of the
      user's groups in a separate-groups module. */
  predicate GroupFilterPasses(groupmode: int, groupid: int, groups: set<int>) {
    if groups == {} then groupmode == NoGroups
    else groupmode == NoGroups || groupmode == VisibleGroups || (groupmode == SeparateGroups && groupid in groups)
  }

  /** As written, the numeric codes swap Moodle's two group modes: a
      separate-groups module shows a row of a group the user is not in,
      and a visible-groups module hides it. */
  lemma GroupFilterModesSwapped()
    ensures GroupFilterAsWritten(SeparateGroups, 5, {7}) && !GroupFilterPasses(SeparateGroups, 5, {7})
    ensures !GroupFilterAsWritten(VisibleGroups, 5, {7}) && GroupFilterPasses(VisibleGroups, 5, {7})
  {
  }

  /** The corrected clause: a user without groups sees exactly the
      no-groups modules; a user with groups sees every row of a no-groups or
      visible-groups module, and a row of a separate-groups module exactly
      when it belongs to one of the user's groups. */
  lemma GroupFilterIntended(groupmode: int, groupid: int, groups: set<int>)
    ensures groups == {} ==> (GroupFilterPasses(groupmode, groupid, groups) <==> groupmode == NoGroups)
    ensures groups != {} && (groupmode == NoGroups || groupmode == VisibleGroups) ==>
      GroupFilterPasses(groupmode, groupid, groups)
    ensures groupmode == SeparateGroups ==> (GroupFilterPasses(groupmode, groupid, groups) <==> groupid in groups)
    ensures groupmode !in {NoGroups, SeparateGroups, VisibleGroups} ==> !GroupFilterPasses(groupmode, groupid, groups)
  {
  }

  // ---- can_access_course_module

  /** can_access_course_module: enrolled or holding course:view, the module
      present and visible to the user, and the module capability held. A
      course or module context that cannot be built raises, and the caught
      exception denies access. */
  function CanAccessCourseModule(site: Site, cmid: int, courseid: int, user: int, capability: string): (r: bool)
    ensures r <==>
      && !site.courseMissing(courseid)
      && (site.enrolled(courseid, user) || site.courseCap("moodle/course:view", courseid, user))
      && site.modinfo(courseid, user, cmid) == Some(true)
      && !site.moduleMissing(cmid)
      && site.moduleCap(capability, cmid, user)
  {
    if site.courseMissing(courseid) then false
    else if !site.enrolled(courseid, user) && !site.courseCap("moodle/course:view", courseid, user) then false
    else match site.modinfo(courseid, user, cmid)
      case None => false
      case Some(userVisible) =>
        if !userVisible then false
        else if site.moduleMissing(cmid) then false
        else site.moduleCap(capability, cmid, user)
  }

  // ---- get_accessible_entries

  function EntrySql(groups: set<int>): Entry -> bool {
    (e: Entry) => GroupFilterPasses(e.groupmode, e.groupid, groups)
  }

  function EntryAccess(site: Site, user: int): Entry -> bool {
    (e: Entry) => CanAccessCourseModule(site, e.cmid, e.courseid, user, "mod/valuemapdoc:manageentries")
  }

  /** The entries get_accessible_entries returns. */
  function EntriesFor(site: Site, db: Db, user: int): seq<Entry> {
    if db.fails(EntriesQuery) then []
    else Filter(Filter(db.entries, EntrySql(GroupIds(db, user))), EntryAccess(site, user))
  }

  /** get_accessible_entries. */
  method AccessibleEntries(site: Site, db: Db, userid: int, session: int) returns (r: seq<Entry>)
    ensures r == EntriesFor(site, db, EffectiveUser(userid, session))
  {
    var user := EffectiveUser(userid, session);
    var groups := UserGroups(db, user);
    if db.fails(EntriesQuery) {
      return [];
    }
    var raw := Filter(db.entries, EntrySql(groups.Keys));
    r := [];
    for i := 0 to |raw|
      invariant r == Filter(raw[..i], EntryAccess(site, user))
    {
      assert raw[..i + 1] == raw[..i] + [raw[i]];
      if CanAccessCourseModule(site, raw[i].cmid, raw[i].courseid, user, "mod/valuemapdoc:manageentries") {
        r := r + [raw[i]];
      }
    }
    assert raw[..|raw|] == raw;
  }

  /** An entry is returned iff it is stored, passes the group clause for the
      user's groups, and the user may manage entries of its module. */
  lemma EntriesForIff(site: Site, db: Db, user: int, e: Entry)
    requires !db.fails(EntriesQuery)
    ensures e in EntriesFor(site, db, user) <==>
      && e in db.entries
      && GroupFilterPasses(e.groupmode, e.groupid, GroupIds(db, user))
      && CanAccessCourseModule(site, e.cmid, e.courseid, user, "mod/valuemapdoc:manageentries")
  {
    var raw := Filter(db.entries, EntrySql(GroupIds(db, user)));
    if e in db.entries && GroupFilterPasses(e.groupmode, e.groupid, GroupIds(db, user))
       && CanAccessCourseModule(site, e.cmid, e.courseid, user, "mod/valuemapdoc:manageentries") {
      FilterKeeps(db.entries, EntrySql(GroupIds(db, user)), e);
      FilterKeeps(raw, EntryAccess(site, user), e);
    }
  }

  /** The entries get_accessible_entries returns with the group clause as
      the query builder writes it. */
  function EntriesAsWritten(site: Site, db: Db, user: int): seq<Entry> {
    if db.fails(EntriesQuery) then []
    else Filter(Filter(db.entries, (e: Entry) => GroupFilterAsWritten(e.groupmode, e.groupid, GroupIds(db, user))),
                EntryAccess(site, user))
  }

  /** The swap reaches what get_accessible_entries returns: for a user with
      groups who may manage a module's entries, an entry of a group the user
      is not in is returned as written from a separate-groups module and
      withheld by the corrected clause, and the other way round for a
      visible-groups module. */
  lemma EntriesDivergeAsWritten(site: Site, db: Db, user: int, e: Entry)
    requires !db.fails(EntriesQuery) && e in db.entries
    requires GroupIds(db, user) != {} && e.groupid !in GroupIds(db, user)
    requires CanAccessCourseModule(site, e.cmid, e.courseid, user, "mod/valuemapdoc:manageentries")
    ensures e.groupmode == SeparateGroups ==> e in EntriesAsWritten(site, db, user) && e !in EntriesFor(site, db, user)
    ensures e.groupmode == VisibleGroups ==> e !in EntriesAsWritten(site, db, user) && e in EntriesFor(site, db, user)
  {
    var groups := GroupIds(db, user);
    var asWritten := (x: Entry) => GroupFilterAsWritten(x.groupmode, x.groupid, groups);
    EntriesForIff(site, db, user, e);
    if GroupFilterAsWritten(e.groupmode, e.groupid, groups) {
      FilterKeeps(db.entries, asWritten, e);
      FilterKeeps(Filter(db.entries, asWritten), EntryAccess(site, user), e);
    }
  }

  // ---- get_accessible_content

  /** The visibility clause: own private content, or shared content passing
      the group clause. */
  function ContentSql(groups: set<int>, user: int): Content -> bool {
    (c: Content) => (c.visibility == 1 && c.userid == user)
         || (c.visibility == 0 && GroupFilterPasses(c.groupmode, c.groupid, groups))
  }

  function ContentAccess(site: Site, user: int): Content -> bool {
    (c: Content) => CanAccessCourseModule(site, c.cmid, c.courseid, user, "mod/valuemapdoc:view")
  }

  /** The content get_accessible_content returns. */
  function ContentFor(site: Site, db: Db, user: int): seq<Content> {
    if db.fails(ContentQuery) then []
    else Filter(Filter(db.content, ContentSql(GroupIds(db, user), user)), ContentAccess(site, user))
  }

  /** get_accessible_content. */
  method AccessibleContent(site: Site, db: Db, userid: int, session: int) returns (r: seq<Content>)
    ensures r == ContentFor(site, db, EffectiveUser(userid, session))
  {
    var user := EffectiveUser(userid, session);
    var groups := UserGroups(db, user);
    if db.fails(ContentQuery) {
      return [];
    }
    var raw := Filter(db.content, ContentSql(groups.Keys, user));
    r := [];
    for i := 0 to |raw|
      invariant r == Filter(raw[..i], ContentAccess(site, user))
    {
      assert raw[..i + 1] == raw[..i] + [raw[i]];
      if CanAccessCourseModule(site, raw[i].cmid, raw[i].courseid, user, "mod/valuemapdoc:view") {
        r := r + [raw[i]];
      }
    }
    assert raw[..|raw|] == raw;
  }

  /** Private content (visibility 1) reaches its owner only; any other
      visibility value than 0 and 1 reaches nobody. */
  lemma PrivateContentOwnerOnly(site: Site, db: Db, user: int, c: Content)
    requires c in ContentFor(site, db, user)
    ensures c in db.content
    ensures c.visibility == 1 ==> c.userid == user
    ensures c.visibility == 0 || c.visibility == 1
    ensures CanAccessCourseModule(site, c.cmid, c.courseid, user, "mod/valuemapdoc:view")
  {
    var raw := Filter(db.content, ContentSql(GroupIds(db, user), user));
    assert c in raw;
  }

  /** The content get_accessible_content returns with the group clause as
      the query builder writes it. */
  function ContentAsWritten(site: Site, db: Db, user: int): seq<Content> {
    if db.fails(ContentQuery) then []
    else Filter(Filter(db.content, (c: Content) => (c.visibility == 1 && c.userid == user)
                         || (c.visibility == 0 && GroupFilterAsWritten(c.groupmode, c.groupid, GroupIds(db, user)))),
                ContentAccess(site, user))
  }

  /** The swap reaches what get_accessible_content returns: shared content of
      a group the user is not in, in a module the user may view, is
      returned as written from a separate-groups module and withheld by the
      corrected clause, and the other way round for a visible-groups module. */
  lemma ContentDivergeAsWritten(site: Site, db: Db, user: int, c: Content)
    requires !db.fails(ContentQuery) && c in db.content && c.visibility == 0
    requires GroupIds(db, user) != {} && c.groupid !in GroupIds(db, user)
    requires CanAccessCourseModule(site, c.cmid, c.courseid, user, "mod/valuemapdoc:view")
    ensures c.groupmode == SeparateGroups ==> c in ContentAsWritten(site, db, user) && c !in ContentFor(site, db, user)
    ensures c.groupmode == VisibleGroups ==> c !in ContentAsWritten(site, db, user) && c in ContentFor(site, db, user)
  {
    var groups := GroupIds(db, user);
    var asWritten := (x: Content) => (x.visibility == 1 && x.userid == user)
                         || (x.visibility == 0 && GroupFilterAsWritten(x.groupmode, x.groupid, groups));
    if GroupFilterAsWritten(c.groupmode, c.groupid, groups) {
      FilterKeeps(db.content, asWritten, c);
      FilterKeeps(Filter(db.content, asWritten), ContentAccess(site, user), c);
    }
    if GroupFilterPasses(c.groupmode, c.groupid, groups) {
      FilterKeeps(db.content, ContentSql(groups, user), c);
      FilterKeeps(Filter(db.content, ContentSql(groups, user)), ContentAccess(site, user), c);
    }
  }

  // ---- get_accessible_course_modules

  /** The module query: visible modules of visible courses. */
  function CmQuery(cm: Cm): bool {
    cm.visible == 1 && cm.courseVisible == 1
  }

  /** The loop's checks: enrolled or holding course:view, and holding
      the module's view capability; a context that cannot be built skips
      the module. */
  function CmAccess(site: Site, user: int): Cm -> bool {
    (cm: Cm) => && !site.moduleMissing(cm.id) && !site.courseMissing(cm.course)
          && (site.enrolled(cm.course, user) || site.courseCap("moodle/course:view", cm.course, user))
          && site.moduleCap("mod/valuemapdoc:view", cm.id, user)
  }

  /** The modules get_accessible_course_modules returns. */
  function CourseModulesFor(site: Site, cms: seq<Cm>, user: int): seq<Cm> {
    Filter(Filter(cms, CmQuery), CmAccess(site, user))
  }

  /** get_accessible_course_modules. */
  method AccessibleCourseModules(site: Site, cms: seq<Cm>, user: int) returns (r: seq<Cm>)
    ensures r == CourseModulesFor(site, cms, user)
  {
    var raw := Filter(cms, CmQuery);
    r := [];
    var i := 0;
    while i < |raw|
      invariant 0 <= i <= |raw|
      invariant r == Filter(raw[..i], CmAccess(site, user))
    {
      var cm := raw[i];
      assert raw[..i + 1] == raw[..i] + [cm];
      i := i + 1;
      if site.moduleMissing(cm.id) || site.courseMissing(cm.course) {
        continue;
      }
      if !site.enrolled(cm.course, user) && !site.courseCap("moodle/course:view", cm.course, user) {
        continue;
      }
      if site.moduleCap("mod/valuemapdoc:view", cm.id, user) {
        r := r + [cm];
      }
    }
    assert raw[..|raw|] == raw;
  }

  /** A module is returned iff it is visible in a visible course, its
      contexts exist, the user is enrolled or holds course:view, and holds
      the module's view capability. */
  lemma CourseModulesForIff(site: Site, cms: seq<Cm>, user: int, cm: Cm)
    ensures cm in CourseModulesFor(site, cms, user) <==>
      && cm in cms && cm.visible == 1 && cm.courseVisible == 1
      && !site.moduleMissing(cm.id) && !site.courseMissing(cm.course)
      && (site.enrolled(cm.course, user) || site.courseCap("moodle/course:view", cm.course, user))
      && site.moduleCap("mod/valuemapdoc:view", cm.id, user)
  {
    if cm in cms && CmQuery(cm) && CmAccess(site, user)(cm) {
      FilterKeeps(cms, CmQuery, cm);
      FilterKeeps(Filter(cms, CmQuery), CmAccess(site, user), cm);
    }
  }

  // ---- filter_entries_by_groups

  /** The row-by-row group rule: every entry of a no-groups or
      visible-groups module; in a separate-groups module, every entry for a
      holder of accessallgroups, otherwise the entries of the user's groups
      in that course and the entries outside any group; nothing in any other
      mode. */
  function KeepEntry(site: Site, user: int): Entry -> bool {
    (e: Entry) =>
      var mode := site.groupMode(e.cmid);
      if mode == NoGroups || mode == VisibleGroups then true
      else if mode == SeparateGroups then
        site.moduleCap("moodle/site:accessallgroups", e.cmid, user)
        || e.groupid in site.courseGroups(site.cmCourse(e.cmid), user)
        || e.groupid == 0
      else false
  }

  /** filter_entries_by_groups, with its per-module cache of group modes. */
  method FilterEntriesByGroups(site: Site, entries: seq<Entry>, user: int) returns (r: seq<Entry>)
    ensures r == Filter(entries, KeepEntry(site, user))
  {
    r := [];
    var cache: map<int, int> := map[];
    for i := 0 to |entries|
      invariant r == Filter(entries[..i], KeepEntry(site, user))
      invariant forall cm :: cm in cache ==> cache[cm] == site.groupMode(cm)
    {
      var e := entries[i];
      assert entries[..i + 1] == entries[..i] + [e];
      if e.cmid !in cache {
        cache := cache[e.cmid := site.groupMode(e.cmid)];
      }
      var mode := cache[e.cmid];
      if mode == NoGroups || mode == VisibleGroups {
        r := r + [e];
        continue;
      }
      if mode == SeparateGroups {
        if site.moduleCap("moodle/site:accessallgroups", e.cmid, user) {
          r := r + [e];
          continue;
        }
        var groups := site.courseGroups(site.cmCourse(e.cmid), user);
        if groups != {} && e.groupid in groups {
          r := r + [e];
        } else if e.groupid == 0 {
          r := r + [e];
        }
      }
    }
    assert entries[..|entries|] == entries;
  }

  /** The group filter keeps an order-preserving subsequence of its input,
      and keeps an entry exactly by the group-mode rule. */
  lemma FilterEntriesByGroupsIff(site: Site, entries: seq<Entry>, user: int, e: Entry)
    ensures IsSubsequence(Filter(entries, KeepEntry(site, user)), entries)
    ensures var mode := site.groupMode(e.cmid);
      && (e in entries && (mode == NoGroups || mode == VisibleGroups) ==> e in Filter(entries, KeepEntry(site, user)))
      && (e in entries && mode == SeparateGroups && site.moduleCap("moodle/site:accessallgroups", e.cmid, user) ==>
            e in Filter(entries, KeepEntry(site, user)))
      && (mode == SeparateGroups && !site.moduleCap("moodle/site:accessallgroups", e.cmid, user) ==>
           (e in Filter(entries, KeepEntry(site, user)) <==>
              e in entries && (e.groupid in site.courseGroups(site.cmCourse(e.cmid), user) || e.groupid == 0)))
      && (mode !in {NoGroups, SeparateGroups, VisibleGroups} ==> e !in Filter(entries, KeepEntry(site, user)))
  {
    FilterIsSubsequence(entries, KeepEntry(site, user));
    if e in entries && KeepEntry(site, user)(e) {
      FilterKeeps(entries, KeepEntry(site, user), e);
    }
  }

  // ---- add_separator_rows

  function Names(e: Entry): (string, string) {
    (e.coursename, e.activityname)
  }

  function SeparatorFor(e: Entry): Row {
    Separator(e.cmid, e.coursename, e.activityname)
  }

  /** The rows add_separator_rows produces: each entry, preceded by a
      separator when it is the first or its (course, activity) names differ
      from the previous entry's. */
  function SeparatorRows(es: seq<Entry>): seq<Row> {
    if es == [] then [] else SeparatorRows(es[..|es| - 1]) + Segment(es[..|es| - 1], es[|es| - 1])
  }

  /** The rows entry `e` adds after the entries `init`. */
  function Segment(init: seq<Entry>, e: Entry): seq<Row> {
    (if init == [] || Names(init[|init| - 1]) != Names(e) then [SeparatorFor(e)] else []) + [EntryRow(e)]
  }

  /** add_separator_rows. */
  method AddSeparatorRows(entries: seq<Entry>) returns (r: seq<Row>)
    ensures r == SeparatorRows(entries)
  {
    if entries == [] {
      return [];
    }
    r := [];
    var last: Option<(string, string)> := None;
    for i := 0 to |entries|
      invariant r == SeparatorRows(entries[..i])
      invariant last == if i == 0 then None else Some(Names(entries[i - 1]))
    {
      var e := entries[i];
      assert entries[..i + 1][..i] == entries[..i];
      if last != Some(Names(e)) {
        r := r + [SeparatorFor(e)];
        last := Some(Names(e));
      }
      r := r + [EntryRow(e)];
    }
    assert entries[..|entries|] == entries;
  }

  /** The entries among the rows, in order. */
  function EntriesOf(rows: seq<Row>): seq<Entry> {
    if rows == [] then []
    else
      var init := EntriesOf(rows[..|rows| - 1]);
      if rows[|rows| - 1].EntryRow? then init + [rows[|rows| - 1].entry] else init
  }

  lemma {:induction false} EntriesOfAppend(a: seq<Row>, b: seq<Row>)
    ensures EntriesOf(a + b) == EntriesOf(a) + EntriesOf(b)
    decreases |b|
  {
    if b == [] {
      assert a + b == a;
    } else {
      assert (a + b)[..|a + b| - 1] == a + b[..|b| - 1];
      EntriesOfAppend(a, b[..|b| - 1]);
    }
  }

  /** Deleting the separators gives back the entries exactly. */
  lemma {:induction false} SeparatorsStripped(es: seq<Entry>)
    ensures EntriesOf(SeparatorRows(es)) == es
  {
    if es != [] {
      var init, e := es[..|es| - 1], es[|es| - 1];
      assert init + [e] == es;
      SeparatorsStripped(init);
      EntriesOfAppend(SeparatorRows(init), Segment(init, e));
      SegmentEntries(init, e);
    }
  }

  lemma SegmentEntries(init: seq<Entry>, e: Entry)
    ensures EntriesOf(Segment(init, e)) == [e]
  {
    var seg := Segment(init, e);
    var head := seg[..|seg| - 1];
    assert seg[|seg| - 1] == EntryRow(e);
    assert EntriesOf(seg) == EntriesOf(head) + [e];
    if |seg| == 2 {
      assert head == [SeparatorFor(e)];
      assert head[..0] == [];
      assert EntriesOf(head) == EntriesOf(head[..0]);
    } else {
      assert head == [];
    }
  }

  /** The rows start with a separator and end with the last entry. */
  lemma {:induction false} SeparatorRowsEnds(es: seq<Entry>)
    ensures SeparatorRows(es) == [] <==> es == []
    ensures es != [] ==> SeparatorRows(es)[0] == SeparatorFor(es[0])
    ensures es != [] ==> SeparatorRows(es)[|SeparatorRows(es)| - 1] == EntryRow(es[|es| - 1])
  {
    if es != [] {
      var init := es[..|es| - 1];
      SeparatorRowsEnds(init);
      if init != [] {
        assert init[0] == es[0];
      }
    }
  }

  /** Separators sit exactly at the (course, activity) boundaries: each
      separator heads an entry of its names and module, two neighbouring
      entries share their names, and the entry before a separator has other
      names. So no two separators are adjacent. */
  ghost predicate WellSeparated(r: seq<Row>) {
    SeparatorsHead(r) && NeighboursShare(r) && BoundariesChange(r)
  }

  ghost predicate SeparatorsHead(r: seq<Row>) {
    forall k :: 0 <= k < |r| && r[k].Separator? ==>
      k + 1 < |r| && r[k + 1].EntryRow? && r[k + 1].entry.cmid == r[k].cmid
      && Names(r[k + 1].entry) == (r[k].coursename, r[k].activityname)
  }

  ghost predicate NeighboursShare(r: seq<Row>) {
    forall k :: 0 <= k < |r| - 1 && r[k].EntryRow? && r[k + 1].EntryRow? ==>
      Names(r[k].entry) == Names(r[k + 1].entry)
  }

  ghost predicate BoundariesChange(r: seq<Row>) {
    forall k :: 0 <= k < |r| - 1 && r[k].EntryRow? && r[k + 1].Separator? ==>
      Names(r[k].entry) != (r[k + 1].coursename, r[k + 1].activityname)
  }

  lemma {:induction false} SeparatorRowsWellSeparated(es: seq<Entry>)
    ensures WellSeparated(SeparatorRows(es))
  {
    if es != [] {
      var init, e := es[..|es| - 1], es[|es| - 1];
      var prev := SeparatorRows(init);
      SeparatorRowsWellSeparated(init);
      SeparatorRowsEnds(init);
      HeadStep(prev, init, e);
      ShareStep(prev, init, e);
      BoundaryStep(prev, init, e);
    }
  }

  lemma HeadStep(prev: seq<Row>, init: seq<Entry>, e: Entry)
    requires SeparatorsHead(prev)
    ensures SeparatorsHead(prev + Segment(init, e))
  {
    var r := prev + Segment(init, e);
    forall k | 0 <= k < |r| && r[k].Separator?
      ensures k + 1 < |r| && r[k + 1].EntryRow? && r[k + 1].entry.cmid == r[k].cmid
        && Names(r[k + 1].entry) == (r[k].coursename, r[k].activityname)
    {
      if k < |prev| {
        assert r[k] == prev[k];
        assert k + 1 < |prev|;
        assert r[k + 1] == prev[k + 1];
      }
    }
  }

  lemma ShareStep(prev: seq<Row>, init: seq<Entry>, e: Entry)
    requires NeighboursShare(prev)
    requires init != [] ==> prev != [] && prev[|prev| - 1] == EntryRow(init[|init| - 1])
    requires init == [] ==> prev == []
    ensures NeighboursShare(prev + Segment(init, e))
  {
    var r := prev + Segment(init, e);
    forall k | 0 <= k < |r| - 1 && r[k].EntryRow? && r[k + 1].EntryRow?
      ensures Names(r[k].entry) == Names(r[k + 1].entry)
    {
      if k + 1 < |prev| {
        assert r[k] == prev[k] && r[k + 1] == prev[k + 1];
      } else if k + 1 == |prev| {
        assert r[k] == EntryRow(init[|init| - 1]);
        assert r[k + 1] == Segment(init, e)[0];
      }
    }
  }

  lemma BoundaryStep(prev: seq<Row>, init: seq<Entry>, e: Entry)
    requires BoundariesChange(prev)
    requires init != [] ==> prev != [] && prev[|prev| - 1] == EntryRow(init[|init| - 1])
    requires init == [] ==> prev == []
    ensures BoundariesChange(prev + Segment(init, e))
  {
    var r := prev + Segment(init, e);
    forall k | 0 <= k < |r| - 1 && r[k].EntryRow? && r[k + 1].Separator?
      ensures Names(r[k].entry) != (r[k + 1].coursename, r[k + 1].activityname)
    {
      if k + 1 < |prev| {
        assert r[k] == prev[k] && r[k + 1] == prev[k + 1];
      } else if k + 1 == |prev| {
        assert r[k] == EntryRow(init[|init| - 1]);
        assert r[k + 1] == Segment(init, e)[0];
      }
    }
  }

  /** The separator rows of all properties at once: empty in, empty out;
      otherwise a separator first, the last entry last, the entries given
      back by deleting the separators, and separators at the boundaries. */
  lemma SeparatorRowsShape(es: seq<Entry>)
    ensures es == [] ==> SeparatorRows(es) == []
    ensures es != [] ==> SeparatorRows(es)[0] == SeparatorFor(es[0])
    ensures es != [] ==> SeparatorRows(es)[|SeparatorRows(es)| - 1] == EntryRow(es[|es| - 1])
    ensures EntriesOf(SeparatorRows(es)) == es
    ensures WellSeparated(SeparatorRows(es))
  {
    SeparatorRowsEnds(es);
    SeparatorsStripped(es);
    SeparatorRowsWellSeparated(es);
  }

  // ---- get_user_accessible_entries

  function CmId(cm: Cm): int {
    cm.id
  }

  function InModules(ids: seq<int>): Entry -> bool {
    (e: Entry) => e.cmid in ids
  }

  /** The entries of the accessible modules that pass the group rule. */
  function VisibleEntries(site: Site, db: Db, user: int): seq<Entry> {
    var ids := MapSeq(CourseModulesFor(site, db.cms, user), CmId);
    Filter(Filter(db.entries, InModules(ids)), KeepEntry(site, user))
  }

  function AsRow(e: Entry): Row {
    EntryRow(e)
  }

  /** get_user_accessible_entries: the visible entries, with separator rows
      when asked for. */
  method UserAccessibleEntries(site: Site, db: Db, userid: int, session: int, includeSeparators: bool)
    returns (r: seq<Row>)
    ensures var es := VisibleEntries(site, db, EffectiveUser(userid, session));
      r == if includeSeparators then SeparatorRows(es) else MapSeq(es, AsRow)
  {
    var user := EffectiveUser(userid, session);
    var cms := AccessibleCourseModules(site, db.cms, user);
    var ids := MapSeq(cms, CmId);
    if cms == [] {
      FilterNone(db.entries, InModules(ids));
      return [];
    }
    var entries := Filter(db.entries, InModules(ids));
    if entries == [] {
      return [];
    }
    var filtered := FilterEntriesByGroups(site, entries, user);
    if includeSeparators {
      r := AddSeparatorRows(filtered);
    } else {
      r := MapSeq(filtered, AsRow);
    }
  }

  // ---- get_accessible_templates

  /** The template query: active, in scope for the user, and, when a course
      is given, site-wide or of that course. */
  function TemplateSql(courseFilter: int, user: int, groups: set<int>): Template -> bool {
    (t: Template) => && t.isactive == 1
         && (|| t.scope == "system"
             || (t.scope == "course" && t.courseid == courseFilter)
             || (t.scope == "user" && t.userid == user)
             || (t.scope == "group" && (t.groupid in groups || t.groupid == 0)))
         && (courseFilter > 0 ==> t.courseid == 0 || t.courseid == courseFilter)
  }

  /** The per-scope switch. None when the course context of a course or
      group template cannot be built, which aborts the whole lookup. */
  function TemplateAccess(site: Site, t: Template, user: int): (r: Option<bool>)
    ensures r.None? <==> (t.scope == "course" || t.scope == "group") && t.courseid > 0 && site.courseMissing(t.courseid)
    ensures t.scope == "system" ==> r == Some(true)
    ensures t.scope == "user" ==> r == Some(t.userid == user)
    ensures (t.scope == "course" || t.scope == "group") && t.courseid <= 0 ==> r == Some(true)
    ensures t.scope == "group" && t.courseid > 0 && r.Some? ==>
      r.value == (site.enrolled(t.courseid, user) || site.courseCap("moodle/course:view", t.courseid, user))
    ensures t.scope == "course" && t.courseid > 0 && r.Some? ==>
      r.value == ((site.enrolled(t.courseid, user) || site.courseCap("moodle/course:view", t.courseid, user))
                  && site.courseCap("mod/valuemapdoc:managecoursetemplates", t.courseid, user))
    ensures t.scope !in {"system", "user", "course", "group"} ==> r == Some(false)
  {
    if t.scope == "system" then Some(true)
    else if t.scope == "user" then Some(t.userid == user)
    else if t.scope == "course" || t.scope == "group" then
      if t.courseid > 0 then
        if site.courseMissing(t.courseid) then None
        else
          var access := site.enrolled(t.courseid, user) || site.courseCap("moodle/course:view", t.courseid, user);
          if access && t.scope == "course" then
            Some(site.courseCap("mod/valuemapdoc:managecoursetemplates", t.courseid, user))
          else Some(access)
      else Some(true)
    else Some(false)
  }

  function AccessOf(site: Site, user: int): Template -> Option<bool> {
    (t: Template) => TemplateAccess(site, t, user)
  }

  /** The templates a per-template access rule grants. */
  function Granted(access: Template -> Option<bool>): Template -> bool {
    (t: Template) => access(t) == Some(true)
  }

  /** The templates get_accessible_templates returns: none when the query
      or a course lookup raises. */
  ghost function TemplatesFor(site: Site, db: Db, user: int, courseFilter: int): seq<Template> {
    var selected := Filter(db.templates, TemplateSql(courseFilter, user, GroupIds(db, user)));
    if db.fails(TemplatesQuery) || exists t :: t in selected && TemplateAccess(site, t, user).None? then []
    else Filter(selected, Granted(AccessOf(site, user)))
  }

  /** get_accessible_templates. */
  method AccessibleTemplates(site: Site, db: Db, userid: int, session: int, courseid: int)
    returns (r: seq<Template>)
    ensures r == TemplatesFor(site, db, EffectiveUser(userid, session), courseid)
  {
    var user := EffectiveUser(userid, session);
    var groups := UserGroups(db, user);
    if db.fails(TemplatesQuery) {
      return [];
    }
    var raw := Filter(db.templates, TemplateSql(courseid, user, groups.Keys));
    var allowed := AllowedTemplates(raw, AccessOf(site, user));
    r := allowed.GetOr([]);
  }

  /** The access loop of get_accessible_templates: the templates `access`
      grants, in order, or None as soon as it raises for one of them. */
  method AllowedTemplates(raw: seq<Template>, access: Template -> Option<bool>) returns (r: Option<seq<Template>>)
    ensures r.None? <==> exists t :: t in raw && access(t).None?
    ensures r.Some? ==> r.value == Filter(raw, Granted(access))
  {
    var kept := [];
    for i := 0 to |raw|
      invariant kept == Filter(raw[..i], Granted(access))
      invariant forall k :: 0 <= k < i ==> access(raw[k]).Some?
    {
      assert raw[..i + 1][..i] == raw[..i];
      var a := access(raw[i]);
      if a.None? {
        assert raw[i] in raw;
        return None;
      }
      if a.value {
        kept := kept + [raw[i]];
      }
    }
    assert raw[..|raw|] == raw;
    forall t | t in raw
      ensures access(t).Some?
    {
      var k :| 0 <= k < |raw| && raw[k] == t;
    }
    return Some(kept);
  }

  /** A template is returned exactly when the query succeeds, no selected
      template's course lookup raises, the SQL clause selects it and its
      scope rule grants it. */
  lemma TemplatesForIff(site: Site, db: Db, user: int, courseFilter: int, t: Template)
    ensures t in TemplatesFor(site, db, user, courseFilter) <==>
      && !db.fails(TemplatesQuery)
      && (forall u :: u in db.templates && TemplateSql(courseFilter, user, GroupIds(db, user))(u) ==>
            TemplateAccess(site, u, user).Some?)
      && t in db.templates && TemplateSql(courseFilter, user, GroupIds(db, user))(t)
      && TemplateAccess(site, t, user) == Some(true)
  {
    var p := TemplateSql(courseFilter, user, GroupIds(db, user));
    var selected := Filter(db.templates, p);
    forall u | u in db.templates && p(u)
      ensures u in selected
    {
      FilterKeeps(db.templates, p, u);
    }
    if t in selected && Granted(AccessOf(site, user))(t) {
      FilterKeeps(selected, Granted(AccessOf(site, user)), t);
    }
  }

  /** Without a course filter (the default, and what the statistics use) the
      course clause only matches course 0, so no course-scoped template of a
      real course is ever returned. Every returned template is active. */
  lemma DefaultFilterDropsCourseTemplates(site: Site, db: Db, user: int, t: Template)
    requires t in TemplatesFor(site, db, user, 0)
    ensures t.isactive == 1
    ensures t.scope == "course" ==> t.courseid == 0
    ensures t.scope in {"system", "user", "course", "group"}
  {
    var selected := Filter(db.templates, TemplateSql(0, user, GroupIds(db, user)));
    assert t in selected;
  }

  // ---- get_user_statistics

  function ModifiedSince(since: int): Entry -> bool {
    (e: Entry) => e.timemodified >= since
  }

  function CreatedSince(since: int): Content -> bool {
    (c: Content) => c.timecreated >= since
  }

  function CourseOf(c: Content): int {
    c.courseid
  }

  function CmOf(c: Content): int {
    c.cmid
  }

  /** The first counting loop of get_user_statistics. */
  method CountModifiedSince(entries: seq<Entry>, since: int) returns (n: nat)
    ensures n == CountWhere(entries, ModifiedSince(since))
  {
    n := 0;
    for i := 0 to |entries|
      invariant n == CountWhere(entries[..i], ModifiedSince(since))
    {
      assert entries[..i + 1][..i] == entries[..i];
      if entries[i].timemodified >= since {
        n := n + 1;
      }
    }
    assert entries[..|entries|] == entries;
  }

  /** The second counting loop of get_user_statistics. */
  method CountCreatedSince(content: seq<Content>, since: int) returns (n: nat)
    ensures n == CountWhere(content, CreatedSince(since))
  {
    n := 0;
    for i := 0 to |content|
      invariant n == CountWhere(content[..i], CreatedSince(since))
    {
      assert content[..i + 1][..i] == content[..i];
      if content[i].timecreated >= since {
        n := n + 1;
      }
    }
    assert content[..|content|] == content;
  }

  /** The distinct course and module ids of the content are no more than
      the content items. */
  lemma {:induction false} UniqueCountsBounded(content: seq<Content>)
    ensures |set c | c in content :: c.courseid| <= |content|
    ensures |set c | c in content :: c.cmid| <= |content|
  {
    if content != [] {
      var init, last := content[..|content| - 1], content[|content| - 1];
      UniqueCountsBounded(init);
      assert (set c | c in content :: c.courseid) == (set c | c in init :: c.courseid) + {last.courseid};
      assert (set c | c in content :: c.cmid) == (set c | c in init :: c.cmid) + {last.cmid};
    }
  }

  /** get_user_statistics, with `now` for time(). */
  method UserStatistics(site: Site, db: Db, userid: int, session: int, now: int) returns (s: Statistics)
    ensures var user := EffectiveUser(userid, session);
      var entries, content := EntriesFor(site, db, user), ContentFor(site, db, user);
      && s.totalEntries == |entries|
      && s.totalContent == |content|
      && s.totalTemplates == |TemplatesFor(site, db, user, 0)|
      && s.entriesThisWeek == CountWhere(entries, ModifiedSince(now - Week))
      && s.contentThisWeek == CountWhere(content, CreatedSince(now - Week))
      && s.uniqueCourses == |set c | c in content :: c.courseid|
      && s.uniqueActivities == |set c | c in content :: c.cmid|
    ensures s.entriesThisWeek <= s.totalEntries && s.contentThisWeek <= s.totalContent
    ensures s.uniqueCourses <= s.totalContent && s.uniqueActivities <= s.totalContent
  {
    var entries := AccessibleEntries(site, db, userid, session);
    var content := AccessibleContent(site, db, userid, session);
    var templates := AccessibleTemplates(site, db, userid, session, 0);
    var weekAgo := now - Week;
    var entriesThisWeek := CountModifiedSince(entries, weekAgo);
    var contentThisWeek := CountCreatedSince(content, weekAgo);
    UniqueCountsBounded(content);
    s := Statistics(|entries|, |content|, |templates|, entriesThisWeek, contentThisWeek,
                    |set c | c in content :: c.courseid|, |set c | c in content :: c.cmid|);
  }

  // ---- get_grouped_content

  function ContentKeys(): Grouping.Keys<Content, Content> {
    Grouping.Keys(CourseOf, CmOf, c => c)
  }

  /** get_grouped_content: the accessible content filed by course, then by
      module, each in order of first appearance. */
  method GroupedContent(site: Site, db: Db, userid: int, session: int)
    returns (r: seq<Grouping.Course<Content, Content>>)
    ensures var content := ContentFor(site, db, EffectiveUser(userid, session));
      && r == Grouping.Grouped(content, ContentKeys())
      && |r| == |Grouping.CourseSet(content, ContentKeys())|
      && Grouping.ActivityTotal(r) == |Grouping.PairSet(content, ContentKeys())|
      && (forall k :: 0 <= k < |r| ==> r[k].contentCount == Grouping.SumCounts(r[k].activities))
      && (forall k, j :: 0 <= k < |r| && 0 <= j < |r[k].activities| ==>
            && r[k].activities[j].content == Grouping.Bucket(content, ContentKeys(), r[k].id, r[k].activities[j].id)
            && r[k].activities[j].contentCount == |r[k].activities[j].content|)
  {
    var content := AccessibleContent(site, db, userid, session);
    r := GroupContent(content);
    Grouping.GroupedBuckets(content, ContentKeys());
    Grouping.GroupedCounts(content, ContentKeys());
  }

  /** The grouping loop of get_grouped_content. */
  method GroupContent(content: seq<Content>) returns (r: seq<Grouping.Course<Content, Content>>)
    ensures r == Grouping.Grouped(content, ContentKeys())
  {
    r := [];
    for i := 0 to |content|
      invariant r == Grouping.Grouped(content[..i], ContentKeys())
    {
      assert content[..i + 1][..i] == content[..i];
      r := Grouping.Place(r, content[i], ContentKeys());
    }
    assert content[..|content|] == content;
  }
}
