/** The get_user_content_global web service of the value map document
    plugin: one user's generated documents, grouped by course and then by
    activity, with totals, the ten first records as a "recent" list, and a
    short plain-text preview of each document. */
module GetUserContentGlobal {
  import opened Common
  import Grouping
  import GetAllEntriesGlobal

  /** One row of the content query: a generated document joined with its
      course module, activity, course and (left join) template. NULL columns
      are None. */
  datatype Record = Record(
    id: int, userid: int, name: string, content: Option<string>, timecreated: int,
    effectiveness: Option<int>, templatetype: Option<string>, templateName: Option<string>,
    courseid: int, courseName: string, courseShortname: string,
    activityName: string, cmid: int, status: Option<string>)

  /** The text shown for a document: the `no_content` language string, or
      text. */
  datatype Preview = NoContent | Text(text: string)

  /** A document's template label: its template's name, or the
      `custom_prompt` language string when it has none. */
  datatype TemplateLabel = Named(name: string) | CustomPrompt

  /** One entry of an activity's content list. `cmid` and `id` are the
      parameters of its edit and view links; `timecreated` is the raw time
      userdate() renders. */
  datatype ContentItem = ContentItem(
    id: int, name: string, templateType: string, templateName: TemplateLabel,
    preview: Preview, timecreated: int, relative: GetAllEntriesGlobal.TimeAgo,
    effectiveness: int, status: string, cmid: int)

  /** One entry of the recent list; `cmid` and `id` parameterise its view link. */
  datatype RecentItem = RecentItem(
    id: int, name: string, courseName: string, activityName: string,
    relative: GetAllEntriesGlobal.TimeAgo, cmid: int)

  datatype Statistics = Statistics(totalContent: nat, totalCourses: nat, totalActivities: nat)

  /** The service's answer. Each course and activity keeps the record that
      opened it, from which its name, short name and course id are read. */
  datatype UserContent = UserContent(
    courses: seq<Grouping.Course<Record, ContentItem>>, statistics: Statistics, recent: seq<RecentItem>)

  const PreviewLength := 200

  /** get_content_preview: `no_content` for empty() content, otherwise the
      text with its tags stripped, cut to 200 characters followed by "..."
      when it is longer. */
  function ContentPreview(content: Option<string>): (r: Preview)
    ensures r == NoContent <==> content.None? || IsEmptyStr(content.value)
    ensures r.Text? ==>
      var plain := StripTags(content.value);
      && |r.text| <= PreviewLength + 3
      && NoNul(r.text)
      && (forall k :: 0 <= k < |r.text| && r.text[k] == '<' ==>
            k + 1 < |r.text| && (IsCSpace(r.text[k + 1]) || k + 1 == PreviewLength))
      && (|plain| <= PreviewLength ==> r.text == plain)
      && (|plain| > PreviewLength ==>
            && |r.text| == PreviewLength + 3
            && r.text[..PreviewLength] == plain[..PreviewLength]
            && r.text[PreviewLength..] == "...")
  {
    if content.None? || IsEmptyStr(content.value) then NoContent
    else
      var plain := StripTags(content.value);
      if |plain| > PreviewLength then Text(plain[..PreviewLength] + "...") else Text(plain)
  }

  /** Short content without markup is shown unchanged. */
  lemma PreviewOfPlainText(s: string)
    requires !IsEmptyStr(s) && |s| <= PreviewLength
    requires TagFree(s)
    ensures ContentPreview(Some(s)) == Text(s)
  {
    StripFromTagFree(s);
  }

  /** Markup-free content longer than the preview keeps its first 200
      characters. */
  lemma PreviewOfLongPlainText(s: string)
    requires |s| > PreviewLength
    requires TagFree(s)
    ensures ContentPreview(Some(s)) == Text(s[..PreviewLength] + "...")
  {
    StripFromTagFree(s);
  }

  /** The content item a record becomes, with `now` for time(). */
  function Item(rec: Record, now: int): (r: ContentItem)
    ensures rec.templatetype.None? ==> r.templateType == "custom"
    ensures rec.templatetype.Some? ==> r.templateType == rec.templatetype.value
    ensures rec.templateName.None? ==> r.templateName == CustomPrompt
    ensures rec.templateName.Some? ==> r.templateName == Named(rec.templateName.value)
    ensures rec.effectiveness.None? ==> r.effectiveness == 0
    ensures rec.effectiveness.Some? ==> r.effectiveness == rec.effectiveness.value
    ensures rec.status.None? ==> r.status == "ready"
    ensures rec.status.Some? ==> r.status == rec.status.value
    ensures r.preview == ContentPreview(rec.content)
    ensures r.relative == GetAllEntriesGlobal.FormatTimeAgo(now, rec.timecreated)
    ensures (r.id, r.name, r.timecreated, r.cmid) == (rec.id, rec.name, rec.timecreated, rec.cmid)
  {
    ContentItem(
      rec.id, rec.name, rec.templatetype.GetOr("custom"),
      if rec.templateName.Some? then Named(rec.templateName.value) else CustomPrompt,
      ContentPreview(rec.content), rec.timecreated,
      GetAllEntriesGlobal.FormatTimeAgo(now, rec.timecreated),
      rec.effectiveness.GetOr(0), rec.status.GetOr("ready"), rec.cmid)
  }

  /** The grouping keys: a record is filed under its course and course
      module as its content item. */
  function ItemKeys(now: int): Grouping.Keys<Record, ContentItem> {
    Grouping.Keys((rec: Record) => rec.courseid, (rec: Record) => rec.cmid, (rec: Record) => Item(rec, now))
  }

  function Recent(rec: Record, now: int): RecentItem {
    RecentItem(rec.id, rec.name, rec.courseName, rec.activityName,
               GetAllEntriesGlobal.FormatTimeAgo(now, rec.timecreated), rec.cmid)
  }

  function RecentOf(now: int): Record -> RecentItem {
    (rec: Record) => Recent(rec, now)
  }

  /** How many records the recent list shows. */
  const RecentCount := 10

  /** The user's records, in the order the query returns them. */
  function UserRecords(rows: seq<Record>, user: int): (r: seq<Record>)
    ensures forall x :: x in r <==> x in rows && x.userid == user
  {
    var f := Filter(rows, (rec: Record) => rec.userid == user);
    forall x | x in rows && x.userid == user
      ensures x in f
    {
      FilterKeeps(rows, (rec: Record) => rec.userid == user, x);
    }
    f
  }

  /** What get_user_content_grouped promises about its answer for the
      records `records`: the courses group them by course and activity,
      each activity lists exactly its own records' items and counts them,
      each course counts the sum of its activities, the statistics count
      records, distinct courses and distinct (course, activity) pairs, and
      the recent list shows the first ten records in order. */
  ghost predicate Reports(u: UserContent, records: seq<Record>, now: int) {
    var keys := ItemKeys(now);
    && u.courses == Grouping.Grouped(records, keys)
    && (forall k, j :: 0 <= k < |u.courses| && 0 <= j < |u.courses[k].activities| ==>
          && u.courses[k].activities[j].content == Grouping.Bucket(records, keys, u.courses[k].id, u.courses[k].activities[j].id)
          && u.courses[k].activities[j].contentCount == |u.courses[k].activities[j].content|)
    && (forall k :: 0 <= k < |u.courses| ==> u.courses[k].contentCount == Grouping.SumCounts(u.courses[k].activities))
    && u.statistics.totalContent == |records|
    && u.statistics.totalCourses == |Grouping.CourseSet(records, keys)|
    && u.statistics.totalActivities == |Grouping.PairSet(records, keys)|
    && u.recent == MapSeq(Take(records, RecentCount), RecentOf(now))
  }

  /** get_user_content_grouped for user `userid` (0 for the current user
      `current`) over the joined content rows `rows`. */
  method UserContentGrouped(rows: seq<Record>, userid: int, current: int, now: int) returns (r: UserContent)
    ensures Reports(r, UserRecords(rows, if userid == 0 then current else userid), now)
  {
    var user := if userid == 0 then current else userid;
    var records := UserRecords(rows, user);
    var keys := ItemKeys(now);
    var courses, totals := GroupRecords(records, keys);
    Grouping.GroupedBuckets(records, keys);
    Grouping.GroupedCounts(records, keys);
    var recent := RecentList(records, now);
    r := UserContent(courses, totals, recent);
  }

  /** The grouping loop with its three counters: a course is counted when
      it is first initialised, an activity likewise, and every record once. */
  method GroupRecords(records: seq<Record>, keys: Grouping.Keys<Record, ContentItem>)
    returns (courses: seq<Grouping.Course<Record, ContentItem>>, totals: Statistics)
    ensures courses == Grouping.Grouped(records, keys)
    ensures totals.totalContent == |records|
    ensures totals.totalCourses == |courses|
    ensures totals.totalActivities == Grouping.ActivityTotal(courses)
  {
    courses := [];
    var totalContent, totalCourses, totalActivities := 0, 0, 0;
    for i := 0 to |records|
      invariant courses == Grouping.Grouped(records[..i], keys)
      invariant totalContent == i
      invariant totalCourses == |courses|
      invariant totalActivities == Grouping.ActivityTotal(courses)
    {
      var rec := records[i];
      var c := Grouping.CourseIndex(courses, keys.courseOf(rec));
      var newActivity := c == |courses| || Grouping.ActivityIndex(courses[c].activities, keys.cmOf(rec)) == |courses[c].activities|;
      assert newActivity <==> !Grouping.Covers(courses, rec, keys);
      Grouping.PlaceSizes(courses, rec, keys);
      if c == |courses| {
        totalCourses := totalCourses + 1;
      }
      if newActivity {
        totalActivities := totalActivities + 1;
      }
      assert records[..i + 1][..i] == records[..i];
      courses := Grouping.Place(courses, rec, keys);
      totalContent := totalContent + 1;
    }
    assert records[..|records|] == records;
    totals := Statistics(totalContent, totalCourses, totalActivities);
  }

  /** The formatted recent list: the first ten records, in order. */
  method RecentList(records: seq<Record>, now: int) returns (r: seq<RecentItem>)
    ensures r == MapSeq(Take(records, RecentCount), RecentOf(now))
    ensures |r| == if |records| < RecentCount then |records| else RecentCount
    ensures forall k :: 0 <= k < |r| ==> r[k].id == records[k].id && r[k].name == records[k].name
  {
    var first := Take(records, RecentCount);
    r := [];
    for i := 0 to |first|
      invariant r == MapSeq(first[..i], RecentOf(now))
    {
      assert first[..i + 1][..i] == first[..i];
      r := r + [Recent(first[i], now)];
    }
    assert first[..|first|] == first;
  }

  /** execute: `userid` 0 stands for the current user; asking for another
      user's content needs the manage capability, else `nopermission` is
      raised. */
  method Execute(rows: seq<Record>, userid: int, current: int, canManage: bool, now: int)
    returns (r: Outcome<UserContent>)
    ensures var user := if userid == 0 then current else userid;
      && (r.Raised? <==> user != current && !canManage)
      && (r.Raised? ==> r.exception == "nopermission")
      && (r.Done? ==> Reports(r.value, UserRecords(rows, user), now))
  {
    var user := if userid == 0 then current else userid;
    if user != current && !canManage {
      return Raised("nopermission");
    }
    var u := UserContentGrouped(rows, user, current, now);
    return Done(u);
  }

  /** Without the manage capability the answer only ever holds the
      current user's own records. */
  lemma OwnContentOnly(rows: seq<Record>, u: UserContent, userid: int, current: int, now: int)
    requires Reports(u, UserRecords(rows, if userid == 0 then current else userid), now)
    requires userid == 0 || userid == current
    ensures forall k, j :: 0 <= k < |u.courses| && 0 <= j < |u.courses[k].activities| ==>
      forall item :: item in u.courses[k].activities[j].content ==>
        exists rec :: rec in rows && rec.userid == current && Item(rec, now) == item
  {
    var records := UserRecords(rows, current);
    var keys := ItemKeys(now);
    assert u.courses == Grouping.Grouped(records, keys);
    forall k, j, item | 0 <= k < |u.courses| && 0 <= j < |u.courses[k].activities| && item in u.courses[k].activities[j].content
      ensures exists rec :: rec in rows && rec.userid == current && Item(rec, now) == item
    {
      Grouping.GroupedFrom(records, keys, k, j, item);
    }
  }
}
