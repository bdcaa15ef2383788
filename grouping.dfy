/** Grouping of content records first by course and then by activity, as
    data_provider::get_grouped_content and
    get_user_content_global::get_user_content_grouped build it: an ordered
    map from course id to a course entry, each holding an ordered map from
    course-module id to an activity entry with its content list and two
    content counters. The PHP arrays keep their keys in insertion order, so
    each map is a sequence in the order its keys first appear. */
module Grouping {
  import opened Common

  /** What a grouping reads from a record: its course id, its course-module
      id, and the item it files in the activity's content list. */
  datatype Keys<!R, V> = Keys(courseOf: R -> int, cmOf: R -> int, view: R -> V)

  /** An activity entry; `opener` is the record that created it (the source
      of its display name). */
  datatype Activity<R, V> = Activity(id: int, opener: R, content: seq<V>, contentCount: nat)

  /** A course entry; `opener` is the record that created it. */
  datatype Course<R, V> = Course(id: int, opener: R, activities: seq<Activity<R, V>>, contentCount: nat)

  /** Position of course `id`, |cs| when there is none: `isset($courses[$courseid])`. */
  function CourseIndex<R, V>(cs: seq<Course<R, V>>, id: int): (i: nat)
    ensures i <= |cs|
    ensures i < |cs| ==> cs[i].id == id
    ensures forall k :: 0 <= k < i ==> cs[k].id != id
  {
    if cs == [] then 0 else if cs[0].id == id then 0 else 1 + CourseIndex(cs[1..], id)
  }

  /** Position of activity `id`, |acts| when there is none. */
  function ActivityIndex<R, V>(acts: seq<Activity<R, V>>, id: int): (j: nat)
    ensures j <= |acts|
    ensures j < |acts| ==> acts[j].id == id
    ensures forall k :: 0 <= k < j ==> acts[k].id != id
  {
    if acts == [] then 0 else if acts[0].id == id then 0 else 1 + ActivityIndex(acts[1..], id)
  }

  /** The course entry a record initialises: no activities, count 0. */
  function NewCourse<R, V>(x: R, keys: Keys<R, V>): Course<R, V> {
    Course(keys.courseOf(x), x, [], 0)
  }

  /** The activity list after initialising the record's activity if absent. */
  function OpenActivity<R, V>(acts: seq<Activity<R, V>>, x: R, keys: Keys<R, V>): (r: seq<Activity<R, V>>)
    ensures ActivityIndex(r, keys.cmOf(x)) < |r|
  {
    if ActivityIndex(acts, keys.cmOf(x)) < |acts| then acts
    else
      ActivityIndexAppend(acts, Activity(keys.cmOf(x), x, [], 0));
      acts + [Activity(keys.cmOf(x), x, [], 0)]
  }

  /** Appends `v` to the activity's content list and increments its counter. */
  function Add<R, V>(a: Activity<R, V>, v: V): Activity<R, V> {
    a.(content := a.content + [v], contentCount := a.contentCount + 1)
  }

  /** Files the record in its activity of course `c` and increments both
      counters. */
  function Enter<R, V>(c: Course<R, V>, x: R, keys: Keys<R, V>): Course<R, V> {
    var acts := OpenActivity(c.activities, x, keys);
    var j := ActivityIndex(acts, keys.cmOf(x));
    c.(activities := acts[j := Add(acts[j], keys.view(x))], contentCount := c.contentCount + 1)
  }

  /** One pass of the loop body: initialise the course if absent, then file
      the record. */
  function Place<R, V>(cs: seq<Course<R, V>>, x: R, keys: Keys<R, V>): seq<Course<R, V>> {
    var i := CourseIndex(cs, keys.courseOf(x));
    if i < |cs| then cs[i := Enter(cs[i], x, keys)] else cs + [Enter(NewCourse(x, keys), x, keys)]
  }

  /** The grouping of `items`, record by record. */
  function Grouped<R, V>(items: seq<R>, keys: Keys<R, V>): seq<Course<R, V>> {
    if items == [] then [] else Place(Grouped(items[..|items| - 1], keys), items[|items| - 1], keys)
  }

  /** Sum of the activities' counters. */
  function SumCounts<R, V>(acts: seq<Activity<R, V>>): int {
    if acts == [] then 0 else SumCounts(acts[..|acts| - 1]) + acts[|acts| - 1].contentCount
  }

  /** Number of activity entries over all courses. */
  function ActivityTotal<R, V>(cs: seq<Course<R, V>>): int {
    if cs == [] then 0 else ActivityTotal(cs[..|cs| - 1]) + |cs[|cs| - 1].activities|
  }

  /** The records of course `id` and activity `cm`. */
  function InActivity<R, V>(keys: Keys<R, V>, id: int, cm: int): R -> bool {
    x => keys.courseOf(x) == id && keys.cmOf(x) == cm
  }

  /** What the content list of activity (`id`, `cm`) should hold. */
  function Bucket<R, V>(items: seq<R>, keys: Keys<R, V>, id: int, cm: int): seq<V> {
    MapSeq(Filter(items, InActivity(keys, id, cm)), keys.view)
  }

  /** The distinct course ids of the records. */
  ghost function CourseSet<R, V>(items: seq<R>, keys: Keys<R, V>): set<int> {
    set x | x in items :: keys.courseOf(x)
  }

  /** The distinct (course, course module) pairs of the records. */
  ghost function PairSet<R, V>(items: seq<R>, keys: Keys<R, V>): set<(int, int)> {
    set x | x in items :: (keys.courseOf(x), keys.cmOf(x))
  }

  lemma {:induction false} SumCountsUpdate<R, V>(acts: seq<Activity<R, V>>, j: nat, a: Activity<R, V>)
    requires j < |acts|
    ensures SumCounts(acts[j := a]) == SumCounts(acts) - acts[j].contentCount + a.contentCount
  {
    var n := |acts| - 1;
    if j < n {
      assert acts[j := a][..n] == acts[..n][j := a];
      SumCountsUpdate(acts[..n], j, a);
    } else {
      assert acts[j := a][..n] == acts[..n];
    }
  }

  lemma SumCountsAppend<R, V>(acts: seq<Activity<R, V>>, a: Activity<R, V>)
    ensures SumCounts(acts + [a]) == SumCounts(acts) + a.contentCount
  {
    assert (acts + [a])[..|acts|] == acts;
  }

  lemma {:induction false} ActivityTotalUpdate<R, V>(cs: seq<Course<R, V>>, i: nat, c: Course<R, V>)
    requires i < |cs|
    ensures ActivityTotal(cs[i := c]) == ActivityTotal(cs) - |cs[i].activities| + |c.activities|
  {
    var n := |cs| - 1;
    if i < n {
      assert cs[i := c][..n] == cs[..n][i := c];
      ActivityTotalUpdate(cs[..n], i, c);
    } else {
      assert cs[i := c][..n] == cs[..n];
    }
  }

  lemma ActivityTotalAppend<R, V>(cs: seq<Course<R, V>>, c: Course<R, V>)
    ensures ActivityTotal(cs + [c]) == ActivityTotal(cs) + |c.activities|
  {
    assert (cs + [c])[..|cs|] == cs;
  }

  /** Adding a record extends exactly the bucket of its own pair. */
  lemma BucketStep<R, V>(items: seq<R>, x: R, keys: Keys<R, V>, id: int, cm: int)
    ensures Bucket(items + [x], keys, id, cm)
         == Bucket(items, keys, id, cm) + (if InActivity(keys, id, cm)(x) then [keys.view(x)] else [])
  {
    assert (items + [x])[..|items|] == items;
  }

  /** A bucket no record falls into is empty. */
  lemma BucketEmpty<R, V>(items: seq<R>, keys: Keys<R, V>, id: int, cm: int)
    requires forall x :: x in items ==> !InActivity(keys, id, cm)(x)
    ensures Bucket(items, keys, id, cm) == []
  {
    FilterNone(items, InActivity(keys, id, cm));
  }

  lemma {:induction false} ActivityIndexSameIds<R, V>(a: seq<Activity<R, V>>, b: seq<Activity<R, V>>, id: int)
    requires |a| <= |b| && forall k :: 0 <= k < |a| ==> a[k].id == b[k].id
    requires ActivityIndex(a, id) < |a| || |a| == |b|
    ensures ActivityIndex(b, id) == ActivityIndex(a, id)
  {
    if a != [] && a[0].id != id {
      ActivityIndexSameIds(a[1..], b[1..], id);
    }
  }

  /** Appending an activity that is not yet there puts it at the end. */
  lemma {:induction false} ActivityIndexAppend<R, V>(acts: seq<Activity<R, V>>, a: Activity<R, V>)
    requires ActivityIndex(acts, a.id) == |acts|
    ensures ActivityIndex(acts + [a], a.id) == |acts|
  {
    if acts != [] {
      assert (acts + [a])[1..] == acts[1..] + [a];
      ActivityIndexAppend(acts[1..], a);
    }
  }

  lemma {:induction false} CourseIndexSameIds<R, V>(a: seq<Course<R, V>>, b: seq<Course<R, V>>, id: int)
    requires |a| <= |b| && forall k :: 0 <= k < |a| ==> a[k].id == b[k].id
    requires CourseIndex(a, id) < |a|
    ensures CourseIndex(b, id) == CourseIndex(a, id)
  {
    if a[0].id != id {
      CourseIndexSameIds(a[1..], b[1..], id);
    }
  }

  /** Appending a course that is not yet there puts it at the end. */
  lemma {:induction false} CourseIndexAppend<R, V>(cs: seq<Course<R, V>>, c: Course<R, V>)
    requires CourseIndex(cs, c.id) == |cs|
    ensures CourseIndex(cs + [c], c.id) == |cs|
  {
    if cs != [] {
      assert (cs + [c])[1..] == cs[1..] + [c];
      CourseIndexAppend(cs[1..], c);
    }
  }

  /** The shape of Enter: the record's activity gains the record if it
      exists, otherwise a new activity holding just the record is appended;
      the course counter goes up by one. */
  lemma EnterShape<R, V>(c: Course<R, V>, x: R, keys: Keys<R, V>)
    ensures Enter(c, x, keys).id == c.id
    ensures Enter(c, x, keys).contentCount == c.contentCount + 1
    ensures var acts, j := c.activities, ActivityIndex(c.activities, keys.cmOf(x));
      if j < |acts| then Enter(c, x, keys).activities == acts[j := Add(acts[j], keys.view(x))]
      else Enter(c, x, keys).activities == acts + [Activity(keys.cmOf(x), x, [keys.view(x)], 1)]
  {
    var acts, cm := c.activities, keys.cmOf(x);
    if ActivityIndex(acts, cm) == |acts| {
      var started := Activity(cm, x, [], 0);
      ActivityIndexAppend(acts, started);
      assert OpenActivity(acts, x, keys) == acts + [started];
      assert [] + [keys.view(x)] == [keys.view(x)];
      assert Add(started, keys.view(x)) == Activity(cm, x, [keys.view(x)], 1);
      assert (acts + [started])[|acts| := Add(started, keys.view(x))]
          == acts + [Activity(cm, x, [keys.view(x)], 1)];
    }
  }

  // ---- Each activity counter equals the length of its content list.

  ghost predicate Counted<R, V>(acts: seq<Activity<R, V>>) {
    forall j :: 0 <= j < |acts| ==> acts[j].contentCount == |acts[j].content|
  }

  lemma EnterCounted<R, V>(c: Course<R, V>, x: R, keys: Keys<R, V>)
    requires Counted(c.activities)
    ensures Counted(Enter(c, x, keys).activities)
  {
    EnterShape(c, x, keys);
  }

  lemma {:induction false} GroupedCounted<R, V>(items: seq<R>, keys: Keys<R, V>)
    ensures forall k :: 0 <= k < |Grouped(items, keys)| ==> Counted(Grouped(items, keys)[k].activities)
  {
    if items != [] {
      var init, x := items[..|items| - 1], items[|items| - 1];
      var cs := Grouped(init, keys);
      GroupedCounted(init, keys);
      var i := CourseIndex(cs, keys.courseOf(x));
      if i < |cs| {
        EnterCounted(cs[i], x, keys);
      } else {
        EnterCounted(NewCourse(x, keys), x, keys);
      }
    }
  }

  // ---- Each course counter equals the sum of its activities' counters.

  lemma EnterSummed<R, V>(c: Course<R, V>, x: R, keys: Keys<R, V>)
    requires c.contentCount == SumCounts(c.activities)
    ensures Enter(c, x, keys).contentCount == SumCounts(Enter(c, x, keys).activities)
  {
    EnterShape(c, x, keys);
    var acts, j := c.activities, ActivityIndex(c.activities, keys.cmOf(x));
    if j < |acts| {
      SumCountsUpdate(acts, j, Add(acts[j], keys.view(x)));
    } else {
      SumCountsAppend(acts, Activity(keys.cmOf(x), x, [keys.view(x)], 1));
    }
  }

  lemma {:induction false} GroupedSummed<R, V>(items: seq<R>, keys: Keys<R, V>)
    ensures forall k :: 0 <= k < |Grouped(items, keys)| ==>
      Grouped(items, keys)[k].contentCount == SumCounts(Grouped(items, keys)[k].activities)
  {
    if items != [] {
      var init, x := items[..|items| - 1], items[|items| - 1];
      var cs := Grouped(init, keys);
      GroupedSummed(init, keys);
      var i := CourseIndex(cs, keys.courseOf(x));
      if i < |cs| {
        EnterSummed(cs[i], x, keys);
      } else {
        EnterSummed(NewCourse(x, keys), x, keys);
      }
    }
  }

  // ---- No course id and, within a course, no activity id repeats.

  ghost predicate CourseIdsDistinct<R, V>(cs: seq<Course<R, V>>) {
    forall k, k' :: 0 <= k < k' < |cs| ==> cs[k].id != cs[k'].id
  }

  ghost predicate ActivityIdsDistinct<R, V>(acts: seq<Activity<R, V>>) {
    forall j, j' :: 0 <= j < j' < |acts| ==> acts[j].id != acts[j'].id
  }

  lemma {:induction false} GroupedCourseIds<R, V>(items: seq<R>, keys: Keys<R, V>)
    ensures CourseIdsDistinct(Grouped(items, keys))
  {
    if items != [] {
      var init, x := items[..|items| - 1], items[|items| - 1];
      var cs := Grouped(init, keys);
      GroupedCourseIds(init, keys);
      var i := CourseIndex(cs, keys.courseOf(x));
      if i < |cs| {
        EnterShape(cs[i], x, keys);
      } else {
        EnterShape(NewCourse(x, keys), x, keys);
      }
    }
  }

  lemma EnterActivityIds<R, V>(c: Course<R, V>, x: R, keys: Keys<R, V>)
    requires ActivityIdsDistinct(c.activities)
    ensures ActivityIdsDistinct(Enter(c, x, keys).activities)
  {
    EnterShape(c, x, keys);
  }

  lemma {:induction false} GroupedActivityIds<R, V>(items: seq<R>, keys: Keys<R, V>)
    ensures forall k :: 0 <= k < |Grouped(items, keys)| ==> ActivityIdsDistinct(Grouped(items, keys)[k].activities)
  {
    if items != [] {
      var init, x := items[..|items| - 1], items[|items| - 1];
      var cs := Grouped(init, keys);
      GroupedActivityIds(init, keys);
      var i := CourseIndex(cs, keys.courseOf(x));
      if i < |cs| {
        EnterActivityIds(cs[i], x, keys);
      } else {
        EnterActivityIds(NewCourse(x, keys), x, keys);
      }
    }
  }

  // ---- Every record's course and activity are present.

  /** Record `y` has its course and, in it, its activity. */
  ghost predicate Covers<R, V>(cs: seq<Course<R, V>>, y: R, keys: Keys<R, V>) {
    var i := CourseIndex(cs, keys.courseOf(y));
    i < |cs| && ActivityIndex(cs[i].activities, keys.cmOf(y)) < |cs[i].activities|
  }

  /** Filing `x` keeps every record already covered covered, and covers `x`. */
  lemma PlaceCovers<R, V>(cs: seq<Course<R, V>>, x: R, y: R, keys: Keys<R, V>)
    requires Covers(cs, y, keys) || y == x
    ensures Covers(Place(cs, x, keys), y, keys)
  {
    var cs' := Place(cs, x, keys);
    var i := CourseIndex(cs, keys.courseOf(x));
    var c := if i < |cs| then cs[i] else NewCourse(x, keys);
    EnterShape(c, x, keys);
    var acts, acts' := c.activities, Enter(c, x, keys).activities;
    if i < |cs| {
      assert cs' == cs[i := Enter(c, x, keys)];
    } else {
      CourseIndexAppend(cs, Enter(c, x, keys));
    }
    var iy := CourseIndex(cs, keys.courseOf(y));
    if Covers(cs, y, keys) {
      CourseIndexSameIds(cs, cs', keys.courseOf(y));
      if iy == i {
        ActivityIndexSameIds(acts, acts', keys.cmOf(y));
      }
    } else {
      if ActivityIndex(acts, keys.cmOf(x)) == |acts| {
        ActivityIndexAppend(acts, Activity(keys.cmOf(x), x, [keys.view(x)], 1));
      }
    }
  }

  lemma {:induction false} GroupedCovers<R, V>(items: seq<R>, keys: Keys<R, V>)
    ensures forall y :: y in items ==> Covers(Grouped(items, keys), y, keys)
  {
    if items != [] {
      var init, x := items[..|items| - 1], items[|items| - 1];
      var cs := Grouped(init, keys);
      assert items == init + [x];
      GroupedCovers(init, keys);
      forall y | y in items
        ensures Covers(Grouped(items, keys), y, keys)
      {
        PlaceCovers(cs, x, y, keys);
      }
    }
  }

  // ---- Every course has an activity, and each activity was opened by one
  //      of the records, of its own pair.

  ghost predicate Opened<R, V>(acts: seq<Activity<R, V>>, id: int, items: seq<R>, keys: Keys<R, V>) {
    forall j :: 0 <= j < |acts| ==>
      acts[j].opener in items && keys.courseOf(acts[j].opener) == id && keys.cmOf(acts[j].opener) == acts[j].id
  }

  lemma EnterOpened<R, V>(c: Course<R, V>, items: seq<R>, x: R, keys: Keys<R, V>)
    requires Opened(c.activities, c.id, items, keys) && keys.courseOf(x) == c.id
    ensures Opened(Enter(c, x, keys).activities, c.id, items + [x], keys)
    ensures Enter(c, x, keys).activities != []
  {
    EnterShape(c, x, keys);
  }

  lemma OpenedGrows<R, V>(acts: seq<Activity<R, V>>, id: int, items: seq<R>, x: R, keys: Keys<R, V>)
    requires Opened(acts, id, items, keys)
    ensures Opened(acts, id, items + [x], keys)
  {
  }

  lemma {:induction false} GroupedOpened<R, V>(items: seq<R>, keys: Keys<R, V>)
    ensures forall k :: 0 <= k < |Grouped(items, keys)| ==>
      && Grouped(items, keys)[k].activities != []
      && Opened(Grouped(items, keys)[k].activities, Grouped(items, keys)[k].id, items, keys)
  {
    if items != [] {
      var init, x := items[..|items| - 1], items[|items| - 1];
      var cs := Grouped(init, keys);
      assert items == init + [x];
      GroupedOpened(init, keys);
      var i := CourseIndex(cs, keys.courseOf(x));
      var c := if i < |cs| then cs[i] else NewCourse(x, keys);
      EnterOpened(c, init, x, keys);
      EnterShape(c, x, keys);
      forall k | 0 <= k < |cs| && k != i
        ensures Opened(cs[k].activities, cs[k].id, items, keys)
      {
        OpenedGrows(cs[k].activities, cs[k].id, init, x, keys);
      }
    }
  }

  // ---- Each activity holds exactly the records of its pair.

  ghost predicate Filled<R, V>(acts: seq<Activity<R, V>>, id: int, items: seq<R>, keys: Keys<R, V>) {
    forall j :: 0 <= j < |acts| ==> acts[j].content == Bucket(items, keys, id, acts[j].id)
  }

  /** A record of another course leaves a course's buckets as they are. */
  lemma FilledOther<R, V>(acts: seq<Activity<R, V>>, id: int, items: seq<R>, x: R, keys: Keys<R, V>)
    requires Filled(acts, id, items, keys) && keys.courseOf(x) != id
    ensures Filled(acts, id, items + [x], keys)
  {
    forall j | 0 <= j < |acts|
      ensures acts[j].content == Bucket(items + [x], keys, id, acts[j].id)
    {
      BucketStep(items, x, keys, id, acts[j].id);
    }
  }

  lemma EnterFilled<R, V>(c: Course<R, V>, items: seq<R>, x: R, keys: Keys<R, V>)
    requires Filled(c.activities, c.id, items, keys) && ActivityIdsDistinct(c.activities)
    requires keys.courseOf(x) == c.id
    requires ActivityIndex(c.activities, keys.cmOf(x)) == |c.activities| ==>
      forall y :: y in items ==> !InActivity(keys, c.id, keys.cmOf(x))(y)
    ensures Filled(Enter(c, x, keys).activities, c.id, items + [x], keys)
  {
    EnterShape(c, x, keys);
    var acts, acts' := c.activities, Enter(c, x, keys).activities;
    var cm := keys.cmOf(x);
    var j := ActivityIndex(acts, cm);
    BucketStep(items, x, keys, c.id, cm);
    if j == |acts| {
      BucketEmpty(items, keys, c.id, cm);
    }
    forall k | 0 <= k < |acts'|
      ensures acts'[k].content == Bucket(items + [x], keys, c.id, acts'[k].id)
    {
      if k != j {
        BucketStep(items, x, keys, c.id, acts[k].id);
      }
    }
  }

  lemma {:induction false} GroupedFilled<R, V>(items: seq<R>, keys: Keys<R, V>)
    ensures forall k :: 0 <= k < |Grouped(items, keys)| ==>
      Filled(Grouped(items, keys)[k].activities, Grouped(items, keys)[k].id, items, keys)
  {
    if items != [] {
      var init, x := items[..|items| - 1], items[|items| - 1];
      assert items == init + [x];
      GroupedFilled(init, keys);
      FilledStep(init, x, keys);
    }
  }

  lemma FilledStep<R, V>(init: seq<R>, x: R, keys: Keys<R, V>)
    requires forall k :: 0 <= k < |Grouped(init, keys)| ==>
      Filled(Grouped(init, keys)[k].activities, Grouped(init, keys)[k].id, init, keys)
    ensures var cs := Place(Grouped(init, keys), x, keys);
      forall k :: 0 <= k < |cs| ==> Filled(cs[k].activities, cs[k].id, init + [x], keys)
  {
    var cs := Grouped(init, keys);
    GroupedActivityIds(init, keys);
    GroupedCourseIds(init, keys);
    GroupedCovers(init, keys);
    var i := CourseIndex(cs, keys.courseOf(x));
    var c := if i < |cs| then cs[i] else NewCourse(x, keys);
    var cm := keys.cmOf(x);
    if ActivityIndex(c.activities, cm) == |c.activities| {
      forall y | y in init
        ensures !InActivity(keys, c.id, cm)(y)
      {
        assert Covers(cs, y, keys);
      }
    }
    EnterFilled(c, init, x, keys);
    var cs' := Place(cs, x, keys);
    forall k | 0 <= k < |cs'|
      ensures Filled(cs'[k].activities, cs'[k].id, init + [x], keys)
    {
      if k == i || k == |cs| {
        assert cs'[k] == Enter(c, x, keys);
      } else {
        assert cs'[k] == cs[k];
        FilledOther(cs[k].activities, cs[k].id, init, x, keys);
      }
    }
  }

  /** Every item filed in an activity is the view of one of the records. */
  lemma GroupedFrom<R, V>(items: seq<R>, keys: Keys<R, V>, k: nat, j: nat, v: V)
    requires k < |Grouped(items, keys)| && j < |Grouped(items, keys)[k].activities|
    requires v in Grouped(items, keys)[k].activities[j].content
    ensures exists x :: x in items && keys.view(x) == v
  {
    var cs := Grouped(items, keys);
    GroupedFilled(items, keys);
    assert Filled(cs[k].activities, cs[k].id, items, keys);
    var f := Filter(items, InActivity(keys, cs[k].id, cs[k].activities[j].id));
    var e :| 0 <= e < |f| && MapSeq(f, keys.view)[e] == v;
    assert f[e] in items;
  }

  // ---- Sizes.

  /** How one loop pass changes the number of courses and of activities:
      by one each exactly when the record's course, respectively its
      (course, activity) pair, is new. */
  lemma PlaceSizes<R, V>(cs: seq<Course<R, V>>, x: R, keys: Keys<R, V>)
    ensures var i := CourseIndex(cs, keys.courseOf(x));
      && |Place(cs, x, keys)| == |cs| + (if i < |cs| then 0 else 1)
      && ActivityTotal(Place(cs, x, keys)) == ActivityTotal(cs) + (if Covers(cs, x, keys) then 0 else 1)
  {
    var i := CourseIndex(cs, keys.courseOf(x));
    if i < |cs| {
      EnterShape(cs[i], x, keys);
      ActivityTotalUpdate(cs, i, Enter(cs[i], x, keys));
    } else {
      EnterShape(NewCourse(x, keys), x, keys);
      ActivityTotalAppend(cs, Enter(NewCourse(x, keys), x, keys));
    }
  }

  /** A course is present iff some record has its id, and a record's
      activity is present iff some record has its pair. */
  lemma PresentIff<R, V>(items: seq<R>, keys: Keys<R, V>, x: R)
    ensures CourseIndex(Grouped(items, keys), keys.courseOf(x)) < |Grouped(items, keys)|
        <==> keys.courseOf(x) in CourseSet(items, keys)
    ensures Covers(Grouped(items, keys), x, keys) <==> (keys.courseOf(x), keys.cmOf(x)) in PairSet(items, keys)
  {
    var cs := Grouped(items, keys);
    GroupedOpened(items, keys);
    GroupedCovers(items, keys);
    var i := CourseIndex(cs, keys.courseOf(x));
    if i < |cs| {
      var a := cs[i].activities[0];
      assert keys.courseOf(a.opener) in CourseSet(items, keys);
      var j := ActivityIndex(cs[i].activities, keys.cmOf(x));
      if j < |cs[i].activities| {
        var b := cs[i].activities[j];
        assert (keys.courseOf(b.opener), keys.cmOf(b.opener)) in PairSet(items, keys);
      }
    }
    if keys.courseOf(x) in CourseSet(items, keys) {
      var y :| y in items && keys.courseOf(y) == keys.courseOf(x);
      assert Covers(cs, y, keys);
    }
    if (keys.courseOf(x), keys.cmOf(x)) in PairSet(items, keys) {
      var y :| y in items && (keys.courseOf(y), keys.cmOf(y)) == (keys.courseOf(x), keys.cmOf(x));
      assert Covers(cs, y, keys);
    }
  }

  lemma SetsStep<R, V>(init: seq<R>, x: R, keys: Keys<R, V>)
    ensures CourseSet(init + [x], keys) == CourseSet(init, keys) + {keys.courseOf(x)}
    ensures PairSet(init + [x], keys) == PairSet(init, keys) + {(keys.courseOf(x), keys.cmOf(x))}
  {
  }

  /** The grouping has one course per distinct course id and one activity
      per distinct (course, course module) pair. */
  lemma {:induction false} GroupedCounts<R, V>(items: seq<R>, keys: Keys<R, V>)
    ensures |Grouped(items, keys)| == |CourseSet(items, keys)|
    ensures ActivityTotal(Grouped(items, keys)) == |PairSet(items, keys)|
  {
    if items == [] {
      assert CourseSet(items, keys) == {};
      assert PairSet(items, keys) == {};
    } else {
      var init, x := items[..|items| - 1], items[|items| - 1];
      assert items == init + [x];
      GroupedCounts(init, keys);
      CountsStep(init, x, keys);
    }
  }

  lemma CountsStep<R, V>(init: seq<R>, x: R, keys: Keys<R, V>)
    requires |Grouped(init, keys)| == |CourseSet(init, keys)|
    requires ActivityTotal(Grouped(init, keys)) == |PairSet(init, keys)|
    ensures |Grouped(init + [x], keys)| == |CourseSet(init + [x], keys)|
    ensures ActivityTotal(Grouped(init + [x], keys)) == |PairSet(init + [x], keys)|
  {
    var cs := Grouped(init, keys);
    assert (init + [x])[..|init|] == init;
    assert Grouped(init + [x], keys) == Place(cs, x, keys);
    SetsStep(init, x, keys);
    PlaceSizes(cs, x, keys);
    PresentIff(init, keys, x);
  }

  /** Every record is filed in the activity of its own (course, course
      module) pair, and each activity holds exactly the records of its pair,
      so each record lands in exactly one activity. Each activity counter
      equals the length of its list, each course counter the sum of its
      activities' counters, and no id repeats. */
  lemma GroupedBuckets<R, V>(items: seq<R>, keys: Keys<R, V>)
    ensures var cs := Grouped(items, keys);
      && (forall k, j :: 0 <= k < |cs| && 0 <= j < |cs[k].activities| ==>
            && cs[k].activities[j].content == Bucket(items, keys, cs[k].id, cs[k].activities[j].id)
            && cs[k].activities[j].contentCount == |cs[k].activities[j].content|)
      && (forall k :: 0 <= k < |cs| ==> cs[k].contentCount == SumCounts(cs[k].activities))
      && CourseIdsDistinct(cs)
      && (forall k :: 0 <= k < |cs| ==> ActivityIdsDistinct(cs[k].activities))
    ensures var cs := Grouped(items, keys);
      forall x :: x in items ==>
        var k := CourseIndex(cs, keys.courseOf(x));
        && k < |cs|
        && var j := ActivityIndex(cs[k].activities, keys.cmOf(x));
           && j < |cs[k].activities|
           && keys.view(x) in cs[k].activities[j].content
  {
    var cs := Grouped(items, keys);
    GroupedFilled(items, keys);
    GroupedCounted(items, keys);
    GroupedSummed(items, keys);
    GroupedCourseIds(items, keys);
    GroupedActivityIds(items, keys);
    GroupedCovers(items, keys);
    forall x | x in items
      ensures var k := CourseIndex(cs, keys.courseOf(x));
        && k < |cs|
        && var j := ActivityIndex(cs[k].activities, keys.cmOf(x));
           && j < |cs[k].activities|
           && keys.view(x) in cs[k].activities[j].content
    {
      assert Covers(cs, x, keys);
      var k := CourseIndex(cs, keys.courseOf(x));
      var j := ActivityIndex(cs[k].activities, keys.cmOf(x));
      var p := InActivity(keys, keys.courseOf(x), keys.cmOf(x));
      FilterKeeps(items, p, x);
      var f := Filter(items, p);
      var e :| 0 <= e < |f| && f[e] == x;
      assert MapSeq(f, keys.view)[e] == keys.view(x);
    }
  }
}
