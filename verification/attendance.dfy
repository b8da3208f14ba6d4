/**
 The attendance monitor of the administration console (views/Admin.tsx):
 today's clock records grouped by project, the distinct people present, the
 people assigned, the ordering by presence, each person's first and latest
 record, and the progress bar. `today` is a parameter (the UTC date prefix
 of the current time).
 */
module Attendance {
  import opened Types
  import opened Strings
  import opened Seqs
  import opened Sorting

  /** One row of the monitor. `presentUsers` is the insertion-ordered set of
      user ids seen. */
  datatype Summary = Summary(
    id: string,
    projectName: string,
    location: string,
    presentUsers: seq<string>,
    records: seq<AttendanceRecord>,
    totalAssigned: nat,
    count: nat)

  function ProjectIds(projects: seq<Project>): (ids: seq<string>)
    ensures |ids| == |projects|
    ensures forall i :: 0 <= i < |projects| ==> ids[i] == projects[i].id
  {
    seq(|projects|, i requires 0 <= i < |projects| => projects[i].id)
  }

  function UserIds(records: seq<AttendanceRecord>): (ids: seq<string>)
    ensures |ids| == |records|
    ensures forall i :: 0 <= i < |records| ==> ids[i] == records[i].userId
  {
    seq(|records|, i requires 0 <= i < |records| => records[i].userId)
  }

  // ---------------------------------------------------------------------------
  // grouping
  // ---------------------------------------------------------------------------

  /** The records of the day: those whose timestamp starts with `today`. */
  function TodayRecords(records: seq<AttendanceRecord>, today: string): (r: seq<AttendanceRecord>)
    ensures forall a :: a in r <==> a in records && StartsWith(a.time, today)
  {
    var p := (a: AttendanceRecord) => StartsWith(a.time, today);
    KeepMembers(records, p);
    Keep(records, p)
  }

  /** The records of the day that `push` into one project's bucket, in input
      order. */
  function ProjectRecords(todays: seq<AttendanceRecord>, id: string): (r: seq<AttendanceRecord>)
    ensures forall a :: a in r <==> a in todays && a.projectId == id
    ensures forall a :: multiset(r)[a] == if a.projectId == id then multiset(todays)[a] else 0
  {
    var p := (a: AttendanceRecord) => a.projectId == id;
    KeepMembers(todays, p);
    forall a ensures multiset(Keep(todays, p))[a] == if a.projectId == id then multiset(todays)[a] else 0 {
      KeepMultiplicity(todays, p, a);
    }
    Keep(todays, p)
  }

  /** The bucket receives the records in the order they arrive: the bucket of
      a concatenation is the concatenation of the buckets, and one record goes
      in exactly when it names the project. */
  lemma ProjectRecordsInOrder(a: seq<AttendanceRecord>, b: seq<AttendanceRecord>, x: AttendanceRecord, id: string)
    ensures ProjectRecords(a + b, id) == ProjectRecords(a, id) + ProjectRecords(b, id)
    ensures ProjectRecords([x], id) == if x.projectId == id then [x] else []
  {
    KeepConcat(a, b, (r: AttendanceRecord) => r.projectId == id);
    assert [x][1..] == [];
  }

  /** The number of users assigned to a project; it does not look at the
      attendance at all. */
  function AssignedCount(users: seq<User>, id: string): (n: nat)
    ensures n == |set i: nat | i < |users| && users[i].projectId == Some(id)|
    ensures n <= |users|
    ensures n == 0 <==> forall i :: 0 <= i < |users| ==> users[i].projectId != Some(id)
  {
    var p := (u: User) => u.projectId == Some(id);
    KeepCount(users, p);
    KeepEmpty(users, p);
    assert PassingPositions(users, p) == set i: nat | i < |users| && users[i].projectId == Some(id);
    |Keep(users, p)|
  }

  /** The position of the last project with the given id: building the
      record `stats[p.id] = ...` once per project lets a later duplicate
      overwrite an earlier one. */
  function LastIndexOf(projects: seq<Project>, id: string): (k: nat)
    requires id in ProjectIds(projects)
    ensures k < |projects| && projects[k].id == id
    ensures forall j :: k < j < |projects| ==> projects[j].id != id
  {
    var n := |projects| - 1;
    if projects[n].id == id then n
    else
      var ids := ProjectIds(projects);
      assert ProjectIds(projects[..n]) == ids[..n];
      assert ids == ids[..n] + [ids[n]];
      LastIndexOf(projects[..n], id)
  }

  /** One project's row before sorting. */
  function Summarize(projects: seq<Project>, users: seq<User>, todays: seq<AttendanceRecord>, id: string): (s: Summary)
    requires id in ProjectIds(projects)
    ensures s.id == id
    ensures var k := LastIndexOf(projects, id);
      s.projectName == projects[k].name && s.location == projects[k].location
    ensures s.totalAssigned == AssignedCount(users, id)
    ensures s.records == ProjectRecords(todays, id)
    ensures forall a :: a in s.records <==> a in todays && a.projectId == id
    ensures forall u :: u in s.presentUsers <==> u in UserIds(s.records)
    ensures NoDuplicates(s.presentUsers)
    ensures s.count == |set u | u in UserIds(s.records)|
    ensures s.count <= |s.records|
    ensures s.count == 0 <==> |s.records| == 0
  {
    var p := projects[LastIndexOf(projects, id)];
    var recs := ProjectRecords(todays, id);
    var present := Dedup(UserIds(recs));
    DedupSize(UserIds(recs));
    Summary(id, p.name, p.location, present, recs, AssignedCount(users, id), |present|)
  }

  /** One summary per id, in the order of `ids`. */
  function SummariesFor(projects: seq<Project>, users: seq<User>, todays: seq<AttendanceRecord>, ids: seq<string>): (rows: seq<Summary>)
    requires forall k :: 0 <= k < |ids| ==> ids[k] in ProjectIds(projects)
    ensures |rows| == |ids|
    ensures forall k :: 0 <= k < |ids| ==> rows[k] == Summarize(projects, users, todays, ids[k])
  {
    seq(|ids|, k requires 0 <= k < |ids| => Summarize(projects, users, todays, ids[k]))
  }

  /** The rows in `Object.entries` order: one per distinct project id, in
      first-occurrence order. */
  function Unsorted(projects: seq<Project>, users: seq<User>, records: seq<AttendanceRecord>, today: string): (rows: seq<Summary>)
    ensures var ids := Dedup(ProjectIds(projects));
      |rows| == |ids| && forall k :: 0 <= k < |rows| ==> rows[k].id == ids[k]
  {
    SummariesFor(projects, users, TodayRecords(records, today), Dedup(ProjectIds(projects)))
  }

  /** The comparator `(a, b) => b.count - a.count`. */
  const MorePresent: (Summary, Summary) -> bool := (a: Summary, b: Summary) => a.count > b.count

  /** Rows with equal counts are never separated by the comparator. */
  predicate HasCount(c: nat, s: Summary)
  {
    s.count == c
  }

  /** `attendanceByProject` */
  function AttendanceByProject(projects: seq<Project>, users: seq<User>, records: seq<AttendanceRecord>, today: string): (rows: seq<Summary>)
    ensures |rows| == |Dedup(ProjectIds(projects))|
    ensures multiset(rows) == multiset(Unsorted(projects, users, records, today))
  {
    SortBy(Unsorted(projects, users, records, today), MorePresent)
  }

  // ---------------------------------------------------------------------------
  // properties of the monitor
  // ---------------------------------------------------------------------------

  /** Any reordering of rows keyed by the distinct project ids has one row
      per project and only rows of projects. */
  lemma {:induction false} OneRowPerIdOf(projects: seq<Project>, un: seq<Summary>, rows: seq<Summary>)
    requires var ids := Dedup(ProjectIds(projects));
      |un| == |ids| && forall k :: 0 <= k < |un| ==> un[k].id == ids[k]
    requires multiset(rows) == multiset(un)
    ensures forall i :: 0 <= i < |projects| ==> exists k :: 0 <= k < |rows| && rows[k].id == projects[i].id
    ensures forall k :: 0 <= k < |rows| ==> rows[k].id in ProjectIds(projects)
    ensures forall k, l :: 0 <= k < l < |rows| ==> rows[k].id != rows[l].id
  {
    var pids := ProjectIds(projects);
    var ids := Dedup(pids);
    assert NoDuplicates(un) by {
      forall k, l | 0 <= k < l < |un|
        ensures un[k] != un[l]
      {
        assert un[k].id == ids[k] && un[l].id == ids[l];
      }
    }
    NoDuplicatesPermutation(un, rows);
    forall x
      ensures x in rows <==> x in un
    {
      assert x in rows <==> x in multiset(rows);
      assert x in un <==> x in multiset(un);
    }
    forall i | 0 <= i < |projects|
      ensures exists k :: 0 <= k < |rows| && rows[k].id == projects[i].id
    {
      assert pids[i] == projects[i].id;
      var j :| 0 <= j < |ids| && ids[j] == pids[i];
      assert un[j] in rows;
    }
    forall k | 0 <= k < |rows|
      ensures rows[k].id in pids
    {
      assert rows[k] in un;
    }
    forall k, l | 0 <= k < l < |rows|
      ensures rows[k].id != rows[l].id
    {
      assert rows[k] in un && rows[l] in un;
      var a :| 0 <= a < |un| && un[a] == rows[k];
      var b :| 0 <= b < |un| && un[b] == rows[l];
      assert a != b ==> ids[a] != ids[b];
    }
  }

  /** Every project gets exactly one row, whether or not anyone clocked in,
      and every row belongs to a project. */
  lemma {:induction false} OneRowPerProject(projects: seq<Project>, users: seq<User>, records: seq<AttendanceRecord>, today: string)
    ensures var rows := AttendanceByProject(projects, users, records, today);
      && (forall i :: 0 <= i < |projects| ==> exists k :: 0 <= k < |rows| && rows[k].id == projects[i].id)
      && (forall k :: 0 <= k < |rows| ==> rows[k].id in ProjectIds(projects))
      && (forall k, l :: 0 <= k < l < |rows| ==> rows[k].id != rows[l].id)
  {
    OneRowPerIdOf(projects, Unsorted(projects, users, records, today), AttendanceByProject(projects, users, records, today));
  }

  /** The rows are ordered by presence count, highest first. */
  lemma {:induction false} RowsByCountDescending(projects: seq<Project>, users: seq<User>, records: seq<AttendanceRecord>, today: string)
    ensures var rows := AttendanceByProject(projects, users, records, today);
      forall k, l :: 0 <= k < l < |rows| ==> rows[k].count >= rows[l].count
  {
    SortBySorted(Unsorted(projects, users, records, today), MorePresent);
  }

  /** The sort is stable: rows with the same count keep the order of the
      project list (for distinct project ids, exactly the input order). */
  lemma {:induction false} EqualCountsKeepProjectOrder(projects: seq<Project>, users: seq<User>, records: seq<AttendanceRecord>, today: string, c: nat)
    ensures Keep(AttendanceByProject(projects, users, records, today), s => HasCount(c, s))
         == Keep(Unsorted(projects, users, records, today), s => HasCount(c, s))
    ensures NoDuplicates(ProjectIds(projects)) ==> Dedup(ProjectIds(projects)) == ProjectIds(projects)
  {
    SortByStable(Unsorted(projects, users, records, today), MorePresent, s => HasCount(c, s));
    if NoDuplicates(ProjectIds(projects)) {
      DedupDistinct(ProjectIds(projects));
    }
  }

  /** Every sorted row is the summary of its own project. */
  lemma {:induction false} RowsAreSummaries(projects: seq<Project>, users: seq<User>, records: seq<AttendanceRecord>, today: string)
    ensures forall k :: 0 <= k < |AttendanceByProject(projects, users, records, today)| ==>
      && AttendanceByProject(projects, users, records, today)[k].id in ProjectIds(projects)
      && AttendanceByProject(projects, users, records, today)[k] ==
         Summarize(projects, users, TodayRecords(records, today), AttendanceByProject(projects, users, records, today)[k].id)
  {
    var rows := AttendanceByProject(projects, users, records, today);
    var un := Unsorted(projects, users, records, today);
    var ids := Dedup(ProjectIds(projects));
    var todays := TodayRecords(records, today);
    forall k | 0 <= k < |rows|
      ensures rows[k].id in ProjectIds(projects) && rows[k] == Summarize(projects, users, todays, rows[k].id)
    {
      assert rows[k] in multiset(un) by {
        assert rows[k] in multiset(rows);
      }
      var j :| 0 <= j < |un| && un[j] == rows[k];
      assert un[j] == Summarize(projects, users, todays, ids[j]);
    }
  }

  /** A record lands in some row exactly when it is from today and names a
      known project; anything else is dropped. */
  lemma {:induction false} RecordContributesIff(projects: seq<Project>, users: seq<User>, records: seq<AttendanceRecord>, today: string, a: AttendanceRecord)
    requires a in records
    ensures var rows := AttendanceByProject(projects, users, records, today);
      (exists k :: 0 <= k < |rows| && a in rows[k].records)
        <==> StartsWith(a.time, today) && a.projectId in ProjectIds(projects)
  {
    var rows := AttendanceByProject(projects, users, records, today);
    var todays := TodayRecords(records, today);
    RowsAreSummaries(projects, users, records, today);
    OneRowPerProject(projects, users, records, today);
    if StartsWith(a.time, today) && a.projectId in ProjectIds(projects) {
      var i :| 0 <= i < |projects| && ProjectIds(projects)[i] == a.projectId;
      var k :| 0 <= k < |rows| && rows[k].id == projects[i].id;
      assert rows[k] == Summarize(projects, users, todays, a.projectId);
      assert a in rows[k].records;
    }
    if exists k :: 0 <= k < |rows| && a in rows[k].records {
      var k :| 0 <= k < |rows| && a in rows[k].records;
      assert rows[k] == Summarize(projects, users, todays, rows[k].id);
    }
  }

  // ---------------------------------------------------------------------------
  // the header
  // ---------------------------------------------------------------------------

  /** The header's total: distinct users among all of today's records,
      including records naming no known project. */
  function PresentTotal(records: seq<AttendanceRecord>, today: string): (n: nat)
    ensures n == |set u | u in UserIds(TodayRecords(records, today))|
  {
    var ids := UserIds(TodayRecords(records, today));
    DedupSize(ids);
    |Dedup(ids)|
  }

  /** Fewer records hold no more distinct users. */
  lemma {:induction false} DistinctUsersWithin(sub: seq<AttendanceRecord>, all: seq<AttendanceRecord>)
    requires forall a :: a in sub ==> a in all
    ensures |set u | u in UserIds(sub)| <= |set u | u in UserIds(all)|
  {
    var mine := set u | u in UserIds(sub);
    var theirs := set u | u in UserIds(all);
    forall u | u in mine
      ensures u in theirs
    {
      var i :| 0 <= i < |sub| && UserIds(sub)[i] == u;
      assert sub[i] in all;
      var i' :| 0 <= i' < |all| && all[i'] == sub[i];
      assert UserIds(all)[i'] == u;
    }
    SubsetCardinality(mine, theirs);
  }

  /** The rows are memoised on the lists and keep the date read when they were
      last computed (`memoDay`); the header reads the date on every render
      (`renderDay`). While the two agree, no project counts more people than
      the header total. */
  lemma {:induction false} CountWithinPresentTotal(projects: seq<Project>, users: seq<User>, records: seq<AttendanceRecord>,
                                                   memoDay: string, renderDay: string, k: nat)
    requires k < |Dedup(ProjectIds(projects))|
    ensures memoDay == renderDay ==>
      AttendanceByProject(projects, users, records, memoDay)[k].count <= PresentTotal(records, renderDay)
  {
    var rows := AttendanceByProject(projects, users, records, memoDay);
    var todays := TodayRecords(records, memoDay);
    RowsAreSummaries(projects, users, records, memoDay);
    assert rows[k] == Summarize(projects, users, todays, rows[k].id);
    DistinctUsersWithin(rows[k].records, todays);
  }

  /** The summary behind the stale row below: one record of the first of
      January counts one person for its project on that day and nobody on
      the second. */
  lemma StaleSummary()
    ensures var projects := [Project("P1", "site", "here", InProgress)];
      var records := [AttendanceRecord("u1", "name", "P1", "2025-01-01T08:00", "CLOCK_IN", "gate")];
      && "P1" in ProjectIds(projects)
      && Summarize(projects, [], TodayRecords(records, "2025-01-01"), "P1").count == 1
      && PresentTotal(records, "2025-01-02") == 0
  {
    var projects := [Project("P1", "site", "here", InProgress)];
    var a := AttendanceRecord("u1", "name", "P1", "2025-01-01T08:00", "CLOCK_IN", "gate");
    var records := [a];
    assert ProjectIds(projects)[0] == "P1";
    assert StartsWith(a.time, "2025-01-01");
    assert !StartsWith(a.time, "2025-01-02") by {
      assert a.time[9] != "2025-01-02"[9];
    }
    var yesterday := TodayRecords(records, "2025-01-01");
    var today := TodayRecords(records, "2025-01-02");
    assert yesterday == records by {
      assert |yesterday| <= 1 && a in yesterday;
    }
    assert a !in today;
    assert UserIds(today) == [];
    var s := Summarize(projects, [], yesterday, "P1");
    assert s.records == records by {
      assert |s.records| <= 1 && a in s.records;
    }
    assert UserIds(records) == ["u1"];
    assert (set u | u in ["u1"]) == {"u1"};
  }

  /** Once the date has moved on and the lists have not changed, the memoised
      rows still count yesterday's people while the header counts today's:
      one record of the first of January keeps the board's only row at one
      person on the second, under a header total of zero. */
  lemma StaleRowsCanExceedTotal()
    ensures var projects := [Project("P1", "site", "here", InProgress)];
      var records := [AttendanceRecord("u1", "name", "P1", "2025-01-01T08:00", "CLOCK_IN", "gate")];
      var rows := AttendanceByProject(projects, [], records, "2025-01-01");
      && |rows| == 1
      && rows[0].count == 1
      && PresentTotal(records, "2025-01-02") == 0
  {
    var projects := [Project("P1", "site", "here", InProgress)];
    var records := [AttendanceRecord("u1", "name", "P1", "2025-01-01T08:00", "CLOCK_IN", "gate")];
    StaleSummary();
    assert ProjectIds(projects) == ["P1"];
    assert Dedup(ProjectIds(projects)) == ["P1"];
    var rows := AttendanceByProject(projects, [], records, "2025-01-01");
    RowsAreSummaries(projects, [], records, "2025-01-01");
    assert rows[0].id in ProjectIds(projects);
    assert rows[0] == Summarize(projects, [], TodayRecords(records, "2025-01-01"), "P1");
  }

  // ---------------------------------------------------------------------------
  // the progress bar
  // ---------------------------------------------------------------------------

  /** The bar width in percent, guarded against a project with nobody
      assigned. More people present than assigned overflows past 100. */
  function BarWidth(count: nat, totalAssigned: nat): (w: real)
    ensures totalAssigned == 0 ==> w == 0.0
    ensures totalAssigned > 0 ==> w * (totalAssigned as real) == (count as real) * 100.0
    ensures totalAssigned > 0 ==> (w <= 100.0 <==> count <= totalAssigned)
  {
    if totalAssigned > 0 then (count as real) / (totalAssigned as real) * 100.0 else 0.0
  }

  /** The bar turns green when everyone assigned is present. */
  predicate Complete(count: nat, totalAssigned: nat)
  {
    count == totalAssigned && totalAssigned > 0
  }

  /** The bar is green exactly when it is full. */
  lemma CompleteIffFull(count: nat, totalAssigned: nat)
    ensures Complete(count, totalAssigned) <==> BarWidth(count, totalAssigned) == 100.0
  {
  }

  // ---------------------------------------------------------------------------
  // one person's line
  // ---------------------------------------------------------------------------

  /** `b.time.localeCompare(a.time)`: later timestamps first. */
  const LaterFirst: (AttendanceRecord, AttendanceRecord) -> bool :=
    (a: AttendanceRecord, b: AttendanceRecord) => LexLess(b.time, a.time)

  lemma LaterFirstIsStrictWeakOrder()
    ensures StrictWeakOrder(LaterFirst)
  {
    forall a: AttendanceRecord, b: AttendanceRecord
      ensures LaterFirst(a, b) ==> !LaterFirst(b, a)
    {
      LexTrichotomy(a.time, b.time);
    }
    forall a: AttendanceRecord, b: AttendanceRecord, c: AttendanceRecord
      ensures LaterFirst(a, c) ==> LaterFirst(a, b) || LaterFirst(b, c)
    {
      LexTrichotomy(a.time, b.time);
      if LexLess(c.time, a.time) && LexLess(a.time, b.time) {
        LexLessTransitive(c.time, a.time, b.time);
      }
    }
  }

  /** A person's records in a row, newest first. */
  function UserTimeline(records: seq<AttendanceRecord>, uid: string): (t: seq<AttendanceRecord>)
    ensures forall a :: a in t <==> a in records && a.userId == uid
  {
    var p := (a: AttendanceRecord) => a.userId == uid;
    KeepMembers(records, p);
    var mine := Keep(records, p);
    var t := SortBy(mine, LaterFirst);
    assert forall a :: a in t <==> a in mine by {
      forall a
        ensures a in t <==> a in mine
      {
        SortByMember(mine, LaterFirst, a);
      }
    }
    t
  }

  /** The expanded line of a present person: `latest` is the head of the
      timeline and `first` its tail. */
  datatype UserLine = UserLine(latest: AttendanceRecord, first: AttendanceRecord)

  /** In a timeline sorted newest first, the head is the latest and the tail
      the earliest. */
  lemma {:induction false} TimelineEnds(t: seq<AttendanceRecord>)
    requires |t| > 0
    requires SortedBy(t, LaterFirst)
    ensures forall j :: 0 <= j < |t| ==> LexLe(t[j].time, t[0].time) && LexLe(t[|t| - 1].time, t[j].time)
  {
    var n := |t| - 1;
    forall j | 0 <= j < |t|
      ensures LexLe(t[j].time, t[0].time) && LexLe(t[n].time, t[j].time)
    {
      if j > 0 {
        assert !LaterFirst(t[j], t[0]);
        LexTrichotomy(t[j].time, t[0].time);
      }
      if j < n {
        assert !LaterFirst(t[n], t[j]);
        LexTrichotomy(t[j].time, t[n].time);
      }
    }
  }

  function UserLineOf(records: seq<AttendanceRecord>, uid: string): (l: UserLine)
    requires uid in UserIds(records)
    ensures l.latest in records && l.latest.userId == uid
    ensures l.first in records && l.first.userId == uid
    ensures forall a :: a in records && a.userId == uid ==>
      LexLe(a.time, l.latest.time) && LexLe(l.first.time, a.time)
  {
    var i :| 0 <= i < |records| && UserIds(records)[i] == uid;
    var t := UserTimeline(records, uid);
    assert records[i] in t;
    LaterFirstIsStrictWeakOrder();
    SortBySorted(Keep(records, (a: AttendanceRecord) => a.userId == uid), LaterFirst);
    var n := |t| - 1;
    TimelineEnds(t);
    UserLine(t[0], t[n])
  }
}
