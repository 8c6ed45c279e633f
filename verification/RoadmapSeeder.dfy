/** The roadmap script itself: loops over the payload, one transaction, one commit. */
module RoadmapSeeder {
  import opened Basics
  import opened RoadmapModel

  class Database {
    /** What other sessions see. */
    var committed: Tables
    /** This session: rows as flushed, and rows as their objects say. */
    var stored: Tables
    var live: Tables
    const catalog: Catalog

    constructor (t: Tables, courses: Catalog)
      ensures committed == t && catalog == courses
    {
      committed, stored, live, catalog := t, t, t, courses;
    }

    ghost function State(): Session
      reads this
    {
      Session(stored, live)
    }

    method FlushChanges() returns (r: Result<(), Error>)
      modifies this
      ensures committed == old(committed) && live == old(live)
      ensures match Flush(old(State()))
              case Ok(s) => r.Ok? && State() == s
              case Err(e) => r == Err(e)
    {
      if !Sound(live) {
        return Err(IntegrityError);
      }
      stored := live;
      r := Ok(());
    }

    method SeedRoadmapRow(p: Payload) returns (r: Result<int, Error>)
      requires stored == live
      modifies this
      ensures committed == old(committed)
      ensures match RoadmapStep(old(live), p)
              case Ok((s, rid)) => r == Ok(rid) && State() == s
              case Err(e) => r == Err(e)
      ensures r.Ok? ==> SameShape(State())
    {
      var found := RoadmapRows(stored.roadmaps, p);
      assert forall a :: 0 <= a < |found| ==> found[a] in found;
      if |found| > 1 {
        return Err(MultipleRows);
      }
      if found == [] {
        var rid := |live.roadmaps|;
        live := live.(roadmaps := live.roadmaps + [FreshRoadmap(p)]);
        var flushed := FlushChanges();
        if flushed.Err? {
          return Err(flushed.error);
        }
        return Ok(rid);
      }
      var row := live.roadmaps[found[0]];
      live := live.(roadmaps := live.roadmaps[found[0] := row.(status := Active, path := p.path)]);
      r := Ok(found[0]);
    }

    /** Goes through the other stored active rows of the pair. */
    method Retire(p: Payload, rid: int)
      requires SameShape(State())
      modifies this
      ensures committed == old(committed) && State() == RetireOthers(old(State()), p, rid) && SameShape(State())
    {
      ghost var before := live.roadmaps;
      for i := 0 to |stored.roadmaps|
        invariant committed == old(committed) && stored == old(stored)
        invariant live == old(live).(roadmaps := live.roadmaps) && |live.roadmaps| == |before|
        invariant forall j :: 0 <= j < |before| ==>
          live.roadmaps[j] ==
          if j < i && SamePair(stored.roadmaps[j], p) && stored.roadmaps[j].status == Active && j != rid
          then before[j].(status := Retired) else before[j]
      {
        if SamePair(stored.roadmaps[i], p) && stored.roadmaps[i].status == Active && i != rid {
          live := live.(roadmaps := live.roadmaps[i := live.roadmaps[i].(status := Retired)]);
        }
      }
      assert live.roadmaps == RetireOthers(old(State()), p, rid).live.roadmaps;
    }

    method SeedEntry(e: Entry) returns (r: Result<(), Error>)
      requires SameShape(State())
      modifies this
      ensures committed == old(committed)
      ensures match EntryStep(old(State()), e)
              case Ok(s) => r.Ok? && State() == s
              case Err(x) => r == Err(x)
    {
      var found := EntryRows(stored.entries, EntryKey(e));
      assert forall a :: 0 <= a < |found| ==> found[a] in found;
      if |found| > 1 {
        return Err(MultipleRows);
      }
      if found == [] {
        live := live.(entries := live.entries + [Some(e)]);
      } else {
        live := live.(entries := live.entries[found[0] := Some(e)]);
      }
      r := Ok(());
    }

    method SeedYearRow(y: Year) returns (r: Result<int, Error>)
      requires SameShape(State())
      modifies this
      ensures committed == old(committed)
      ensures match YearRow(old(State()), y)
              case Ok((s, yid)) => r == Ok(yid) && State() == s
              case Err(e) => r == Err(e)
      ensures r.Ok? ==> SameShape(State())
    {
      var found := YearRows(stored.years, YearKey(y));
      assert forall a :: 0 <= a < |found| ==> found[a] in found;
      if |found| > 1 {
        return Err(MultipleRows);
      }
      if found == [] {
        var yid := |live.years|;
        live := live.(years := live.years + [Some(y)]);
        var flushed := FlushChanges();
        if flushed.Err? {
          return Err(flushed.error);
        }
        return Ok(yid);
      }
      live := live.(years := live.years[found[0] := Some(y)]);
      r := Ok(found[0]);
    }

    method SeedYear(rid: int, program: string, y: YearData) returns (r: Result<(), Error>)
      requires SameShape(State())
      modifies this
      ensures committed == old(committed)
      ensures match YearStep(old(State()), rid, program, catalog, y)
              case Ok(s) => r.Ok? && State() == s
              case Err(e) => r == Err(e)
    {
      hide EntryStep, YearRow, LinkOf;
      var row := SeedYearRow(YearOf(rid, y));
      if row.Err? {
        return Err(row.error);
      }
      var yid := row.value;
      ghost var s := State();
      for i := 0 to |y.courses|
        invariant committed == old(committed) && SameShape(State())
        invariant SeedEntries(s, rid, yid, program, catalog, y.courses[..i]) == Ok(State())
      {
        assert y.courses[..i + 1][..i] == y.courses[..i];
        var step := SeedEntry(EntryOf(rid, yid, program, catalog, y.courses[i]));
        if step.Err? {
          SeedEntriesFails(s, rid, yid, program, catalog, y.courses, i + 1);
          return Err(step.error);
        }
      }
      assert y.courses[..|y.courses|] == y.courses;
      r := Ok(());
    }

    /** First the stored courses whose code is gone, then the gone years with their stored courses. */
    method DropWhatLeft(rid: int, codes: set<string>, pairs: set<(int, Option<int>)>)
      requires SameShape(State())
      modifies this
      ensures committed == old(committed) && State() == DropLeft(old(State()), rid, codes, pairs)
    {
      hide YearLeaves, Leaving;
      ghost var before := live;
      for i := 0 to |stored.entries|
        invariant committed == old(committed) && stored == old(stored)
        invariant live == before.(entries := live.entries) && |live.entries| == |before.entries|
        invariant forall j :: 0 <= j < |before.entries| ==>
          live.entries[j] ==
          if j < i && Leaving(stored.entries[j], rid, codes) then None else before.entries[j]
      {
        if Leaving(stored.entries[i], rid, codes) {
          live := live.(entries := live.entries[i := None]);
        }
      }
      for y := 0 to |stored.years|
        invariant committed == old(committed) && stored == old(stored)
        invariant live == before.(years := live.years, entries := live.entries)
        invariant |live.entries| == |before.entries| && |live.years| == |before.years|
        invariant forall z :: 0 <= z < |before.years| ==>
          live.years[z] ==
          if z < y && YearLeaves(stored.years, rid, pairs, z) then None else before.years[z]
        invariant forall j :: 0 <= j < |before.entries| ==>
          live.entries[j] ==
          if j < |stored.entries|
             && (Leaving(stored.entries[j], rid, codes) || (InYearBefore(stored.entries[j], y)
                   && YearLeaves(stored.years, rid, pairs, stored.entries[j].value.year)))
          then None else before.entries[j]
      {
        if YearLeaves(stored.years, rid, pairs, y) {
          DropCoursesOf(y);
          live := live.(years := live.years[y := None]);
        }
      }
      YearsInRange(stored.years, rid, pairs);
      LeavingIsSome(rid, codes);
      assert live.entries == DropLeft(old(State()), rid, codes, pairs).live.entries;
      assert live.years == DropLeft(old(State()), rid, codes, pairs).live.years;
    }

    method DropCoursesOf(y: int)
      requires SameShape(State())
      modifies this
      ensures committed == old(committed) && stored == old(stored) && live == old(live).(entries := live.entries)
      ensures |live.entries| == |old(live).entries|
      ensures forall j :: 0 <= j < |live.entries| ==>
        live.entries[j] ==
        if j < |stored.entries| && stored.entries[j].Some? && stored.entries[j].value.year == y then None else old(live).entries[j]
    {
      for i := 0 to |stored.entries|
        invariant committed == old(committed) && stored == old(stored)
        invariant live == old(live).(entries := live.entries) && |live.entries| == |old(live).entries|
        invariant forall j :: 0 <= j < |live.entries| ==>
          live.entries[j] ==
          if j < i && stored.entries[j].Some? && stored.entries[j].value.year == y then None else old(live).entries[j]
      {
        if stored.entries[i].Some? && stored.entries[i].value.year == y {
          live := live.(entries := live.entries[i := None]);
        }
      }
    }

    /** The run commits what `Run` says, or rolls everything back. */
    method SeedRoadmaps(p: Payload) returns (r: Result<(), Error>)
      modifies this
      ensures match Run(old(committed), catalog, p)
              case Ok(t) => r.Ok? && committed == t
              case Err(e) => r == Err(e) && committed == old(committed)
    {
      hide Flush, YearStep, RoadmapStep, RetireOthers, DropLeft, ValidYear, CanonicalProgram;
      stored, live := committed, committed;
      if !ValidPayload(p) {
        return Err(InvalidPayload);
      }
      var program := CanonicalProgram(p.program);
      var row := SeedRoadmapRow(p);
      if row.Err? {
        return Err(row.error);
      }
      var rid := row.value;
      Retire(p, rid);
      ghost var s := State();
      for i := 0 to |p.years|
        invariant committed == old(committed) && SameShape(State())
        invariant SeedYears(s, rid, program, catalog, p.years[..i]) == Ok(State())
      {
        assert p.years[..i + 1][..i] == p.years[..i];
        var step := SeedYear(rid, program, p.years[i]);
        if step.Err? {
          SeedYearsFails(s, rid, program, catalog, p.years, i + 1);
          return Err(step.error);
        }
      }
      assert p.years[..|p.years|] == p.years;
      DropWhatLeft(rid, AllCodes(p.years), YearPairs(p.years));
      var flushed := FlushChanges();
      if flushed.Err? {
        return Err(flushed.error);
      }
      committed := stored;
      r := Ok(());
    }
  }

  predicate InYearBefore(e: Option<Entry>, y: int) {
    e.Some? && 0 <= e.value.year < y
  }

  lemma YearsInRange(rows: seq<Option<Year>>, rid: int, pairs: set<(int, Option<int>)>)
    ensures forall y :: YearLeaves(rows, rid, pairs, y) ==> 0 <= y < |rows|
  {
  }

  lemma LeavingIsSome(rid: int, codes: set<string>)
    ensures forall row :: Leaving(row, rid, codes) ==> row.Some?
  {
  }

  // ---- A failing step fails the pass ----

  lemma {:induction false} SeedEntriesFails(
    s: Session, rid: int, yid: int, program: string, catalog: Catalog, courses: seq<CourseData>, n: nat)
    requires n <= |courses| && SameShape(s) && SeedEntries(s, rid, yid, program, catalog, courses[..n]).Err?
    ensures SeedEntries(s, rid, yid, program, catalog, courses) == SeedEntries(s, rid, yid, program, catalog, courses[..n])
    decreases |courses| - n
  {
    hide EntryStep;
    if n < |courses| {
      assert courses[..n + 1][..n] == courses[..n];
      SeedEntriesFails(s, rid, yid, program, catalog, courses, n + 1);
    } else {
      assert courses[..n] == courses;
    }
  }

  lemma {:induction false} SeedYearsFails(
    s: Session, rid: int, program: string, catalog: Catalog, years: seq<YearData>, n: nat)
    requires n <= |years| && SameShape(s) && SeedYears(s, rid, program, catalog, years[..n]).Err?
    ensures SeedYears(s, rid, program, catalog, years) == SeedYears(s, rid, program, catalog, years[..n])
    decreases |years| - n
  {
    hide YearStep;
    if n < |years| {
      assert years[..n + 1][..n] == years[..n];
      SeedYearsFails(s, rid, program, catalog, years, n + 1);
    } else {
      assert years[..n] == years;
    }
  }
}
