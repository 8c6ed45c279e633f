/** The seeding script itself: loops over the payload, one transaction, one commit. */
module CurriculumSeeder {
  import opened Basics
  import opened CurriculumModel

  class Database {
    /** What other sessions see. */
    var committed: Tables
    /** This session: rows as flushed, rows as their objects say, and a doubled pending cell. */
    var stored: Tables
    var live: Tables
    var clash: bool

    constructor (t: Tables)
      ensures committed == t
    {
      committed, stored, live, clash := t, t, t, false;
    }

    ghost function State(): Session
      reads this
    {
      Session(stored, live, clash)
    }

    method FlushChanges() returns (r: Result<(), Error>)
      modifies this
      ensures committed == old(committed) && live == old(live)
      ensures match Flush(old(State()))
              case Ok(s) => r.Ok? && State() == s
              case Err(e) => r == Err(e) && State() == old(State())
    {
      if clash || !Sound(live) {
        return Err(IntegrityError);
      }
      stored := live;
      r := Ok(());
    }

    method SeedObjective(d: ObjectiveData, byCode: map<string, int>) returns (r: Result<map<string, int>, Error>)
      requires SameShape(State()) && IdsIn(byCode, live.objectives)
      modifies this
      ensures committed == old(committed)
      ensures match ObjectiveStep(Progress(old(State()), byCode), d)
              case Ok(p) => r == Ok(p.ids) && State() == p.session
              case Err(e) => r == Err(e)
    {
      var found := Resolve(stored.objectives, d.code);
      match found
      case Err(e) =>
        return Err(e);
      case Ok(None) =>
        var id := |live.objectives|;
        live := live.(objectives := live.objectives + [FreshObjective(d)]);
        var flushed := FlushChanges();
        if flushed.Err? {
          return Err(flushed.error);
        }
        r := Ok(byCode[d.code := id]);
      case Ok(Some(id)) =>
        var objective := live.objectives[id];
        if !objective.managed && (objective.program != CANONICAL || objective.description != d.description) {
          objective := objective.(program := CANONICAL, description := d.description, version := objective.version + 1);
        }
        if !objective.managed && !Named(objective.seedCode) {
          objective := objective.(seedCode := Some(d.code));
        }
        live := live.(objectives := live.objectives[id := objective]);
        r := Ok(byCode[d.code := id]);
    }

    /** Find, create or correct the row of a course. */
    method SeedCourseRow(d: CourseData) returns (r: Result<(int, bool), Error>)
      requires SameShape(State())
      modifies this
      ensures committed == old(committed)
      ensures match CourseRow(old(State()), d)
              case Ok((s, k, isNew)) => r == Ok((k, isNew)) && State() == s
              case Err(e) => r == Err(e)
      ensures r.Ok? ==>
        SameShape(State()) && 0 <= r.value.0 < |live.courses| && live.objectives == old(live.objectives)
    {
      var found := CoursesCoded(stored.courses, d.code);
      assert forall a :: 0 <= a < |found| ==> found[a] in found;
      if |found| > 1 {
        return Err(MultipleRows);
      }
      if found == [] {
        var id := |live.courses|;
        live := live.(courses := live.courses + [FreshCourse(d)]);
        var flushed := FlushChanges();
        if flushed.Err? {
          return Err(flushed.error);
        }
        return Ok((id, true));
      }
      var id := found[0];
      var course := live.courses[id];
      if !IsAlias(course.program) {
        return Err(ForeignCourse);
      }
      if course.program != CANONICAL || course.title != d.title {
        course := course.(program := CANONICAL, title := d.title);
      }
      live := live.(courses := live.courses[id := course]);
      r := Ok((id, false));
    }

    method PutCourseLevels(k: int, byCode: map<string, int>, levels: Levels) returns (r: Result<(), Error>)
      requires IdsIn(byCode, live.objectives)
      modifies this
      ensures committed == old(committed)
      ensures match PutLevels(old(State()), k, byCode, levels)
              case Ok(s) => r.Ok? && State() == s
              case Err(e) => r == Err(e)
    {
      for i := 0 to |levels|
        invariant committed == old(committed)
        invariant PutLevels(old(State()), k, byCode, levels[..i]) == Ok(State())
      {
        assert levels[..i + 1][..i] == levels[..i];
        if levels[i].0 !in byCode {
          PutLevelsFails(old(State()), k, byCode, levels, i + 1);
          return Err(UnknownCode);
        }
        var o := byCode[levels[i].0];
        if IsAlias(live.objectives[o].program) {
          if (k, o) !in stored.cells && (k, o) in live.cells {
            clash := true;
          }
          live := live.(cells := live.cells[(k, o) := levels[i].1]);
        }
      }
      assert levels[..|levels|] == levels;
      r := Ok(());
    }

    /** Goes through the stored cells of the course and deletes the stale ones. */
    method DeleteStale(k: int, known: set<string>, levels: Levels)
      modifies this
      ensures committed == old(committed) && State() == DropStale(old(State()), k, known, levels)
      ensures live == old(live).(cells := live.cells)
    {
      hide Stale;
      ghost var before := live.cells;
      var rest := set key | key in stored.cells && key.0 == k;
      while rest != {}
        invariant committed == old(committed) && stored == old(stored) && clash == old(clash)
        invariant live == old(live).(cells := live.cells)
        invariant rest <= set key | key in stored.cells && key.0 == k
        invariant forall key :: key in live.cells <==>
          && key in before
          && !(key.0 == k && key in stored.cells && key !in rest && Stale(live.objectives, key.1, known, levels))
        invariant forall key :: key in live.cells ==> live.cells[key] == before[key]
        decreases |rest|
      {
        var key :| key in rest;
        if Stale(live.objectives, key.1, known, levels) {
          live := live.(cells := live.cells - {key});
        }
        rest := rest - {key};
      }
      assert live.cells == DropStale(old(State()), k, known, levels).live.cells;
    }

    method SeedCourse(d: CourseData, byCode: map<string, int>, known: set<string>) returns (r: Result<(), Error>)
      requires SameShape(State()) && IdsIn(byCode, live.objectives)
      modifies this
      ensures committed == old(committed)
      ensures match CourseStep(old(State()), byCode, known, d)
              case Ok(s) => r.Ok? && State() == s
              case Err(e) => r == Err(e)
    {
      hide Flush, DropStale, LevelsOf, Canonical, CourseRow, PutLevels, Stale;
      var row := SeedCourseRow(d);
      if row.Err? {
        return Err(row.error);
      }
      var (k, isNew) := row.value;
      var canonical := Canonical(d.levels);
      if live.courses[k].mapped {
        return Ok(());
      }
      var previous := LevelsOf(Session(stored, live, clash), k);
      var put := PutCourseLevels(k, byCode, canonical);
      if put.Err? {
        return Err(put.error);
      }
      DeleteStale(k, known, canonical);
      var flushed := FlushChanges();
      if flushed.Err? {
        return Err(flushed.error);
      }
      if !isNew && previous != LevelsOf(Session(stored, live, clash), k) {
        var course := live.courses[k];
        live := live.(courses := live.courses[k := course.(mappingVersion := course.mappingVersion + 1)]);
      }
      r := Ok(());
    }

    /** The run commits what `Run` says, or rolls everything back. */
    method SeedCurriculumMap(p: Payload) returns (r: Result<(), Error>)
      modifies this
      ensures match Run(old(committed), p)
              case Ok(t) => r.Ok? && committed == t
              case Err(e) => r == Err(e) && committed == old(committed)
    {
      hide Flush, CourseStep, ObjectiveStep, Resolve;
      stored, live, clash := committed, committed, false;
      if !IsAlias(p.program) {
        return Err(UnsupportedProgram);
      }
      var known := Codes(p.objectives);
      ghost var begin := State();
      var byCode: map<string, int> := map[];
      for i := 0 to |p.objectives|
        invariant committed == old(committed) && SameShape(State()) && IdsIn(byCode, live.objectives)
        invariant SeedObjectives(begin, p.objectives[..i]) == Ok(Progress(State(), byCode))
      {
        assert p.objectives[..i + 1][..i] == p.objectives[..i];
        var step := SeedObjective(p.objectives[i], byCode);
        if step.Err? {
          SeedObjectivesFails(begin, p.objectives, i + 1);
          return Err(step.error);
        }
        byCode := step.value;
      }
      assert p.objectives[..|p.objectives|] == p.objectives;
      ghost var middle := State();
      for i := 0 to |p.courses|
        invariant committed == old(committed) && SameShape(State()) && IdsIn(byCode, live.objectives)
        invariant SeedCourses(middle, byCode, known, p.courses[..i]) == Ok(State())
      {
        assert p.courses[..i + 1][..i] == p.courses[..i];
        var step := SeedCourse(p.courses[i], byCode, known);
        if step.Err? {
          SeedCoursesFails(middle, byCode, known, p.courses, i + 1);
          return Err(step.error);
        }
      }
      assert p.courses[..|p.courses|] == p.courses;
      var flushed := FlushChanges();
      if flushed.Err? {
        return Err(flushed.error);
      }
      committed := stored;
      r := Ok(());
    }
  }

  // ---- A failing step fails the pass ----

  lemma {:induction false} PutLevelsFails(s: Session, k: int, ids: map<string, int>, levels: Levels, n: nat)
    requires n <= |levels| && IdsIn(ids, s.live.objectives) && PutLevels(s, k, ids, levels[..n]).Err?
    ensures PutLevels(s, k, ids, levels) == PutLevels(s, k, ids, levels[..n])
    decreases |levels| - n
  {
    if n < |levels| {
      assert levels[..n + 1][..n] == levels[..n];
      PutLevelsFails(s, k, ids, levels, n + 1);
    } else {
      assert levels[..n] == levels;
    }
  }

  lemma {:induction false} SeedObjectivesFails(s: Session, data: seq<ObjectiveData>, n: nat)
    requires n <= |data| && SameShape(s) && SeedObjectives(s, data[..n]).Err?
    ensures SeedObjectives(s, data) == SeedObjectives(s, data[..n])
    decreases |data| - n
  {
    hide ObjectiveStep;
    if n < |data| {
      assert data[..n + 1][..n] == data[..n];
      SeedObjectivesFails(s, data, n + 1);
    } else {
      assert data[..n] == data;
    }
  }

  lemma {:induction false} SeedCoursesFails(s: Session, ids: map<string, int>, known: set<string>, data: seq<CourseData>, n: nat)
    requires n <= |data| && SameShape(s) && IdsIn(ids, s.live.objectives)
    requires SeedCourses(s, ids, known, data[..n]).Err?
    ensures SeedCourses(s, ids, known, data) == SeedCourses(s, ids, known, data[..n])
    decreases |data| - n
  {
    hide CourseStep;
    if n < |data| {
      assert data[..n + 1][..n] == data[..n];
      SeedCoursesFails(s, ids, known, data, n + 1);
    } else {
      assert data[..n] == data;
    }
  }
}
