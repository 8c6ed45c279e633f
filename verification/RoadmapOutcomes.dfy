/** What a roadmap run leaves of the payload, field by field. */
module RoadmapOutcomes {
  import opened Basics
  import opened Texts
  import opened Upserts
  import opened RoadmapModel
  import opened RoadmapSteps
  import opened RoadmapTheorems
  import opened RoadmapRepeat

  // ---- Field by field ----

  function ProgramName(value: string): string {
    if Upper(Strip(value)) == "BSIT" then "BSInfoTech" else Upper(Strip(value))
  }

  lemma CanonicalIsTheName(value: string)
    ensures CanonicalProgram(value) == ProgramName(value)
  {
    NeverMixedCase(Strip(value));
  }

  predicate RoadmapSeeded(r: Roadmap, p: Payload) {
    && r.program == ProgramName(p.program) && r.specialization == p.specialization && r.version == p.version
    && r.status == Active && r.path == p.path
  }

  predicate YearSeeded(years: seq<Option<Year>>, rid: int, y: YearData, i: int) {
    && 0 <= i < |years| && years[i].Some?
    && var row := years[i].value;
       && row.roadmap == rid && row.number == y.number && row.semester == y.semester
       && row.heading == y.heading && row.description == y.description
  }

  /** Not proposed, in the catalog, and owned by the program, capitals aside. */
  predicate OwnCourse(catalog: Catalog, program: string, d: CourseData) {
    d.details.status != "proposed" && d.code in catalog && Lower(catalog[d.code].1) == Lower(program)
  }

  /** Row `i` is the payload's course, in row `k` of the years. */
  predicate CourseSeeded(entries: seq<Option<Entry>>, rid: int, k: int, program: string, catalog: Catalog, d: CourseData, i: int) {
    && 0 <= i < |entries| && entries[i].Some?
    && var row := entries[i].value;
       && row.roadmap == rid && row.year == k && row.code == d.code
       && row.details.title == d.details.title && row.details.status == d.details.status
       && row.details.stack == d.details.stack && row.details.stage == d.details.stage
       && row.details.outcomes == d.details.outcomes && row.details.project == d.details.project
       && row.details.certification == d.details.certification
       && row.link == if OwnCourse(catalog, program, d) then Some(catalog[d.code].0) else None
  }

  ghost predicate InItsYear(t: Tables, rid: int, catalog: Catalog, p: Payload, q: int)
    requires 0 <= q < |Flat(p.years)|
  {
    exists i, k :: SeededIn(t, rid, catalog, p, q, i, k)
  }

  ghost predicate SeededIn(t: Tables, rid: int, catalog: Catalog, p: Payload, q: int, i: int, k: int)
    requires 0 <= q < |Flat(p.years)|
  {
    && YearSeeded(t.years, rid, Flat(p.years)[q].0, k)
    && CourseSeeded(t.entries, rid, k, ProgramName(p.program), catalog, Flat(p.years)[q].1, i)
  }

  ghost predicate SomeYear(t: Tables, rid: int, p: Payload, i: int) {
    exists j :: 0 <= j < |p.years| && YearSeeded(t.years, rid, p.years[j], i)
  }

  ghost predicate HasYear(t: Tables, rid: int, y: YearData) {
    exists i :: YearSeeded(t.years, rid, y, i)
  }

  ghost predicate SomeCourse(t: Tables, rid: int, catalog: Catalog, p: Payload, i: int) {
    exists q :: IsCourse(t, rid, catalog, p, i, q)
  }

  ghost predicate IsCourse(t: Tables, rid: int, catalog: Catalog, p: Payload, i: int, q: int) {
    0 <= q < |Flat(p.years)| && 0 <= i < |t.entries| && t.entries[i].Some?
    && SeededIn(t, rid, catalog, p, q, i, t.entries[i].value.year)
  }

  /** Another row of the program and specialization. */
  predicate Rival(t: Tables, rid: int, p: Payload, i: int) {
    && 0 <= i < |t.roadmaps| && i != rid
    && t.roadmaps[i].specialization == p.specialization && t.roadmaps[i].program == ProgramName(p.program)
  }

  /** The row is the payload's and active, and every rival is retired. */
  ghost predicate RoadmapPart(t: Tables, rid: int, p: Payload) {
    && 0 <= rid < |t.roadmaps| && RoadmapSeeded(t.roadmaps[rid], p)
    && forall i :: Rival(t, rid, p, i) ==> t.roadmaps[i].status == Retired
  }

  ghost predicate YearsPart(t: Tables, rid: int, p: Payload) {
    && (forall j :: 0 <= j < |p.years| ==> HasYear(t, rid, p.years[j]))
    && forall i :: 0 <= i < |t.years| && t.years[i].Some? && t.years[i].value.roadmap == rid ==> SomeYear(t, rid, p, i)
  }

  ghost predicate CoursesPart(t: Tables, rid: int, catalog: Catalog, p: Payload) {
    forall i :: 0 <= i < |t.entries| && t.entries[i].Some? && t.entries[i].value.roadmap == rid ==>
      SomeCourse(t, rid, catalog, p, i)
  }

  /**
   After a run the roadmap, its years and its courses carry what the payload says, and a
   payload course is missing only if it is one of the lost.
   */
  lemma RoadmapEndsAsThePayloadSays(t0: Tables, catalog: Catalog, p: Payload)
    requires Sound(t0) && DistinctPayload(p.years) && Run(t0, catalog, p).Ok?
    ensures
      var t1, rid := Run(t0, catalog, p).value, RidOf(t0, p);
      RoadmapPart(t1, rid, p) && YearsPart(t1, rid, p) && CoursesPart(t1, rid, catalog, p)
    ensures forall q :: 0 <= q < |Flat(p.years)| ==>
      (InItsYear(Run(t0, catalog, p).value, RidOf(t0, p), catalog, p, q) <==> !LostAt(PlaceOf(t0, catalog, p), p, q))
  {
    hide *;
    RoadmapAlone(t0, catalog, p);
    YearsAlone(t0, catalog, p);
    CoursesAlone(t0, catalog, p);
  }

  lemma RoadmapAlone(t0: Tables, catalog: Catalog, p: Payload)
    requires DistinctPayload(p.years) && Run(t0, catalog, p).Ok?
    ensures RoadmapPart(Run(t0, catalog, p).value, RidOf(t0, p), p)
  {
    hide Run, RidOf, DistinctPayload, CanonicalProgram, ProgramName;
    RoadmapSettles(t0, catalog, p);
    CanonicalIsTheName(p.program);
  }

  lemma YearsAlone(t0: Tables, catalog: Catalog, p: Payload)
    requires DistinctPayload(p.years) && Run(t0, catalog, p).Ok?
    ensures YearsPart(Run(t0, catalog, p).value, RidOf(t0, p), p)
  {
    hide Run, RidOf, DistinctPayload, OfPayload, CanonicalProgram, YearsOf, OneRow;
    OnlyThePayloadRemains(t0, catalog, p);
    var t, c, rid := Run(t0, catalog, p).value, PlaceOf(t0, catalog, p), RidOf(t0, p);
    forall j | 0 <= j < |p.years| ensures HasYear(t, rid, p.years[j]) {
      assert Present(t.years, YearKey, YearOf(c.rid, p.years[j]));
      var i :| 0 <= i < |t.years| && t.years[i] == Some(YearOf(c.rid, p.years[j]));
      assert YearSeeded(t.years, rid, p.years[j], i);
    }
    forall i | 0 <= i < |t.years| && t.years[i].Some? && t.years[i].value.roadmap == rid ensures SomeYear(t, rid, p, i) {
      FromPayload(c, p, t.years[i].value);
      var j :| 0 <= j < |p.years| && t.years[i].value == YearOf(c.rid, p.years[j]);
      assert YearSeeded(t.years, rid, p.years[j], i);
    }
  }

  /** A row in its place says what the payload's course says, and the other way round. */
  lemma PlacedIsSeeded(c: Place, t: Tables, p: Payload, q: int, i: int)
    requires c.program == CanonicalProgram(p.program) && 0 <= q < |Flat(p.years)| && 0 <= i < |t.entries| && t.entries[i].Some?
    ensures PlacedAt(c, Flat(p.years)[q], t.entries[i].value, t.years)
        <==> SeededIn(t, c.rid, c.catalog, p, q, i, t.entries[i].value.year)
  {
    hide Flat, CanonicalProgram, ProgramName, Lower;
    CanonicalIsTheName(p.program);
    var d := Flat(p.years)[q].1;
    LinksToOwnCourse(c.catalog, c.program, d);
  }

  lemma LinksToOwnCourse(catalog: Catalog, program: string, d: CourseData)
    ensures LinkOf(catalog, program, d) == if OwnCourse(catalog, program, d) then Some(catalog[d.code].0) else None
  {
    hide CanonicalProgram, Lower;
    if OwnCourse(catalog, program, d) {
      NoMismatchWarning(catalog, program, d);
    }
  }

  lemma CoursesAlone(t0: Tables, catalog: Catalog, p: Payload)
    requires Sound(t0) && DistinctPayload(p.years) && Run(t0, catalog, p).Ok?
    ensures CoursesPart(Run(t0, catalog, p).value, RidOf(t0, p), catalog, p)
    ensures forall q :: 0 <= q < |Flat(p.years)| ==>
      (InItsYear(Run(t0, catalog, p).value, RidOf(t0, p), catalog, p, q) <==> !LostAt(PlaceOf(t0, catalog, p), p, q))
  {
    hide Run, Sound, RidOf, DistinctPayload, LostAt, Flat, PlacedAt, YearsExact, CanonicalProgram, SeededIn;
    OnlyThePayloadRemains(t0, catalog, p);
    var t, c, rid := Run(t0, catalog, p).value, PlaceOf(t0, catalog, p), RidOf(t0, p);
    forall i | 0 <= i < |t.entries| && t.entries[i].Some? && t.entries[i].value.roadmap == rid
      ensures SomeCourse(t, rid, catalog, p, i)
    {
      assert OfPayload(c, p, t, t.entries[i].value);
      var q :| 0 <= q < |Flat(p.years)| && PlacedAt(c, Flat(p.years)[q], t.entries[i].value, t.years);
      PlacedIsSeeded(c, t, p, q, i);
      assert IsCourse(t, rid, catalog, p, i, q);
    }
    forall q | 0 <= q < |Flat(p.years)|
      ensures InItsYear(t, rid, catalog, p, q) <==> !LostAt(c, p, q)
    {
      CoursesUnlessLost(t0, catalog, p, q);
      HoldsIsSeeded(c, t, p, q);
    }
  }

  lemma HoldsIsSeeded(c: Place, t: Tables, p: Payload, q: int)
    requires c.program == CanonicalProgram(p.program) && 0 <= q < |Flat(p.years)|
    ensures Holds(c, t, Flat(p.years)[q]) <==> InItsYear(t, c.rid, c.catalog, p, q)
  {
    hide Flat, CanonicalProgram, PlacedAt, SeededIn;
    if Holds(c, t, Flat(p.years)[q]) {
      var i :| 0 <= i < |t.entries| && t.entries[i].Some? && PlacedAt(c, Flat(p.years)[q], t.entries[i].value, t.years);
      PlacedIsSeeded(c, t, p, q, i);
    }
    if InItsYear(t, c.rid, c.catalog, p, q) {
      var i, k :| SeededIn(t, c.rid, c.catalog, p, q, i, k);
      SeededRow(t, c.rid, c.catalog, p, q, i, k);
      PlacedIsSeeded(c, t, p, q, i);
    }
  }

  lemma SeededRow(t: Tables, rid: int, catalog: Catalog, p: Payload, q: int, i: int, k: int)
    requires 0 <= q < |Flat(p.years)| && SeededIn(t, rid, catalog, p, q, i, k)
    ensures 0 <= i < |t.entries| && t.entries[i].Some? && t.entries[i].value.year == k
  {
    hide Flat, ProgramName;
  }
}
