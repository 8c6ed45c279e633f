/**
 The roadmap tables and one seeding run over them, as functions.

 As for the curriculum, a session without autoflush holds the rows queries select from
 (`stored`) and the rows their objects say (`live`).  Rows are named by position; a deleted
 year or course leaves its position empty.
 */
module RoadmapModel {
  import opened Basics
  import opened Texts
  import opened Upserts

  datatype Error = InvalidPayload | MultipleRows | IntegrityError

  datatype Status = Active | Retired

  datatype Roadmap = Roadmap(
    program: string, specialization: Option<string>, version: int, status: Status, path: Option<string>)

  datatype Year = Year(
    roadmap: int, number: int, semester: Option<int>, heading: Option<string>, description: Option<string>)

  datatype Details = Details(
    title: string, status: string, stack: Option<string>, stage: Option<string>, outcomes: Option<string>,
    project: Option<string>, certification: Option<string>)

  /** A course of a roadmap; `link` refers to the institution's own course table. */
  datatype Entry = Entry(roadmap: int, year: int, code: string, link: Option<int>, details: Details)

  datatype Tables = Tables(roadmaps: seq<Roadmap>, years: seq<Option<Year>>, entries: seq<Option<Entry>>)

  datatype Session = Session(stored: Tables, live: Tables)

  predicate SameShape(s: Session) {
    && |s.stored.roadmaps| == |s.live.roadmaps|
    && |s.stored.years| == |s.live.years|
    && |s.stored.entries| <= |s.live.entries|
  }

  datatype CourseData = CourseData(code: string, details: Details)

  datatype YearData = YearData(
    number: int, semester: Option<int>, heading: Option<string>, description: Option<string>, courses: seq<CourseData>)

  datatype Payload = Payload(
    program: string, specialization: Option<string>, version: int, path: Option<string>, years: seq<YearData>)

  /** Course code to course id and owning program; course codes are unique. */
  type Catalog = map<string, (int, string)>

  // ---- Program names ----

  function CanonicalProgram(value: string): string {
    var normalized := Upper(Strip(value));
    if normalized == "BSInfoTech" || normalized == "BSIT" then "BSInfoTech" else normalized
  }

  /** The institution's course a roadmap course refers to, if it is not merely proposed. */
  function LinkOf(catalog: Catalog, program: string, c: CourseData): Option<int> {
    if c.details.status == "proposed" then None
    else if c.code !in catalog || Lower(catalog[c.code].1) != Lower(program) then None
    else if CanonicalProgram(catalog[c.code].1) == CanonicalProgram(program) then Some(catalog[c.code].0)
    else None
  }

  // ---- Constraints ----

  function YearKey(y: Year): (int, int, Option<int>) {
    (y.roadmap, y.number, y.semester)
  }

  function EntryKey(e: Entry): (int, string) {
    (e.roadmap, e.code)
  }

  predicate SoundRoadmaps(rs: seq<Roadmap>) {
    forall i, j :: 0 <= i < j < |rs| && rs[i].specialization.Some? ==>
      (rs[i].program, rs[i].specialization, rs[i].version) != (rs[j].program, rs[j].specialization, rs[j].version)
  }

  /** A missing semester is a null, which the unique constraint does not see. */
  predicate SoundYears(t: Tables) {
    && (forall i :: 0 <= i < |t.years| && t.years[i].Some? ==> 0 <= t.years[i].value.roadmap < |t.roadmaps|)
    && forall i, j :: 0 <= i < j < |t.years| && t.years[i].Some? && t.years[j].Some? && t.years[i].value.semester.Some? ==>
         YearKey(t.years[i].value) != YearKey(t.years[j].value)
  }

  predicate SoundEntries(t: Tables) {
    && (forall i :: 0 <= i < |t.entries| && t.entries[i].Some? ==>
          var e := t.entries[i].value;
          && 0 <= e.roadmap < |t.roadmaps| && 0 <= e.year < |t.years| && t.years[e.year].Some?
          && e.details.status in {"existing", "proposed"})
    && forall i, j :: 0 <= i < j < |t.entries| && t.entries[i].Some? && t.entries[j].Some? ==>
         EntryKey(t.entries[i].value) != EntryKey(t.entries[j].value)
  }

  predicate Sound(t: Tables) {
    SoundRoadmaps(t.roadmaps) && SoundYears(t) && SoundEntries(t)
  }

  function Flush(s: Session): (r: Result<Session, Error>)
    ensures r.Ok? ==> r.value.stored == r.value.live == s.live && Sound(s.live)
  {
    if Sound(s.live) then Ok(Session(s.live, s.live)) else Err(IntegrityError)
  }

  // ---- The payload ----

  predicate ValidYear(y: YearData) {
    && y.number >= 1
    && (y.semester.None? || y.semester.value == 1 || y.semester.value == 2)
    && forall i :: 0 <= i < |y.courses| ==> y.courses[i].details.status in {"existing", "proposed"}
  }

  predicate ValidPayload(p: Payload) {
    && Strip(p.program) != "" && p.version >= 1
    && forall i :: 0 <= i < |p.years| ==> ValidYear(p.years[i])
  }

  /** Year and semester pairs, and course codes, that the payload defines. */
  function YearPairs(years: seq<YearData>): set<(int, Option<int>)> {
    set i | 0 <= i < |years| :: (years[i].number, years[i].semester)
  }

  function CourseCodes(courses: seq<CourseData>): set<string> {
    set i | 0 <= i < |courses| :: courses[i].code
  }

  function AllCodes(years: seq<YearData>): set<string> {
    if years == [] then {} else AllCodes(years[..|years| - 1]) + CourseCodes(years[|years| - 1].courses)
  }

  // ---- The roadmap row ----

  function FreshRoadmap(p: Payload): Roadmap {
    Roadmap(CanonicalProgram(p.program), p.specialization, p.version, Active, p.path)
  }

  predicate SamePair(r: Roadmap, p: Payload) {
    r.program == CanonicalProgram(p.program) && r.specialization == p.specialization
  }

  function RoadmapRows(rs: seq<Roadmap>, p: Payload): seq<int> {
    Query(rs, (r: Roadmap) => SamePair(r, p) && r.version == p.version)
  }

  function RoadmapStep(t: Tables, p: Payload): (r: Result<(Session, int), Error>)
    ensures r.Ok? ==> SameShape(r.value.0) && 0 <= r.value.1 < |r.value.0.live.roadmaps|
  {
    var q := RoadmapRows(t.roadmaps, p);
    assert forall a :: 0 <= a < |q| ==> q[a] in q;
    if |q| > 1 then Err(MultipleRows)
    else if q == [] then
      match Flush(Session(t, t.(roadmaps := t.roadmaps + [FreshRoadmap(p)])))
      case Err(e) => Err(e)
      case Ok(s) => Ok((s, |t.roadmaps|))
    else
      var row := t.roadmaps[q[0]].(status := Active, path := p.path);
      Ok((Session(t, t.(roadmaps := t.roadmaps[q[0] := row])), q[0]))
  }

  /** Whatever else is stored as active for the pair is retired. */
  function RetireOthers(s: Session, p: Payload, rid: int): Session
    requires SameShape(s)
  {
    var was, now := s.stored.roadmaps, s.live.roadmaps;
    s.(live := s.live.(roadmaps := seq(|now|, i requires 0 <= i < |now| =>
      if SamePair(was[i], p) && was[i].status == Active && i != rid then now[i].(status := Retired) else now[i])))
  }

  // ---- Years and courses ----

  function YearOf(rid: int, y: YearData): Year {
    Year(rid, y.number, y.semester, y.heading, y.description)
  }

  function EntryOf(rid: int, yid: int, program: string, catalog: Catalog, c: CourseData): Entry {
    Entry(rid, yid, c.code, LinkOf(catalog, program, c), c.details)
  }

  function YearRows(rows: seq<Option<Year>>, k: (int, int, Option<int>)): seq<int> {
    Query(rows, (y: Option<Year>) => y.Some? && YearKey(y.value) == k)
  }

  function EntryRows(rows: seq<Option<Entry>>, k: (int, string)): seq<int> {
    Query(rows, (e: Option<Entry>) => e.Some? && EntryKey(e.value) == k)
  }

  function EntryStep(s: Session, e: Entry): (r: Result<Session, Error>)
    requires SameShape(s)
    ensures r.Ok? ==> SameShape(r.value)
  {
    var q := EntryRows(s.stored.entries, EntryKey(e));
    assert forall a :: 0 <= a < |q| ==> q[a] in q;
    if |q| > 1 then Err(MultipleRows)
    else
      var rows := s.live.entries;
      Ok(s.(live := s.live.(entries := if q == [] then rows + [Some(e)] else rows[q[0] := Some(e)])))
  }

  function SeedEntries(s: Session, rid: int, yid: int, program: string, catalog: Catalog, courses: seq<CourseData>)
    : (r: Result<Session, Error>)
    requires SameShape(s)
    ensures r.Ok? ==> SameShape(r.value)
  {
    if courses == [] then Ok(s)
    else
      match SeedEntries(s, rid, yid, program, catalog, courses[..|courses| - 1])
      case Err(e) => Err(e)
      case Ok(t) => EntryStep(t, EntryOf(rid, yid, program, catalog, courses[|courses| - 1]))
  }

  /** The year row: created and flushed, or relabelled. */
  function YearRow(s: Session, y: Year): (r: Result<(Session, int), Error>)
    requires SameShape(s)
    ensures r.Ok? ==> SameShape(r.value.0)
  {
    var q := YearRows(s.stored.years, YearKey(y));
    assert forall a :: 0 <= a < |q| ==> q[a] in q;
    var rows := s.live.years;
    if |q| > 1 then Err(MultipleRows)
    else if q == [] then
      match Flush(s.(live := s.live.(years := rows + [Some(y)])))
      case Err(e) => Err(e)
      case Ok(t) => Ok((t, |rows|))
    else Ok((s.(live := s.live.(years := rows[q[0] := Some(y)])), q[0]))
  }

  function YearStep(s: Session, rid: int, program: string, catalog: Catalog, y: YearData): (r: Result<Session, Error>)
    requires SameShape(s)
    ensures r.Ok? ==> SameShape(r.value)
  {
    match YearRow(s, YearOf(rid, y))
    case Err(e) => Err(e)
    case Ok((t, yid)) => SeedEntries(t, rid, yid, program, catalog, y.courses)
  }

  function SeedYears(s: Session, rid: int, program: string, catalog: Catalog, years: seq<YearData>)
    : (r: Result<Session, Error>)
    requires SameShape(s)
    ensures r.Ok? ==> SameShape(r.value)
  {
    if years == [] then Ok(s)
    else
      match SeedYears(s, rid, program, catalog, years[..|years| - 1])
      case Err(e) => Err(e)
      case Ok(t) => YearStep(t, rid, program, catalog, years[|years| - 1])
  }

  // ---- What the payload no longer has ----

  predicate Leaving(row: Option<Entry>, rid: int, codes: set<string>) {
    row.Some? && row.value.roadmap == rid && row.value.code !in codes
  }

  predicate YearLeaves(rows: seq<Option<Year>>, rid: int, pairs: set<(int, Option<int>)>, y: int) {
    && 0 <= y < |rows| && rows[y].Some? && rows[y].value.roadmap == rid
    && (rows[y].value.number, rows[y].value.semester) !in pairs
  }

  /**
   Rows are selected as stored: a course is dropped for its code, or because the year it was
   last flushed with is dropped, whatever year it has been given since.
   */
  predicate EntryLeaves(
    s: Session, rid: int, codes: set<string>, pairs: set<(int, Option<int>)>, i: int)
    requires SameShape(s) && 0 <= i < |s.live.entries|
  {
    && i < |s.stored.entries| && s.stored.entries[i].Some?
    && (Leaving(s.stored.entries[i], rid, codes) || YearLeaves(s.stored.years, rid, pairs, s.stored.entries[i].value.year))
  }

  function DropLeft(s: Session, rid: int, codes: set<string>, pairs: set<(int, Option<int>)>): Session
    requires SameShape(s)
  {
    var years, entries := s.live.years, s.live.entries;
    s.(live := s.live.(
        years := seq(|years|, y requires 0 <= y < |years| => if YearLeaves(s.stored.years, rid, pairs, y) then None else years[y]),
        entries := seq(|entries|, i requires 0 <= i < |entries| => if EntryLeaves(s, rid, codes, pairs, i) then None else entries[i])))
  }

  // ---- The whole run ----

  function Run(t: Tables, catalog: Catalog, p: Payload): Result<Tables, Error> {
    if !ValidPayload(p) then Err(InvalidPayload)
    else
      match RoadmapStep(t, p)
      case Err(e) => Err(e)
      case Ok((s, rid)) =>
        match SeedYears(RetireOthers(s, p, rid), rid, CanonicalProgram(p.program), catalog, p.years)
        case Err(e) => Err(e)
        case Ok(u) =>
          match Flush(DropLeft(u, rid, AllCodes(p.years), YearPairs(p.years)))
          case Err(e) => Err(e)
          case Ok(v) => Ok(v.stored)
  }
}
