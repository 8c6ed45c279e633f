/**
 The curriculum tables and one seeding run over them, as functions.

 Sessions run without autoflush, so a session holds two versions of the tables: what
 queries select from (`stored`) and what the loaded row objects say (`live`).  A row is
 named by its position: the seeder never removes an objective or a course.
 */
module CurriculumModel {
  import opened Basics
  import opened Texts

  const CANONICAL := "BSInfoTech"
  const LEGACY := "BSIT"

  datatype Error =
    UnsupportedProgram | BothAliases | ForeignCourse | UnknownCode | MultipleRows | IntegrityError

  datatype Objective = Objective(
    code: string, description: string, program: string, version: int, managed: bool, seedCode: Option<string>)

  datatype Course = Course(code: string, title: string, program: string, mappingVersion: int, mapped: bool)

  /** Cells are keyed by course and objective; a blank cell is an absent key. */
  type Cells = map<(int, int), string>

  datatype Tables = Tables(objectives: seq<Objective>, courses: seq<Course>, cells: Cells)

  /** `clash`: two pending cells for one pair, which the next flush refuses. */
  datatype Session = Session(stored: Tables, live: Tables, clash: bool)

  predicate SameShape(s: Session) {
    |s.stored.objectives| == |s.live.objectives| && |s.stored.courses| == |s.live.courses|
  }

  datatype ObjectiveData = ObjectiveData(code: string, description: string)

  type Levels = seq<(string, string)>

  datatype CourseData = CourseData(code: string, title: string, levels: Levels)

  datatype Payload = Payload(program: string, objectives: seq<ObjectiveData>, courses: seq<CourseData>)

  predicate IsAlias(program: string) {
    program == CANONICAL || program == LEGACY
  }

  function Codes(data: seq<ObjectiveData>): set<string> {
    set i | 0 <= i < |data| :: data[i].code
  }

  // ---- Constraints the database checks when changes are flushed ----

  function Trim(s: string): string {
    if s == "" then s
    else if s[0] == ' ' then Trim(s[1..])
    else if s[|s| - 1] == ' ' then Trim(s[..|s| - 1])
    else s
  }

  function Normal(s: string): string {
    Upper(Trim(s))
  }

  /** The key of the normalised unique index: the two program names count as one. */
  function IndexKey(o: Objective): (string, string) {
    var p := Normal(o.program);
    (Normal(o.code), if p == "BSIT" || p == "BSINFOTECH" then CANONICAL else p)
  }

  predicate SoundObjectives(objs: seq<Objective>) {
    forall i, j :: 0 <= i < j < |objs| ==>
      IndexKey(objs[i]) != IndexKey(objs[j]) && (objs[i].seedCode.None? || objs[i].seedCode != objs[j].seedCode)
  }

  predicate SoundCourses(courses: seq<Course>) {
    forall i, j :: 0 <= i < j < |courses| ==> courses[i].code != courses[j].code
  }

  predicate SoundCells(t: Tables) {
    forall k :: k in t.cells ==>
      0 <= k.0 < |t.courses| && 0 <= k.1 < |t.objectives| && t.cells[k] in {"I", "E", "D"}
  }

  predicate Sound(t: Tables) {
    SoundObjectives(t.objectives) && SoundCourses(t.courses) && SoundCells(t)
  }

  function Flush(s: Session): (r: Result<Session, Error>)
    ensures r.Ok? ==> r.value.stored == r.value.live == s.live && Sound(s.live) && !r.value.clash
  {
    if s.clash || !Sound(s.live) then Err(IntegrityError) else Ok(s.(stored := s.live))
  }

  // ---- Queries ----

  function Anchors(objs: seq<Objective>, code: string): seq<int> {
    Query(objs, (o: Objective) => o.seedCode == Some(code))
  }

  function Matches(objs: seq<Objective>, code: string): seq<int> {
    Query(objs, (o: Objective) => o.code == code && IsAlias(o.program))
  }

  function CoursesCoded(courses: seq<Course>, code: string): seq<int> {
    Query(courses, (c: Course) => c.code == code)
  }

  /** The row a payload code stands for: its seed anchor, else the row with that code. */
  function Resolve(objs: seq<Objective>, code: string): (r: Result<Option<int>, Error>)
    ensures r.Ok? && r.value.Some? ==> 0 <= r.value.value < |objs|
  {
    var anchored := Anchors(objs, code);
    var matches := Matches(objs, code);
    assert forall a :: 0 <= a < |anchored| ==> anchored[a] in anchored;
    assert forall a :: 0 <= a < |matches| ==> matches[a] in matches;
    if |anchored| > 1 then Err(MultipleRows)
    else if |matches| > 1 then Err(BothAliases)
    else if |anchored| == 1 then Ok(Some(anchored[0]))
    else if |matches| == 1 then Ok(Some(matches[0]))
    else Ok(None)
  }

  // ---- Objectives ----

  predicate Named(seed: Option<string>) {
    seed.Some? && seed.value != ""
  }

  function Identity(o: Objective): string {
    if Named(o.seedCode) then o.seedCode.value else o.code
  }

  function FreshObjective(d: ObjectiveData): Objective {
    Objective(d.code, d.description, CANONICAL, 1, false, Some(d.code))
  }

  function Corrected(o: Objective, d: ObjectiveData): Objective {
    if o.managed then o
    else
      var p := if o.program != CANONICAL || o.description != d.description
               then o.(program := CANONICAL, description := d.description, version := o.version + 1)
               else o;
      if Named(p.seedCode) then p else p.(seedCode := Some(d.code))
  }

  predicate IdsIn(ids: map<string, int>, objs: seq<Objective>) {
    forall c :: c in ids ==> 0 <= ids[c] < |objs|
  }

  datatype Progress = Progress(session: Session, ids: map<string, int>)

  function ObjectiveStep(p: Progress, d: ObjectiveData): (r: Result<Progress, Error>)
    requires SameShape(p.session) && IdsIn(p.ids, p.session.live.objectives)
    ensures r.Ok? ==>
      && SameShape(r.value.session)
      && IdsIn(r.value.ids, r.value.session.live.objectives)
  {
    var s := p.session;
    match Resolve(s.stored.objectives, d.code)
    case Err(e) => Err(e)
    case Ok(None) =>
      var n := |s.live.objectives|;
      (match Flush(s.(live := s.live.(objectives := s.live.objectives + [FreshObjective(d)])))
       case Err(e) => Err(e)
       case Ok(t) => Ok(Progress(t, p.ids[d.code := n])))
    case Ok(Some(i)) =>
      var objs := s.live.objectives;
      var t := s.(live := s.live.(objectives := objs[i := Corrected(objs[i], d)]));
      Ok(Progress(t, p.ids[d.code := i]))
  }

  function SeedObjectives(s: Session, data: seq<ObjectiveData>): (r: Result<Progress, Error>)
    requires SameShape(s)
    ensures r.Ok? ==>
      && SameShape(r.value.session)
      && IdsIn(r.value.ids, r.value.session.live.objectives)
  {
    if data == [] then Ok(Progress(s, map[]))
    else
      match SeedObjectives(s, data[..|data| - 1])
      case Err(e) => Err(e)
      case Ok(p) => ObjectiveStep(p, data[|data| - 1])
  }

  // ---- One course ----

  function FreshCourse(d: CourseData): Course {
    Course(d.code, d.title, CANONICAL, 1, false)
  }

  function CorrectedCourse(c: Course, d: CourseData): Course {
    c.(program := CANONICAL, title := d.title)
  }

  /** The levels that are not blank, in order. */
  function Canonical(levels: Levels): (r: Levels)
    ensures forall e :: e in r <==> e in levels && e.1 != ""
  {
    if levels == [] then []
    else
      var last := levels[|levels| - 1];
      var front := Canonical(levels[..|levels| - 1]);
      if last.1 != "" then front + [last] else front
  }

  predicate Lists(levels: Levels, code: string) {
    exists i :: 0 <= i < |levels| && levels[i].0 == code
  }

  /** Find, create or correct the course row. */
  function CourseRow(s: Session, d: CourseData): (r: Result<(Session, int, bool), Error>)
    requires SameShape(s)
    ensures r.Ok? ==>
      && SameShape(r.value.0)
      && 0 <= r.value.1 < |r.value.0.live.courses|
      && r.value.0.live.objectives == s.live.objectives
  {
    var q := CoursesCoded(s.stored.courses, d.code);
    assert forall a :: 0 <= a < |q| ==> q[a] in q;
    if |q| > 1 then Err(MultipleRows)
    else if |q| == 0 then
      var n := |s.live.courses|;
      match Flush(s.(live := s.live.(courses := s.live.courses + [FreshCourse(d)])))
      case Err(e) => Err(e)
      case Ok(t) => Ok((t, n, true))
    else
      var c := s.live.courses[q[0]];
      if !IsAlias(c.program) then Err(ForeignCourse)
      else Ok((s.(live := s.live.(courses := s.live.courses[q[0] := CorrectedCourse(c, d)])), q[0], false))
  }

  /** One level: skipped for another program's objective, added or corrected otherwise. */
  function LevelStep(s: Session, k: int, ids: map<string, int>, e: (string, string)): Result<Session, Error>
    requires IdsIn(ids, s.live.objectives)
  {
    if e.0 !in ids then Err(UnknownCode)
    else if !IsAlias(s.live.objectives[ids[e.0]].program) then Ok(s)
    else
      var key := (k, ids[e.0]);
      Ok(s.(live := s.live.(cells := s.live.cells[key := e.1]),
            clash := s.clash || (key !in s.stored.cells && key in s.live.cells)))
  }

  function PutLevels(s: Session, k: int, ids: map<string, int>, levels: Levels): (r: Result<Session, Error>)
    requires IdsIn(ids, s.live.objectives)
    ensures r.Ok? ==> r.value.stored == s.stored && r.value.live == s.live.(cells := r.value.live.cells)
  {
    if levels == [] then Ok(s)
    else
      match PutLevels(s, k, ids, levels[..|levels| - 1])
      case Err(e) => Err(e)
      case Ok(t) => LevelStep(t, k, ids, levels[|levels| - 1])
  }

  /** A cell of a known objective that the canonical map of the course leaves out. */
  predicate Stale(objs: seq<Objective>, o: int, known: set<string>, levels: Levels) {
    && 0 <= o < |objs|
    && Identity(objs[o]) in known
    && IsAlias(objs[o].program)
    && !Lists(levels, Identity(objs[o]))
  }

  function DropStale(s: Session, k: int, known: set<string>, levels: Levels): Session {
    s.(live := s.live.(cells :=
      map key | key in s.live.cells
        && !(key.0 == k && key in s.stored.cells && Stale(s.live.objectives, key.1, known, levels))
        :: s.live.cells[key]))
  }

  /** What a query for the cells of a course returns: stored rows, read from their objects. */
  function LevelsOf(s: Session, k: int): map<int, string> {
    map o | o in (set key | key in s.stored.cells && key.0 == k && key in s.live.cells :: key.1) :: s.live.cells[(k, o)]
  }

  function SeedMapping(s: Session, k: int, isNew: bool, ids: map<string, int>, known: set<string>, levels: Levels)
    : (r: Result<Session, Error>)
    requires SameShape(s) && 0 <= k < |s.live.courses| && IdsIn(ids, s.live.objectives)
    ensures r.Ok? ==> SameShape(r.value) && r.value.live.objectives == s.live.objectives
  {
    var previous := LevelsOf(s, k);
    match PutLevels(s, k, ids, levels)
    case Err(e) => Err(e)
    case Ok(t) =>
      match Flush(DropStale(t, k, known, levels))
      case Err(e) => Err(e)
      case Ok(u) =>
        if !isNew && previous != LevelsOf(u, k) then
          var c := u.live.courses[k];
          Ok(u.(live := u.live.(courses := u.live.courses[k := c.(mappingVersion := c.mappingVersion + 1)])))
        else Ok(u)
  }

  function CourseStep(s: Session, ids: map<string, int>, known: set<string>, d: CourseData): (r: Result<Session, Error>)
    requires SameShape(s) && IdsIn(ids, s.live.objectives)
    ensures r.Ok? ==> SameShape(r.value) && r.value.live.objectives == s.live.objectives
  {
    match CourseRow(s, d)
    case Err(e) => Err(e)
    case Ok((t, k, isNew)) =>
      if t.live.courses[k].mapped then Ok(t)
      else SeedMapping(t, k, isNew, ids, known, Canonical(d.levels))
  }

  function SeedCourses(s: Session, ids: map<string, int>, known: set<string>, data: seq<CourseData>)
    : (r: Result<Session, Error>)
    requires SameShape(s) && IdsIn(ids, s.live.objectives)
    ensures r.Ok? ==> SameShape(r.value) && r.value.live.objectives == s.live.objectives
  {
    if data == [] then Ok(s)
    else
      match SeedCourses(s, ids, known, data[..|data| - 1])
      case Err(e) => Err(e)
      case Ok(t) => CourseStep(t, ids, known, data[|data| - 1])
  }

  // ---- The whole run ----

  /** One run in one transaction: the tables it commits, or the error that rolls it back. */
  function Run(t: Tables, p: Payload): Result<Tables, Error> {
    if !IsAlias(p.program) then Err(UnsupportedProgram)
    else
      match SeedObjectives(Session(t, t, false), p.objectives)
      case Err(e) => Err(e)
      case Ok(q) =>
        match SeedCourses(q.session, q.ids, Codes(p.objectives), p.courses)
        case Err(e) => Err(e)
        case Ok(s) =>
          match Flush(s)
          case Err(e) => Err(e)
          case Ok(u) => Ok(u.stored)
  }
}
