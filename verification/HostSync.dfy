/**
 One synchronisation of the model host: files are downloaded beside their place, checked,
 and moved into it; the flags file lists what the server may load.

 `history` records the folder after every single change, so a run that dies anywhere
 leaves one of its states.
 */
module HostSync {
  import opened Basics
  import opened HostSelect

  type Bytes = seq<bv8>

  type Files = map<string, Bytes>

  const MAX_BYTES := 2 * 1024 * 1024 * 1024

  datatype Item = Malformed | Announced(entry: Entry)

  datatype Error = UnsafeEntry | DownloadFailed | TooLarge | WrongChecksum | Unreadable | FlagsFailed | NoManifest

  /** What happens when an entry is asked for; an empty chunk ends the body. */
  datatype Reply = Reply(unreadable: bool, connected: bool, chunks: seq<Bytes>, broken: bool, replaceFails: bool)

  datatype SyncResult = SyncResult(downloaded: seq<string>, errors: seq<Error>, flagsChanged: bool)

  // ---- Names ----

  predicate LowerOrDigit(c: char) {
    'a' <= c <= 'z' || '0' <= c <= '9'
  }

  predicate SplitsSafely(s: string, i: int, j: int) {
    && 0 < i < |s| && i + 2 < j < |s| && j + 5 == |s|
    && (forall k :: 0 <= k < i ==> LowerOrDigit(s[k]))
    && s[i..i + 2] == "-v"
    && (forall k :: i + 2 <= k < j ==> '0' <= s[k] <= '9')
    && s[j..] == ".gguf"
  }

  predicate SafeCore(s: string) {
    exists i, j :: 0 <= i < |s| && 0 <= j < |s| && SplitsSafely(s, i, j)
  }

  /** The pattern's `$` also matches before a final newline. */
  predicate SafeName(s: string) {
    SafeCore(s) || (s != "" && s[|s| - 1] == '\n' && SafeCore(s[..|s| - 1]))
  }

  predicate AgentText(t: string) {
    t != "" && forall k :: 0 <= k < |t| ==> 'a' <= t[k] <= 'z' || '0' <= t[k] <= '9'
  }

  predicate VersionText(t: string) {
    t != "" && forall k :: 0 <= k < |t| ==> '0' <= t[k] <= '9'
  }

  function NameOf(agent: string, version: string): string {
    agent + "-v" + version + ".gguf"
  }

  /** Lower-case letters or digits, then "-v", a number, and the ending. */
  ghost predicate NamesVersion(s: string) {
    exists agent: string, version: string :: AgentText(agent) && VersionText(version) && s == NameOf(agent, version)
  }

  lemma CoreNamesVersion(s: string)
    requires SafeCore(s)
    ensures NamesVersion(s)
  {
    var i, j :| 0 <= i < |s| && 0 <= j < |s| && SplitsSafely(s, i, j);
    FourParts(s, i, j);
    var agent, version := s[..i], s[i + 2..j];
    assert s == NameOf(agent, version);
    assert AgentText(agent);
    assert VersionText(version);
  }

  lemma FourParts(s: string, i: int, j: int)
    requires 0 <= i && i + 2 <= j <= |s|
    ensures s == s[..i] + s[i..i + 2] + s[i + 2..j] + s[j..]
  {
    assert s[..i] + s[i..i + 2] == s[..i + 2];
    assert s[..i + 2] + s[i + 2..j] == s[..j];
  }

  lemma VersionIsCore(agent: string, version: string)
    requires AgentText(agent) && VersionText(version)
    ensures SafeCore(NameOf(agent, version))
  {
    var s, i, j := NameOf(agent, version), |agent|, |agent| + 2 + |version|;
    assert s[i..i + 2] == "-v" && s[j..] == ".gguf";
    forall k | 0 <= k < i ensures LowerOrDigit(s[k]) {
      assert s[k] == agent[k];
    }
    forall k | i + 2 <= k < j ensures '0' <= s[k] <= '9' {
      assert s[k] == version[k - i - 2];
    }
    assert SplitsSafely(s, i, j);
  }

  /** Letters, digits, '-' and '.', the last only before the ending. */
  lemma CoreStaysInside(s: string)
    requires SafeCore(s)
    ensures s[0] != '.' && '/' !in s && '\\' !in s
  {
    var i, j :| 0 <= i < |s| && 0 <= j < |s| && SplitsSafely(s, i, j);
    assert LowerOrDigit(s[0]);
    forall k | 0 <= k < |s| ensures s[k] != '/' && s[k] != '\\' {
      if k < i {
        assert LowerOrDigit(s[k]);
      } else if k < i + 2 {
        assert s[k] == s[i..i + 2][k - i];
      } else if k >= j {
        assert s[k] == s[j..][k - j];
      }
    }
  }

  /**
   The safe names are those that name an agent and a version, before at most one newline,
   and none of them leads out of the folder.
   */
  lemma SafeNamesAVersion(s: string)
    ensures SafeName(s) <==> NamesVersion(s) || (s != "" && s[|s| - 1] == '\n' && NamesVersion(s[..|s| - 1]))
    ensures SafeName(s) ==> s[0] != '.' && '/' !in s && '\\' !in s
  {
    hide SafeCore, NamesVersion;
    CoreMeansVersion(s);
    if s != "" {
      var front := s[..|s| - 1];
      CoreMeansVersion(front);
      if SafeCore(front) {
        CoreStaysInside(front);
        CoreIsNotEmpty(front);
        assert s == front + [s[|s| - 1]];
      }
    } else if SafeCore(s) {
      CoreIsNotEmpty(s);
    }
    if SafeCore(s) {
      CoreStaysInside(s);
    }
  }

  lemma CoreIsNotEmpty(s: string)
    requires SafeCore(s)
    ensures s != ""
  {
  }

  lemma CoreMeansVersion(s: string)
    ensures SafeCore(s) <==> NamesVersion(s)
  {
    if SafeCore(s) {
      CoreNamesVersion(s);
    }
    if NamesVersion(s) {
      var agent, version :| AgentText(agent) && VersionText(version) && s == NameOf(agent, version);
      VersionIsCore(agent, version);
    }
  }

  function PartOf(name: string): string {
    name + ".part"
  }

  predicate IsPart(name: string) {
    |name| >= 5 && name[|name| - 5..] == ".part"
  }

  lemma SafeIsNotPart(name: string)
    requires SafeName(name)
    ensures !IsPart(name) && IsPart(PartOf(name))
  {
    assert PartOf(name)[|name|..] == ".part";
    PartEndsInT(name);
    EndsInF(if SafeCore(name) then name else name[..|name| - 1]);
  }

  lemma PartEndsInT(name: string)
    ensures IsPart(name) ==> name[|name| - 1] == 't'
  {
    assert IsPart(name) ==> name[|name| - 1] == name[|name| - 5..][4];
  }

  lemma EndsInF(s: string)
    requires SafeCore(s)
    ensures s != "" && s[|s| - 1] == 'f'
  {
    var i, j :| 0 <= i < |s| && 0 <= j < |s| && SplitsSafely(s, i, j);
    assert s[|s| - 1] == s[j..][4];
  }

  predicate Valid(item: Item) {
    item.Announced? && SafeName(item.entry.filename) && 0 < item.entry.size <= MAX_BYTES
  }

  // ---- What a folder may look like ----

  type Digest = Bytes -> string

  predicate Matches(digest: Digest, files: Files, e: Entry) {
    e.filename in files && digest(files[e.filename]) == e.sha256
  }

  predicate UpToDate(digest: Digest, files: Files, e: Entry) {
    Matches(digest, files, e) && |files[e.filename]| == e.size
  }

  predicate SameFile(a: Files, b: Files, name: string) {
    (name in a <==> name in b) && (name in a && name in b ==> a[name] == b[name])
  }

  predicate AnnouncedAs(digest: Digest, items: seq<Item>, files: Files, name: string) {
    exists i :: 0 <= i < |items| && Valid(items[i]) && items[i].entry.filename == name && Matches(digest, files, items[i].entry)
  }

  /** The partial file of one of the valid entries. */
  predicate Partial(items: seq<Item>, name: string) {
    exists i :: 0 <= i < |items| && Valid(items[i]) && name == PartOf(items[i].entry.filename)
  }

  /** Every file but the entries' partial ones is as before, or as some valid entry announced it. */
  ghost predicate Sane(digest: Digest, items: seq<Item>, before: Files, now: Files) {
    forall name :: !Partial(items, name) ==> SameFile(before, now, name) || AnnouncedAs(digest, items, now, name)
  }

  /** Within one download: only its own two files may change, and its place only to what was announced. */
  ghost predicate During(digest: Digest, e: Entry, before: Files, now: Files) {
    forall name :: name != PartOf(e.filename) ==>
      SameFile(before, now, name) || (name == e.filename && Matches(digest, now, e))
  }

  lemma DuringIsSane(digest: Digest, items: seq<Item>, i: int, before: Files, start: Files, now: Files)
    requires 0 <= i < |items| && Valid(items[i])
    requires Sane(digest, items, before, start) && During(digest, items[i].entry, start, now)
    ensures Sane(digest, items, before, now)
  {
    hide SafeName, IsPart;
    forall name | !Partial(items, name) ensures SameFile(before, now, name) || AnnouncedAs(digest, items, now, name) {
      if !(name == items[i].entry.filename && Matches(digest, now, items[i].entry)) {
        assert SameFile(start, now, name);
        if AnnouncedAs(digest, items, start, name) && !SameFile(before, start, name) {
          var k :| 0 <= k < |items| && Valid(items[k]) && items[k].entry.filename == name && Matches(digest, start, items[k].entry);
          assert Matches(digest, now, items[k].entry);
        }
      }
    }
  }

  lemma PartChanges(digest: Digest, e: Entry, before: Files, content: Bytes)
    ensures During(digest, e, before, before[PartOf(e.filename) := content])
    ensures During(digest, e, before, before - {PartOf(e.filename)})
  {
  }

  lemma FileAppears(digest: Digest, e: Entry, before: Files, content: Bytes)
    requires digest(content) == e.sha256
    ensures During(digest, e, before, (before - {PartOf(e.filename)})[e.filename := content])
  {
  }

  // ---- What a request brings ----

  /** Everything received until the body ends. */
  function Body(chunks: seq<Bytes>): Bytes {
    if chunks == [] || chunks[0] == [] then [] else chunks[0] + Body(chunks[1..])
  }

  lemma BodyStarts(chunks: seq<Bytes>)
    ensures [] + Body(chunks[0..]) == Body(chunks)
  {
    assert chunks[0..] == chunks;
  }

  lemma BodyGoesOn(chunks: seq<Bytes>, i: int, content: Bytes)
    requires 0 <= i < |chunks| && chunks[i] != []
    ensures content + Body(chunks[i..]) == content + chunks[i] + Body(chunks[i + 1..])
  {
    assert chunks[i..][1..] == chunks[i + 1..];
  }

  lemma BodyEnds(chunks: seq<Bytes>, i: int)
    requires 0 <= i <= |chunks| && (i < |chunks| ==> chunks[i] == [])
    ensures Body(chunks[i..]) == []
  {
  }

  /** Why a download fails, if it does. */
  function Failure(digest: Digest, e: Entry, reply: Reply): Option<Error> {
    if !reply.connected then Some(DownloadFailed)
    else if |Body(reply.chunks)| > e.size then Some(TooLarge)
    else if reply.broken then Some(DownloadFailed)
    else if digest(Body(reply.chunks)) != e.sha256 then Some(WrongChecksum)
    else if reply.replaceFails then Some(DownloadFailed)
    else None
  }

  /** The file is there, has the announced size, and cannot be read to check it. */
  predicate Unchecked(files: Files, e: Entry, reply: Reply) {
    reply.unreadable && e.filename in files && |files[e.filename]| == e.size
  }

  /** The entry's file is there in the end: it was up to date, or a whole body of the announced digest comes. */
  predicate Arrives(digest: Digest, files: Files, e: Entry, reply: Reply) {
    && !Unchecked(files, e, reply)
    && (|| UpToDate(digest, files, e)
        || (&& reply.connected && !reply.broken && !reply.replaceFails
            && |Body(reply.chunks)| <= e.size && digest(Body(reply.chunks)) == e.sha256))
  }

  /** Which error an entry that does not arrive is reported with. */
  predicate FailsAs(digest: Digest, files: Files, e: Entry, reply: Reply, error: Error) {
    !Arrives(digest, files, e, reply) && match error
    case Unreadable => Unchecked(files, e, reply)
    case TooLarge => !Unchecked(files, e, reply) && reply.connected && |Body(reply.chunks)| > e.size
    case WrongChecksum =>
      && !Unchecked(files, e, reply) && reply.connected && |Body(reply.chunks)| <= e.size && !reply.broken
      && digest(Body(reply.chunks)) != e.sha256
    case DownloadFailed =>
      && !Unchecked(files, e, reply)
      && (|| !reply.connected
          || (|Body(reply.chunks)| <= e.size && (reply.broken || (reply.replaceFails && digest(Body(reply.chunks)) == e.sha256))))
    case _ => false
  }

  /** The entries that arrive, in order. */
  function ArrivingOf(digest: Digest, files: Files, items: seq<Item>, replies: string -> Reply): (r: seq<Entry>)
    ensures forall e :: e in r <==> exists i :: 0 <= i < |items| && ItemArrives(digest, files, items[i], replies) && items[i].entry == e
  {
    if items == [] then []
    else
      var n := |items| - 1;
      assert forall i :: 0 <= i < n ==> items[..n][i] == items[i];
      var front := ArrivingOf(digest, files, items[..n], replies);
      if ItemArrives(digest, files, items[n], replies) then front + [items[n].entry] else front
  }

  predicate ItemArrives(digest: Digest, files: Files, item: Item, replies: string -> Reply)
    ensures ItemArrives(digest, files, item, replies) ==> item.Announced?
  {
    Valid(item) && Arrives(digest, files, item.entry, replies(item.entry.adapter))
  }

  predicate IsFetched(digest: Digest, files: Files, items: seq<Item>, replies: string -> Reply, i: int)
    ensures IsFetched(digest, files, items, replies, i) ==> 0 <= i < |items| && items[i].Announced?
  {
    0 <= i < |items| && ItemArrives(digest, files, items[i], replies) && !UpToDate(digest, files, items[i].entry)
  }

  /** The names of those that had to be downloaded. */
  function FetchedOf(digest: Digest, files: Files, items: seq<Item>, replies: string -> Reply): (r: seq<string>)
    ensures forall name :: name in r <==> exists i :: IsFetched(digest, files, items, replies, i) && items[i].entry.filename == name
  {
    if items == [] then []
    else
      var n := |items| - 1;
      assert forall i :: 0 <= i < n ==> items[..n][i] == items[i];
      var front := FetchedOf(digest, files, items[..n], replies);
      if ItemArrives(digest, files, items[n], replies) && !UpToDate(digest, files, items[n].entry)
      then front + [items[n].entry.filename] else front
  }

  /** One error for each item that does not arrive, in order, and the right one. */
  ghost predicate ErrorsOf(digest: Digest, files: Files, items: seq<Item>, replies: string -> Reply, errors: seq<Error>) {
    if items == [] then errors == []
    else
      var n, m := |items| - 1, |errors| - 1;
      if ItemArrives(digest, files, items[n], replies) then ErrorsOf(digest, files, items[..n], replies, errors)
      else
        && errors != [] && ErrorsOf(digest, files, items[..n], replies, errors[..m])
        && if Valid(items[n])
           then FailsAs(digest, files, items[n].entry, replies(items[n].entry.adapter), errors[m])
           else errors[m] == UnsafeEntry
  }

  /** What a list of items comes to. */
  ghost predicate Outcome(
    digest: Digest, files: Files, items: seq<Item>, replies: string -> Reply,
    available: seq<Entry>, downloaded: seq<string>, errors: seq<Error>) {
    && available == ArrivingOf(digest, files, items, replies)
    && downloaded == FetchedOf(digest, files, items, replies)
    && ErrorsOf(digest, files, items, replies, errors)
  }

  /** The result tells of the items, and last of the flags if they could not be written. */
  ghost predicate Reported(
    digest: Digest, files: Files, items: seq<Item>, replies: string -> Reply, available: seq<Entry>, r: SyncResult) {
    var errors := if FlagsFailed in r.errors then r.errors[..|r.errors| - 1] else r.errors;
    && Outcome(digest, files, items, replies, available, r.downloaded, errors)
    && (FlagsFailed in r.errors ==> r.errors == errors + [FlagsFailed])
  }

  lemma NothingToObtain(digest: Digest, files: Files, items: seq<Item>, replies: string -> Reply)
    ensures Outcome(digest, files, items[..0], replies, [], [], [])
  {
  }

  /** One more item, with the result `r` that `ObtainOne` has for it. */
  lemma OneMoreOutcome(
    digest: Digest, files: Files, items: seq<Item>, replies: string -> Reply, i: int,
    available: seq<Entry>, downloaded: seq<string>, errors: seq<Error>, r: Result<bool, Error>)
    requires 0 <= i < |items| && Outcome(digest, files, items[..i], replies, available, downloaded, errors)
    requires r.Ok? <==> ItemArrives(digest, files, items[i], replies)
    requires r.Ok? ==> (r.value <==> !UpToDate(digest, files, items[i].entry))
    requires r.Err? ==>
      if Valid(items[i]) then FailsAs(digest, files, items[i].entry, replies(items[i].entry.adapter), r.error) else r.error == UnsafeEntry
    ensures Outcome(digest, files, items[..i + 1], replies,
              if r.Ok? then available + [items[i].entry] else available,
              if r == Ok(true) then downloaded + [items[i].entry.filename] else downloaded,
              if r.Err? then errors + [r.error] else errors)
  {
    hide ItemArrives, UpToDate, FailsAs, Valid;
    assert items[..i + 1][..i] == items[..i] && items[..i + 1][i] == items[i];
    if r.Err? {
      assert (errors + [r.error])[..|errors|] == errors;
    }
  }

  /** Whether and how an entry arrives depends only on its own file. */
  lemma OnlyItsFileMatters(digest: Digest, before: Files, now: Files, e: Entry, reply: Reply)
    requires SameFile(before, now, e.filename)
    ensures Arrives(digest, before, e, reply) <==> Arrives(digest, now, e, reply)
    ensures UpToDate(digest, before, e) <==> UpToDate(digest, now, e)
    ensures forall error :: FailsAs(digest, before, e, reply, error) <==> FailsAs(digest, now, e, reply, error)
  {
    hide Body;
  }

  /** Whatever the folder holds, asking for the entry ends with its file. */
  predicate Obtainable(digest: Digest, e: Entry, reply: Reply) {
    !reply.unreadable && Failure(digest, e, reply).None?
  }

  predicate AllObtainable(digest: Digest, replies: string -> Reply, items: seq<Item>) {
    forall i :: 0 <= i < |items| && Valid(items[i]) ==> Obtainable(digest, items[i].entry, replies(items[i].entry.adapter))
  }

  /** The file of an obtained entry: the one that was up to date, or the body received. */
  predicate GotAs(digest: Digest, before: Files, now: Files, e: Entry, reply: Reply) {
    && e.filename in now
    && now[e.filename] == if UpToDate(digest, before, e) then before[e.filename] else Body(reply.chunks)
  }

  predicate AllGot(digest: Digest, before: Files, now: Files, entries: seq<Entry>, replies: string -> Reply) {
    forall a :: 0 <= a < |entries| ==> GotAs(digest, before, now, entries[a], replies(entries[a].adapter))
  }

  /** The files of the entries still to come are as they were. */
  predicate Untouched(items: seq<Item>, i: int, before: Files, now: Files) {
    forall j :: 0 <= i <= j < |items| && Valid(items[j]) ==> SameFile(before, now, items[j].entry.filename)
  }

  predicate DistinctNames(items: seq<Item>) {
    forall i, j :: 0 <= i < j < |items| && Valid(items[i]) && Valid(items[j]) ==>
      items[i].entry.filename != items[j].entry.filename
  }

  /** All valid entries of the list are there as announced, size included. */
  predicate AllUpToDate(digest: Digest, files: Files, items: seq<Item>) {
    forall i :: 0 <= i < |items| && Valid(items[i]) ==> UpToDate(digest, files, items[i].entry)
  }

  /** The files of the listed entries are as announced, sizes apart. */
  predicate AllMatch(digest: Digest, files: Files, entries: seq<Entry>) {
    forall i :: 0 <= i < |entries| ==> Matches(digest, files, entries[i])
  }

  function Lines(entries: seq<Entry>): seq<string> {
    seq(|entries|, i requires 0 <= i < |entries| => entries[i].filename)
  }

  function ValidEntries(items: seq<Item>): (r: seq<Entry>)
    ensures forall e :: e in r <==> exists i :: 0 <= i < |items| && Valid(items[i]) && items[i].entry == e
  {
    if items == [] then []
    else
      var n := |items| - 1;
      assert forall i :: 0 <= i < n ==> items[..n][i] == items[i];
      if Valid(items[n]) then ValidEntries(items[..n]) + [items[n].entry] else ValidEntries(items[..n])
  }

  class Host {
    var files: Files
    /** The lines of the flags file, one model each. */
    var flags: Option<seq<string>>
    ghost var history: seq<Files>
    const digest: Digest

    constructor (f: Files, d: Digest)
      ensures files == f && flags == None && history == [] && digest == d
    {
      files, flags, history, digest := f, None, [], d;
    }

    method Save(name: string, content: Bytes)
      modifies this`files, this`history
      ensures files == old(files)[name := content] && history == old(history) + [files]
    {
      files := files[name := content];
      history := history + [files];
    }

    method Unlink(name: string)
      modifies this`files, this`history
      ensures files == old(files) - {name} && history == old(history) + [files]
    {
      files := files - {name};
      history := history + [files];
    }

    /** `os.replace`: the file appears under its new name in one step. */
    method Move(from: string, to: string)
      requires from in files && from != to
      modifies this`files, this`history
      ensures files == (old(files) - {from})[to := old(files)[from]] && history == old(history) + [files]
    {
      files := (files - {from})[to := files[from]];
      history := history + [files];
    }

    method Discard(part: string, ghost e: Entry, ghost before: Files)
      requires part == PartOf(e.filename) && files - {part} == before - {part}
      modifies this`files, this`history
      ensures files == before - {part} && history == old(history) + [files]
      ensures During(digest, e, before, files)
    {
      Unlink(part);
      PartChanges(digest, e, before, []);
    }

    /** The reading loop: the body goes to the partial file, as long as it is not too large. */
    method Receive(e: Entry, chunks: seq<Bytes>, part: string) returns (fits: bool, content: Bytes)
      requires part == PartOf(e.filename) && e.size > 0
      modifies this`files, this`history
      ensures fits <==> |Body(chunks)| <= e.size
      ensures fits ==> content == Body(chunks)
      ensures files == old(files)[part := content]
      ensures old(history) < history
      ensures forall i :: |old(history)| <= i < |history| ==> During(digest, e, old(files), history[i])
    {
      hide During, PartOf, Body;
      ghost var before, all := files, Body(chunks);
      content := [];
      Save(part, content);
      PartChanges(digest, e, before, content);
      var i := 0;
      BodyStarts(chunks);
      while i < |chunks| && chunks[i] != []
        invariant 0 <= i <= |chunks|
        invariant files == before[part := content] && |content| <= e.size
        invariant content + Body(chunks[i..]) == all
        invariant old(history) < history
        invariant forall j :: |old(history)| <= j < |history| ==> During(digest, e, before, history[j])
      {
        BodyGoesOn(chunks, i, content);
        if |content| + |chunks[i]| > e.size {
          return false, content;
        }
        content := content + chunks[i];
        Save(part, content);
        PartChanges(digest, e, before, content);
        i := i + 1;
      }
      BodyEnds(chunks, i);
      fits := true;
    }

    method Download(e: Entry, reply: Reply) returns (error: Option<Error>)
      requires SafeName(e.filename) && e.size > 0
      modifies this`files, this`history
      ensures error == Failure(digest, e, reply)
      ensures error.Some? ==> files == old(files) - {PartOf(e.filename)}
      ensures error.None? ==>
        files == (old(files) - {PartOf(e.filename)})[e.filename := Body(reply.chunks)]
      ensures old(history) < history && history[|history| - 1] == files
      ensures forall i :: |old(history)| <= i < |history| ==> During(digest, e, old(files), history[i])
    {
      hide SafeName, During, Body;
      ghost var before := files;
      var part := PartOf(e.filename);
      if !reply.connected {
        Discard(part, e, before);
        return Some(DownloadFailed);
      }
      var fits, content := Receive(e, reply.chunks, part);
      if !fits {
        Discard(part, e, before);
        return Some(TooLarge);
      }
      if reply.broken {
        Discard(part, e, before);
        return Some(DownloadFailed);
      }
      if digest(content) != e.sha256 {
        Discard(part, e, before);
        return Some(WrongChecksum);
      }
      if reply.replaceFails {
        Discard(part, e, before);
        return Some(DownloadFailed);
      }
      Move(part, e.filename);
      FileAppears(digest, e, before, content);
      assert files == (before - {part})[e.filename := content];
      error := None;
    }

    method WriteFlags(entries: seq<Entry>, fails: bool) returns (r: Result<bool, Error>)
      modifies this`flags
      ensures r.Ok? ==> flags == Some(Lines(entries)) && (r.value <==> old(flags) != flags)
      ensures r.Err? ==> fails && flags == old(flags)
      ensures r.Err? <==> fails && old(flags) != Some(Lines(entries))
    {
      if flags == Some(Lines(entries)) {
        return Ok(false);
      }
      if fails {
        return Err(FlagsFailed);
      }
      flags := Some(Lines(entries));
      r := Ok(true);
    }

    /** One entry: found up to date, downloaded, or an error. */
    method Obtain(e: Entry, reply: Reply) returns (r: Result<bool, Error>)
      requires SafeName(e.filename) && e.size > 0
      modifies this`files, this`history
      ensures old(history) <= history
      ensures forall i :: |old(history)| <= i < |history| ==> During(digest, e, old(files), history[i])
      ensures During(digest, e, old(files), files)
      ensures r.Ok? ==> Matches(digest, files, e) && (r.value <==> !UpToDate(digest, old(files), e))
      ensures r.Ok? ==> GotAs(digest, old(files), files, e, reply)
      ensures Obtainable(digest, e, reply) ==> r.Ok?
      ensures r.Ok? <==> Arrives(digest, old(files), e, reply)
      ensures r.Err? ==> FailsAs(digest, old(files), e, reply, r.error)
      ensures r == Ok(false) ==> files == old(files) && history == old(history)
      ensures r.Err? ==> r.error != FlagsFailed
      ensures !reply.unreadable && UpToDate(digest, old(files), e) ==> r == Ok(false)
      ensures !reply.unreadable && !UpToDate(digest, old(files), e) ==> history != old(history)
      ensures history == old(history) ==> files == old(files)
    {
      hide SafeName, Body, During;
      if e.filename in files && |files[e.filename]| == e.size && reply.unreadable {
        NothingChanges(digest, e, files);
        return Err(Unreadable);
      }
      if UpToDate(digest, files, e) {
        NothingChanges(digest, e, files);
        return Ok(false);
      }
      var error := Download(e, reply);
      assert During(digest, e, old(files), history[|history| - 1]) && history != old(history);
      r := if error.Some? then Err(error.value) else Ok(true);
    }

    /**
     The whole run.  Files only ever change to what a valid entry announced; with distinct
     names everything the flags file lists is there with its announced checksum; every
     entry is either available or an error.
     */
    method Sync(manifest: Option<seq<Item>>, replies: string -> Reply, keep: int, flagsFail: bool)
      returns (r: SyncResult, available: seq<Entry>)
      modifies this
      ensures old(history) <= history
      ensures manifest.None? ==>
        files == old(files) && flags == old(flags) && history == old(history) && r == SyncResult([], [NoManifest], false)
      ensures manifest.Some? ==>
        var items := manifest.value;
        && (forall i :: |old(history)| <= i < |history| ==> Sane(digest, items, old(files), history[i]))
        && Sane(digest, items, old(files), files)
        && FromItems(items, |items|, available)
        && (DistinctNames(items) ==>
              && AllMatch(digest, files, available) && AllMatch(digest, files, SelectLoaded(available, keep))
              && AllGot(digest, old(files), files, available, replies)
              && Reported(digest, old(files), items, replies, available, r))
        && (AllObtainable(digest, replies, items) ==> available == ValidEntries(items))
        && (flags == Some(Lines(SelectLoaded(available, keep))) || (flagsFail && flags == old(flags) && FlagsFailed in r.errors))
        && (r.flagsChanged <==> flags != old(flags))
        && |available| + |r.errors| == |items| + (if FlagsFailed in r.errors then 1 else 0)
        && (AllUpToDate(digest, old(files), items) && AllReadable(replies, items) ==>
              r.downloaded == [] && history == old(history) && files == old(files) && available == ValidEntries(items))
        && (DistinctNames(items) && AllReadable(replies, items) && history == old(history) ==> AllUpToDate(digest, old(files), items))
    {
      if manifest.None? {
        available := [];
        r := SyncResult([], [NoManifest], false);
        return;
      }
      var downloaded, errors;
      available, downloaded, errors := ObtainAll(manifest.value, replies);
      var chosen := Select(available, keep);
      SelectedMatch(digest, files, available, keep);
      var written := WriteFlags(chosen, flagsFail);
      if written.Err? {
        ghost var before := errors;
        errors := errors + [FlagsFailed];
        assert errors[..|errors| - 1] == before;
      }
      r := SyncResult(downloaded, errors, written.Ok? && written.value);
    }

    method ObtainAll(items: seq<Item>, replies: string -> Reply)
      returns (available: seq<Entry>, downloaded: seq<string>, errors: seq<Error>)
      modifies this`files, this`history
      ensures old(history) <= history && Sane(digest, items, old(files), files)
      ensures forall i :: |old(history)| <= i < |history| ==> Sane(digest, items, old(files), history[i])
      ensures FromItems(items, |items|, available)
      ensures DistinctNames(items) ==>
        AllMatch(digest, files, available) && AllGot(digest, old(files), files, available, replies)
      ensures AllObtainable(digest, replies, items) ==> available == ValidEntries(items)
      ensures DistinctNames(items) ==> Outcome(digest, old(files), items, replies, available, downloaded, errors)
      ensures |available| + |errors| == |items| && FlagsFailed !in errors
      ensures AllUpToDate(digest, old(files), items) && AllReadable(replies, items) ==>
        downloaded == [] && history == old(history) && files == old(files) && available == ValidEntries(items)
      ensures DistinctNames(items) && AllReadable(replies, items) && history == old(history) ==>
        AllUpToDate(digest, old(files), items)
    {
      hide Sane, During, SafeName, IsPart, UpToDate, Matches, DistinctNames, AllMatch, FromItems, AllUpToDate, AllReadable,
           AllGot, AllObtainable, Obtainable, Untouched, Outcome, Arrives, FailsAs;
      available, downloaded, errors := [], [], [];
      ghost var before := files;
      StartsSane(digest, items, before);
      NothingYet(digest, items, before, replies);
      NothingToObtain(digest, before, items, replies);
      for i := 0 to |items|
        invariant old(history) <= history && Sane(digest, items, before, files)
        invariant forall j :: |old(history)| <= j < |history| ==> Sane(digest, items, before, history[j])
        invariant FromItems(items, i, available)
        invariant DistinctNames(items) ==>
          && AllMatch(digest, files, available) && AllGot(digest, before, files, available, replies)
          && Untouched(items, i, before, files)
        invariant AllObtainable(digest, replies, items) ==> available == ValidEntries(items[..i])
        invariant DistinctNames(items) ==> Outcome(digest, before, items[..i], replies, available, downloaded, errors)
        invariant |available| + |errors| == i && FlagsFailed !in errors
        invariant history == old(history) ==> files == before
        invariant AllUpToDate(digest, before, items) && AllReadable(replies, items) ==>
          downloaded == [] && history == old(history) && available == ValidEntries(items[..i])
        invariant AllReadable(replies, items) && history == old(history) ==> AllUpToDate(digest, before, items[..i])
      {
        MoreUpToDate(digest, before, items, i);
        IsUpToDate(digest, before, items, replies, i);
        if !Valid(items[i]) {
          if DistinctNames(items) {
            OneMoreOutcome(digest, before, items, replies, i, available, downloaded, errors, Err(UnsafeEntry));
          }
          errors := errors + [UnsafeEntry];
          FromMore(items, i, available);
          FewerUntouched(items, i, before, files);
        } else {
          var e := items[i].entry;
          if AllObtainable(digest, replies, items) {
            EachObtainable(digest, replies, items, i);
          }
          if DistinctNames(items) {
            OwnFileIsAsBefore(items, i, before, files);
            OnlyItsFileMatters(digest, before, files, e, replies(e.adapter));
          }
          var got := ObtainOne(items, i, replies, before, available);
          if DistinctNames(items) {
            OneMoreOutcome(digest, before, items, replies, i, available, downloaded, errors, got);
          }
          match got
          case Ok(fetched) =>
            available := available + [e];
            if fetched {
              downloaded := downloaded + [e.filename];
            }
          case Err(error) =>
            errors := errors + [error];
            FromMore(items, i, available);
        }
      }
      assert items[..|items|] == items;
    }

    method ObtainOne(
      items: seq<Item>, i: int, replies: string -> Reply, ghost before: Files, ghost available: seq<Entry>)
      returns (r: Result<bool, Error>)
      requires 0 <= i < |items| && Valid(items[i]) && Sane(digest, items, before, files) && FromItems(items, i, available)
      modifies this`files, this`history
      ensures old(history) <= history && Sane(digest, items, before, files)
      ensures forall j :: |old(history)| <= j < |history| ==> Sane(digest, items, before, history[j])
      ensures FromItems(items, i + 1, if r.Ok? then available + [items[i].entry] else available)
      ensures DistinctNames(items) && AllMatch(digest, old(files), available) ==>
        AllMatch(digest, files, if r.Ok? then available + [items[i].entry] else available)
      ensures (DistinctNames(items) && Untouched(items, i, before, old(files))
               && AllGot(digest, before, old(files), available, replies)) ==>
        && Untouched(items, i + 1, before, files)
        && AllGot(digest, before, files, if r.Ok? then available + [items[i].entry] else available, replies)
      ensures Obtainable(digest, items[i].entry, replies(items[i].entry.adapter)) ==> r.Ok?
      ensures r.Ok? <==> Arrives(digest, old(files), items[i].entry, replies(items[i].entry.adapter))
      ensures r.Ok? ==> (r.value <==> !UpToDate(digest, old(files), items[i].entry))
      ensures r.Err? ==> FailsAs(digest, old(files), items[i].entry, replies(items[i].entry.adapter), r.error)
      ensures r.Err? ==> r.error != FlagsFailed
      ensures history == old(history) ==> files == old(files)
      ensures !replies(items[i].entry.adapter).unreadable ==>
        (UpToDate(digest, old(files), items[i].entry) <==> history == old(history))
      ensures !replies(items[i].entry.adapter).unreadable && UpToDate(digest, old(files), items[i].entry) ==>
        r == Ok(false)
    {
      hide Sane, During, SafeName, IsPart, UpToDate, DistinctNames, Matches, Untouched, AllGot, GotAs, Obtainable, Arrives, FailsAs;
      ValidIsSafe(items[i]);
      var e := items[i].entry;
      ghost var start, so := files, history;
      r := Obtain(e, replies(e.adapter));
      forall j | |so| <= j < |history| ensures Sane(digest, items, before, history[j]) {
        DuringIsSane(digest, items, i, before, start, history[j]);
      }
      DuringIsSane(digest, items, i, before, start, files);
      if DistinctNames(items) && AllMatch(digest, start, available) {
        AvailableStay(digest, items, i, start, files, available);
      }
      if DistinctNames(items) && Untouched(items, i, before, start) && AllGot(digest, before, start, available, replies) {
        GotStay(digest, items, i, before, start, files, available, replies);
        if r.Ok? {
          GotNow(digest, items, i, before, start, files, available, replies);
        }
      }
      FromMore(items, i, available);
    }

    /**
     Two runs on one list.  When the first obtained every valid entry and wrote the flags,
     the second touches no file exactly if every file has the announced size; it then
     downloads nothing and leaves the flags as they are.
     */
    method SyncTwice(items: seq<Item>, first: string -> Reply, second: string -> Reply, keep: int, flagsFail: bool)
      returns (r1: SyncResult, a1: seq<Entry>, r2: SyncResult, a2: seq<Entry>, ghost middle: Files, ghost steps: nat)
      requires DistinctNames(items) && AllReadable(second, items)
      modifies this
      ensures steps <= |history|
      ensures AllObtainable(digest, first, items) ==> a1 == ValidEntries(items)
      ensures AllGot(digest, old(files), middle, a1, first)
      ensures a1 == ValidEntries(items) ==> (SizesRight(middle, a1) <==> |history| == steps)
      ensures a1 == ValidEntries(items) && FlagsFailed !in r1.errors && SizesRight(middle, a1) ==>
        r2.downloaded == [] && !r2.flagsChanged && files == middle && a2 == a1
    {
      hide Valid, Sane, DistinctNames, AllReadable, FromItems, UpToDate, Matches, AllGot, AllObtainable, SelectLoaded;
      r1, a1 := Sync(Some(items), first, keep, flagsFail);
      middle := files;
      steps := |history|;
      ghost var so, lines := history, flags;
      if a1 == ValidEntries(items) {
        UpToDateBySize(digest, middle, items);
      }
      r2, a2 := Sync(Some(items), second, keep, flagsFail);
      assert |history| == steps ==> history == so;
    }
  }

  // ---- A file shorter than announced ----

  function ShortEntry(digest: Digest): Entry {
    Entry("a-v1.gguf", digest([1]), 2, "id", "agent", 1, false)
  }

  lemma ShortEntryIsValid(digest: Digest)
    ensures Valid(Announced(ShortEntry(digest)))
  {
    var s := "a-v1.gguf";
    assert SplitsSafely(s, 1, 4);
  }

  lemma ShortBody()
    ensures Body([[1]]) == [1]
  {
    assert [[1]][1..] == [];
  }

  /**
   One entry announced at two bytes whose body is one byte, with that byte's checksum: the
   first run obtains it, and the second goes to the server for it again.
   */
  method ShortFileIsFetchedAgain(digest: Digest)
    returns (available: seq<Entry>, ghost steps: nat, ghost total: nat)
    ensures available == [ShortEntry(digest)] && steps < total
  {
    hide SafeName, Body;
    var e := ShortEntry(digest);
    var items := [Announced(e)];
    var replies := (a: string) => Reply(false, true, [[1]], false, false);
    ShortEntryIsValid(digest);
    ShortBody();
    assert items[..0] == [] && ValidEntries(items[..0]) == [];
    assert ValidEntries(items) == [e];
    var host := new Host(map[], digest);
    var r1, a1, r2, a2;
    ghost var middle;
    r1, a1, r2, a2, middle, steps := host.SyncTwice(items, replies, replies, 1, false);
    assert GotAs(digest, map[], middle, a1[0], replies(a1[0].adapter));
    available, total := a1, |host.history|;
  }

  predicate SizesRight(files: Files, entries: seq<Entry>) {
    forall i :: 0 <= i < |entries| ==> entries[i].filename in files && |files[entries[i].filename]| == entries[i].size
  }

  lemma UpToDateBySize(digest: Digest, files: Files, items: seq<Item>)
    requires AllMatch(digest, files, ValidEntries(items))
    ensures AllUpToDate(digest, files, items) <==> SizesRight(files, ValidEntries(items))
  {
    hide SafeName;
    var es := ValidEntries(items);
    if AllUpToDate(digest, files, items) {
      forall i | 0 <= i < |es| ensures es[i].filename in files && |files[es[i].filename]| == es[i].size {
        assert es[i] in es;
        var k :| 0 <= k < |items| && Valid(items[k]) && items[k].entry == es[i];
      }
    }
    if SizesRight(files, es) {
      forall k | 0 <= k < |items| && Valid(items[k]) ensures UpToDate(digest, files, items[k].entry) {
        assert items[k].entry in es;
        var i :| 0 <= i < |es| && es[i] == items[k].entry;
      }
    }
  }

  predicate ComesFrom(items: seq<Item>, n: int, e: Entry)
    requires 0 <= n <= |items|
  {
    exists k :: 0 <= k < n && Valid(items[k]) && items[k].entry == e
  }

  predicate FromItems(items: seq<Item>, n: int, available: seq<Entry>)
    requires 0 <= n <= |items|
  {
    forall a :: 0 <= a < |available| ==> ComesFrom(items, n, available[a])
  }

  lemma NothingYet(digest: Digest, items: seq<Item>, files: Files, replies: string -> Reply)
    ensures AllGot(digest, files, files, [], replies) && Untouched(items, 0, files, files)
    ensures FromItems(items, 0, []) && AllMatch(digest, files, []) && AllUpToDate(digest, files, items[..0])
    ensures ValidEntries(items[..0]) == []
  {
  }

  lemma FromMore(items: seq<Item>, i: int, available: seq<Entry>)
    requires 0 <= i < |items| && FromItems(items, i, available)
    ensures FromItems(items, i + 1, available)
    ensures Valid(items[i]) ==> FromItems(items, i + 1, available + [items[i].entry])
  {
    hide SafeName;
    forall e | ComesFrom(items, i, e) ensures ComesFrom(items, i + 1, e) {
      var k :| 0 <= k < i && Valid(items[k]) && items[k].entry == e;
      assert Valid(items[k]) && items[k].entry == e;
    }
    assert Valid(items[i]) ==> ComesFrom(items, i + 1, items[i].entry);
  }

  predicate AllReadable(replies: string -> Reply, items: seq<Item>) {
    forall i :: 0 <= i < |items| && Valid(items[i]) ==> !replies(items[i].entry.adapter).unreadable
  }

  lemma StartsSane(digest: Digest, items: seq<Item>, files: Files)
    ensures Sane(digest, items, files, files)
  {
  }

  lemma ValidIsSafe(item: Item)
    requires Valid(item)
    ensures SafeName(item.entry.filename) && item.entry.size > 0
  {
  }

  lemma AvailableStay(digest: Digest, items: seq<Item>, i: int, start: Files, now: Files, available: seq<Entry>)
    requires 0 <= i < |items| && Valid(items[i]) && DistinctNames(items) && FromItems(items, i, available)
    requires AllMatch(digest, start, available) && During(digest, items[i].entry, start, now)
    ensures AllMatch(digest, now, available)
  {
    hide SafeName, IsPart;
    forall a | 0 <= a < |available| ensures Matches(digest, now, available[a]) {
      assert ComesFrom(items, i, available[a]);
      var k :| 0 <= k < i && Valid(items[k]) && items[k].entry == available[a];
      SafeIsNotPart(available[a].filename);
      SafeIsNotPart(items[i].entry.filename);
      assert SameFile(start, now, available[a].filename);
    }
  }

  /** A download leaves the other entries' files as they are. */
  lemma OthersStay(digest: Digest, items: seq<Item>, i: int, j: int, start: Files, now: Files)
    requires 0 <= i < |items| && 0 <= j < |items| && i != j && Valid(items[i]) && Valid(items[j]) && DistinctNames(items)
    requires During(digest, items[i].entry, start, now)
    ensures SameFile(start, now, items[j].entry.filename)
  {
    hide SafeName, IsPart;
    SafeIsNotPart(items[i].entry.filename);
    SafeIsNotPart(items[j].entry.filename);
  }

  lemma GotStay(
    digest: Digest, items: seq<Item>, i: int, before: Files, start: Files, now: Files, available: seq<Entry>,
    replies: string -> Reply)
    requires 0 <= i < |items| && Valid(items[i]) && DistinctNames(items) && FromItems(items, i, available)
    requires Untouched(items, i, before, start) && AllGot(digest, before, start, available, replies)
    requires During(digest, items[i].entry, start, now)
    ensures Untouched(items, i + 1, before, now) && AllGot(digest, before, now, available, replies)
  {
    hide SafeName, During, DistinctNames, UpToDate, Body;
    forall j | i + 1 <= j < |items| && Valid(items[j]) ensures SameFile(before, now, items[j].entry.filename) {
      OthersStay(digest, items, i, j, start, now);
      assert SameFile(before, start, items[j].entry.filename);
    }
    forall a | 0 <= a < |available| ensures GotAs(digest, before, now, available[a], replies(available[a].adapter)) {
      assert ComesFrom(items, i, available[a]);
      var k :| 0 <= k < i && Valid(items[k]) && items[k].entry == available[a];
      OthersStay(digest, items, i, k, start, now);
      assert GotAs(digest, before, start, available[a], replies(available[a].adapter));
    }
  }

  lemma GotNow(
    digest: Digest, items: seq<Item>, i: int, before: Files, start: Files, now: Files, available: seq<Entry>,
    replies: string -> Reply)
    requires 0 <= i < |items| && Valid(items[i]) && Untouched(items, i, before, start)
    requires AllGot(digest, before, now, available, replies)
    requires GotAs(digest, start, now, items[i].entry, replies(items[i].entry.adapter))
    ensures AllGot(digest, before, now, available + [items[i].entry], replies)
  {
    hide SafeName, Body;
    assert SameFile(before, start, items[i].entry.filename);
  }

  lemma OwnFileIsAsBefore(items: seq<Item>, i: int, before: Files, now: Files)
    requires 0 <= i < |items| && Valid(items[i]) && Untouched(items, i, before, now)
    ensures SameFile(before, now, items[i].entry.filename)
  {
  }

  lemma FewerUntouched(items: seq<Item>, i: int, before: Files, now: Files)
    requires 0 <= i < |items|
    ensures Untouched(items, i, before, now) ==> Untouched(items, i + 1, before, now)
  {
  }

  lemma EachObtainable(digest: Digest, replies: string -> Reply, items: seq<Item>, i: int)
    requires 0 <= i < |items| && Valid(items[i]) && AllObtainable(digest, replies, items)
    ensures Obtainable(digest, items[i].entry, replies(items[i].entry.adapter))
  {
  }

  /** The flags file lists only files that are there with their announced checksum. */
  lemma SelectedMatch(digest: Digest, files: Files, available: seq<Entry>, keep: int)
    ensures AllMatch(digest, files, available) ==> AllMatch(digest, files, SelectLoaded(available, keep))
  {
    hide Matches, SelectLoaded;
    SelectedAreAvailable(available, keep);
    var chosen := SelectLoaded(available, keep);
    if AllMatch(digest, files, available) {
      forall i | 0 <= i < |chosen| ensures Matches(digest, files, chosen[i]) {
        assert chosen[i] in available;
      }
    }
  }

  lemma IsUpToDate(digest: Digest, files: Files, items: seq<Item>, replies: string -> Reply, i: int)
    requires 0 <= i < |items|
    ensures AllUpToDate(digest, files, items) && Valid(items[i]) ==> UpToDate(digest, files, items[i].entry)
    ensures AllReadable(replies, items) && Valid(items[i]) ==> !replies(items[i].entry.adapter).unreadable
  {
  }

  lemma MoreUpToDate(digest: Digest, files: Files, items: seq<Item>, i: int)
    requires 0 <= i < |items|
    ensures AllUpToDate(digest, files, items[..i + 1]) <==>
      AllUpToDate(digest, files, items[..i]) && (Valid(items[i]) ==> UpToDate(digest, files, items[i].entry))
    ensures ValidEntries(items[..i + 1]) ==
      ValidEntries(items[..i]) + (if Valid(items[i]) then [items[i].entry] else [])
  {
    hide SafeName, UpToDate;
    assert items[..i + 1][..i] == items[..i];
    assert forall k :: 0 <= k < i ==> items[..i + 1][k] == items[k] && items[..i][k] == items[k];
    assert items[..i + 1][i] == items[i];
  }

  lemma NothingChanges(digest: Digest, e: Entry, files: Files)
    ensures During(digest, e, files, files)
  {
  }
}
