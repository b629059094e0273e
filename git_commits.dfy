/** The commit-data queries of the cd-service's `GitServer`: resolving a
    commit hash prefix against the `commits/<2>/<38>` directory layout of
    the manifest repository, and assembling a commit's message, touched
    applications and events. The repository's filesystem is abstract: a
    map from directory path to its entries and from file path to contents. */
module GitCommits {
  import opened Results
  import opened GoStrings
  import Sorting

  /** A path as the list of its components (`fs.Join` of the parts). */
  type Path = seq<string>

  /** One result of `fs.ReadDir`. */
  datatype Entry = Entry(name: string, isDir: bool)

  /** The repository filesystem: the entries of each readable directory
      and the contents of each readable file. */
  datatype FileSystem = FileSystem(dirs: map<Path, seq<Entry>>, files: map<Path, string>)

  /** Why `util.ReadFile` failed: nothing is there (`os.ErrNotExist`), or
      something that is not a readable file is. */
  datatype ReadFailure = DoesNotExist | NotAFile

  function ReadDir(fs: FileSystem, p: Path): Option<seq<Entry>>
  {
    if p in fs.dirs then Some(fs.dirs[p]) else None
  }

  function ReadFile(fs: FileSystem, p: Path): Result<string, ReadFailure>
  {
    if p in fs.files then Ok(fs.files[p])
    else if p in fs.dirs then Err(NotAFile)
    else Err(DoesNotExist)
  }

  /** `fs.Stat(p)` succeeds. */
  predicate Exists(fs: FileSystem, p: Path)
  {
    p in fs.dirs || p in fs.files
  }

  /** Every directory entry names something that exists, of its kind. */
  ghost predicate WellFormed(fs: FileSystem)
  {
    forall d, e :: d in fs.dirs && e in fs.dirs[d] ==>
      if e.isDir then d + [e.name] in fs.dirs else d + [e.name] in fs.files
  }

  /** The collaborators whose code is not part of this model. */
  datatype Externals = Externals(
    validCommitPrefix: string -> bool,   // valid.SHA1CommitIDPrefix
    isUuid: string -> bool,              // timeuuid.ParseUUID succeeds on the name
    uuidTime: string -> int,             // uuid.GetTime of that UUID, in nanoseconds
    newReleaseEventName: string)         // eventmod.NewReleaseEventName

  /** The gRPC status codes these queries produce; a plain Go error reaches
      the client as `Unknown`. */
  datatype Code = Unknown | InvalidArgument | NotFound | FailedPrecondition

  datatype CommitError =
    | InvalidCommitHash                  // fails valid.SHA1CommitIDPrefix
    | CommitHashTooShort                 // a partial prefix under 7 characters
    | CommitHashNotUnique                // two commits start with the prefix
    | CommitNotFound
    | CommitDataDisabled                 // WriteCommitData is off
    | CommitInfoMissing                  // no source_message file
    | SourceMessageUnreadable
    | ApplicationsUnreadable
    | EventsUnreadable
    | EventNotUuid(name: string)
    | EventUnreadable(cause: CommitError)
    | EventTypeUnreadable
    | EnvironmentsUnreadable
    | UnknownEventType(eventType: string)

  function CodeOf(e: CommitError): Code
  {
    match e
    case InvalidCommitHash => InvalidArgument
    case CommitHashTooShort => InvalidArgument
    case CommitHashNotUnique => InvalidArgument
    case CommitNotFound => NotFound
    case CommitDataDisabled => FailedPrecondition
    case CommitInfoMissing => NotFound
    case _ => Unknown
  }

  /** valid.SHA1CommitIDLength */
  const Sha1Length: nat := 40
  const MinPrefixLength: nat := 7

  /** Where a commit's data lives: `commits/<first two>/<rest>`. */
  function CommitPath(id: string): Path
    requires |id| >= 2
  {
    ["commits", id[..2], id[2..]]
  }

  // ---------------------------------------------------------------------
  // findCommitID

  /** The names of the entries that start with `prefix`, in directory
      order, one per entry. */
  function MatchingNames(entries: seq<Entry>, prefix: string): (r: seq<string>)
    ensures |r| <= |entries|
    ensures forall i :: 0 <= i < |r| ==> prefix <= r[i]
    decreases |entries|
  {
    if |entries| == 0 then []
    else
      var last := entries[|entries| - 1];
      MatchingNames(entries[..|entries| - 1], prefix) + (if prefix <= last.name then [last.name] else [])
  }

  /** Every matching entry contributes its name. */
  lemma {:induction false} MatchingNamesComplete(entries: seq<Entry>, prefix: string, k: nat)
    requires k < |entries| && prefix <= entries[k].name
    ensures entries[k].name in MatchingNames(entries, prefix)
    decreases |entries|
  {
    var n := |entries| - 1;
    if k < n {
      MatchingNamesComplete(entries[..n], prefix, k);
    }
  }

  /** Every matching name is the name of an entry. */
  lemma {:induction false} MatchingNamesFromEntries(entries: seq<Entry>, prefix: string, i: nat)
    requires i < |MatchingNames(entries, prefix)|
    ensures Entry(MatchingNames(entries, prefix)[i], true) in entries
         || Entry(MatchingNames(entries, prefix)[i], false) in entries
    decreases |entries|
  {
    var n := |entries| - 1;
    var init := entries[..n];
    var last := entries[n];
    if i < |MatchingNames(init, prefix)| {
      MatchingNamesFromEntries(init, prefix, i);
      var m := MatchingNames(init, prefix)[i];
      assert Entry(m, true) in init || Entry(m, false) in init;
    } else {
      assert MatchingNames(entries, prefix)[i] == last.name;
      assert last == Entry(last.name, last.isDir);
    }
  }

  /** The positions of the entries that start with `prefix`. */
  ghost function MatchingPositions(entries: seq<Entry>, prefix: string): set<nat>
  {
    set k: nat | k < |entries| && prefix <= entries[k].name
  }

  /** Adding an entry at the end adds its position when it matches. */
  lemma MatchingPositionsExtend(entries: seq<Entry>, prefix: string)
    requires |entries| > 0
    ensures var n := |entries| - 1;
      MatchingPositions(entries, prefix)
        == MatchingPositions(entries[..n], prefix) + (if prefix <= entries[n].name then {n} else {})
  {
    var n := |entries| - 1;
    var init := entries[..n];
    forall k: nat | k < n
      ensures init[k] == entries[k]
    {
    }
  }

  /** There is one matching name per matching position. */
  lemma {:induction false} MatchingNamesCount(entries: seq<Entry>, prefix: string)
    ensures |MatchingNames(entries, prefix)| == |MatchingPositions(entries, prefix)|
    decreases |entries|
  {
    if |entries| > 0 {
      var n := |entries| - 1;
      var init := entries[..n];
      MatchingNamesCount(init, prefix);
      MatchingPositionsExtend(entries, prefix);
      var before := MatchingPositions(init, prefix);
      assert n !in before;
      if prefix <= entries[n].name {
        assert |MatchingNames(entries, prefix)| == |MatchingNames(init, prefix)| + 1;
        assert |before + {n}| == |before| + 1;
      } else {
        assert |MatchingNames(entries, prefix)| == |MatchingNames(init, prefix)|;
      }
    } else {
      assert MatchingPositions(entries, prefix) == {};
    }
  }

  /** One more entry adds its name when it matches. */
  lemma MatchingNamesSnoc(entries: seq<Entry>, prefix: string, k: nat)
    requires k < |entries|
    ensures MatchingNames(entries[..k + 1], prefix)
      == MatchingNames(entries[..k], prefix) + (if prefix <= entries[k].name then [entries[k].name] else [])
  {
    assert entries[..k + 1][..k] == entries[..k];
  }

  /** The matches among the first k entries start the matches of all. */
  lemma {:induction false} MatchingNamesPrefix(entries: seq<Entry>, prefix: string, k: nat)
    requires k <= |entries|
    ensures MatchingNames(entries[..k], prefix) <= MatchingNames(entries, prefix)
    decreases |entries| - k
  {
    if k < |entries| {
      var n := |entries| - 1;
      MatchingNamesPrefix(entries[..n], prefix, k);
      assert entries[..n][..k] == entries[..k];
    } else {
      assert entries[..k] == entries;
    }
  }

  /** What `findCommitID` returns for `commitPrefix`. */
  function LookupCommitId(fs: FileSystem, commitPrefix: string, ext: Externals): (r: Result<string, CommitError>)
    ensures r.Ok? ==> ToLower(commitPrefix) <= r.value && |r.value| >= MinPrefixLength
    ensures r.Err? ==> CodeOf(r.error) == InvalidArgument || CodeOf(r.error) == NotFound
  {
    if !ext.validCommitPrefix(commitPrefix) then Err(InvalidCommitHash)
    else
      var p := ToLower(commitPrefix);
      if |p| == Sha1Length then
        if Exists(fs, CommitPath(p)) then Ok(p) else Err(CommitNotFound)
      else if |p| < MinPrefixLength then Err(CommitHashTooShort)
      else match ReadDir(fs, ["commits", p[..2]])
        case None => Err(CommitNotFound)
        case Some(entries) =>
          var ms := MatchingNames(entries, p[2..]);
          if |ms| == 0 then Err(CommitNotFound)
          else if |ms| == 1 then Ok(p[..2] + ms[0])
          else Err(CommitHashNotUnique)
  }

  /** `findCommitID`. */
  method FindCommitId(fs: FileSystem, commitPrefix: string, ext: Externals) returns (r: Result<string, CommitError>)
    ensures r == LookupCommitId(fs, commitPrefix, ext)
  {
    if !ext.validCommitPrefix(commitPrefix) {
      return Err(InvalidCommitHash);
    }
    var p := ToLower(commitPrefix);
    if |p| == Sha1Length {
      if !Exists(fs, CommitPath(p)) {
        return Err(CommitNotFound);
      }
      return Ok(p);
    }
    if |p| < MinPrefixLength {
      return Err(CommitHashTooShort);
    }
    var dir := ReadDir(fs, ["commits", p[..2]]);
    if dir.None? {
      return Err(CommitNotFound);
    }
    r := FindInDirectory(dir.value, p[..2], p[2..]);
  }

  /** The scan of `commits/<first two>` in `findCommitID`: the commit id is
      built from the directory part and the one name that starts with the
      file part. */
  method FindInDirectory(files: seq<Entry>, dirPart: string, filePrefix: string) returns (r: Result<string, CommitError>)
    requires dirPart != ""
    ensures var ms := MatchingNames(files, filePrefix);
      r == if |ms| == 0 then Err(CommitNotFound)
           else if |ms| == 1 then Ok(dirPart + ms[0])
           else Err(CommitHashNotUnique)
  {
    var commitId := "";
    var k := 0;
    while k < |files|
      invariant 0 <= k <= |files|
      invariant |MatchingNames(files[..k], filePrefix)| <= 1
      invariant commitId == if |MatchingNames(files[..k], filePrefix)| == 0 then ""
                            else dirPart + MatchingNames(files[..k], filePrefix)[0]
    {
      var fileName := files[k].name;
      MatchingNamesSnoc(files, filePrefix, k);
      if filePrefix <= fileName {
        if commitId != "" {
          MatchingNamesPrefix(files, filePrefix, k + 1);
          return Err(CommitHashNotUnique);
        }
        commitId := dirPart + fileName;
      }
      k := k + 1;
    }
    assert files[..k] == files;
    if commitId == "" {
      return Err(CommitNotFound);
    }
    return Ok(commitId);
  }

  /** An invalid or too short prefix is rejected with InvalidArgument
      without the filesystem being looked at. */
  lemma LookupRejectsBeforeReading(fs1: FileSystem, fs2: FileSystem, commitPrefix: string, ext: Externals)
    requires !ext.validCommitPrefix(commitPrefix)
      || (|commitPrefix| != Sha1Length && |commitPrefix| < MinPrefixLength)
    ensures LookupCommitId(fs1, commitPrefix, ext) == LookupCommitId(fs2, commitPrefix, ext)
    ensures LookupCommitId(fs1, commitPrefix, ext).Err?
    ensures CodeOf(LookupCommitId(fs1, commitPrefix, ext).error) == InvalidArgument
  {
  }

  /** A valid full-length hash resolves to itself, lower-cased, exactly
      when its commit directory exists, and is not found otherwise. */
  lemma LookupFullLength(fs: FileSystem, commitPrefix: string, ext: Externals)
    requires ext.validCommitPrefix(commitPrefix) && |commitPrefix| == Sha1Length
    ensures LookupCommitId(fs, commitPrefix, ext)
      == if Exists(fs, CommitPath(ToLower(commitPrefix))) then Ok(ToLower(commitPrefix)) else Err(CommitNotFound)
  {
  }

  /** A valid partial prefix whose `commits/<first two>` directory cannot
      be read is not found. */
  lemma LookupUnreadableDirectory(fs: FileSystem, commitPrefix: string, ext: Externals)
    requires ext.validCommitPrefix(commitPrefix)
    requires MinPrefixLength <= |commitPrefix| != Sha1Length
    requires ReadDir(fs, ["commits", ToLower(commitPrefix)[..2]]).None?
    ensures LookupCommitId(fs, commitPrefix, ext) == Err(CommitNotFound)
    ensures CodeOf(LookupCommitId(fs, commitPrefix, ext).error) == NotFound
  {
  }

  /** A partial prefix of valid length resolves by counting the entries of
      `commits/<first two>` that start with the rest: exactly one gives that
      commit, two or more give InvalidArgument, none gives NotFound. */
  lemma LookupPartialPrefix(fs: FileSystem, commitPrefix: string, ext: Externals, entries: seq<Entry>)
    requires ext.validCommitPrefix(commitPrefix)
    requires MinPrefixLength <= |commitPrefix| != Sha1Length
    requires ReadDir(fs, ["commits", ToLower(commitPrefix)[..2]]) == Some(entries)
    ensures var p := ToLower(commitPrefix);
      var matches := MatchingPositions(entries, p[2..]);
      && (LookupCommitId(fs, commitPrefix, ext).Ok? <==> |matches| == 1)
      && (LookupCommitId(fs, commitPrefix, ext) == Err(CommitHashNotUnique) <==> |matches| >= 2)
      && (LookupCommitId(fs, commitPrefix, ext) == Err(CommitNotFound) <==> |matches| == 0)
      && (forall k :: k in matches && LookupCommitId(fs, commitPrefix, ext).Ok? ==>
            LookupCommitId(fs, commitPrefix, ext).value == p[..2] + entries[k].name)
  {
    var p := ToLower(commitPrefix);
    MatchingNamesCount(entries, p[2..]);
    var ms := MatchingNames(entries, p[2..]);
    forall k | k in MatchingPositions(entries, p[2..]) && |ms| == 1
      ensures entries[k].name == ms[0]
    {
      MatchingNamesComplete(entries, p[2..], k);
    }
  }

  /** In a well-formed filesystem a resolved commit has its directory. */
  lemma LookupFindsExistingCommit(fs: FileSystem, commitPrefix: string, ext: Externals)
    requires WellFormed(fs)
    requires LookupCommitId(fs, commitPrefix, ext).Ok?
    ensures Exists(fs, CommitPath(LookupCommitId(fs, commitPrefix, ext).value))
  {
    var p := ToLower(commitPrefix);
    var id := LookupCommitId(fs, commitPrefix, ext).value;
    if |p| != Sha1Length {
      var d := ["commits", p[..2]];
      var ms := MatchingNames(fs.dirs[d], p[2..]);
      MatchingNamesFromEntries(fs.dirs[d], p[2..], 0);
      var e := if Entry(ms[0], true) in fs.dirs[d] then Entry(ms[0], true) else Entry(ms[0], false);
      assert e in fs.dirs[d];
      assert id[..2] == p[..2] && id[2..] == e.name;
      assert d + [e.name] == CommitPath(id);
    }
  }

  // ---------------------------------------------------------------------
  // ReadEvent and GetEvents

  /** A new-release event: when it was created and the environments it
      names. */
  datatype Event = Event(createdAt: int, environmentNames: seq<string>)

  /** The names of the subdirectory entries, in directory order. */
  function DirNames(entries: seq<Entry>): (r: seq<string>)
    ensures |r| <= |entries|
    ensures forall n :: n in r <==> Entry(n, true) in entries
    decreases |entries|
  {
    if |entries| == 0 then []
    else
      var init, last := entries[..|entries| - 1], entries[|entries| - 1];
      assert forall e :: e in entries <==> e in init || e == last;
      DirNames(init) + (if last.isDir then [last.name] else [])
  }

  /** What `ReadEvent` returns for the event directory `eventPath` named
      `name`. */
  function EventAt(fs: FileSystem, eventPath: Path, name: string, ext: Externals): (r: Result<Event, CommitError>)
    ensures r.Ok? <==>
      ReadFile(fs, eventPath + ["eventType"]) == Ok(ext.newReleaseEventName)
      && ReadDir(fs, eventPath + ["environments"]).Some?
    ensures r.Ok? ==> r.value.createdAt == ext.uuidTime(name)
    ensures r.Ok? ==> forall n :: n in r.value.environmentNames <==>
      Entry(n, true) in ReadDir(fs, eventPath + ["environments"]).value
  {
    match ReadFile(fs, eventPath + ["eventType"])
    case Err(_) => Err(EventTypeUnreadable)
    case Ok(eventType) =>
      if eventType != ext.newReleaseEventName then Err(UnknownEventType(eventType))
      else match ReadDir(fs, eventPath + ["environments"])
        case None => Err(EnvironmentsUnreadable)
        case Some(entries) => Ok(Event(ext.uuidTime(name), DirNames(entries)))
  }

  /** `ReadEvent`. The event's UUID is given by its directory name. */
  method ReadEvent(fs: FileSystem, eventPath: Path, name: string, ext: Externals) returns (r: Result<Event, CommitError>)
    ensures r == EventAt(fs, eventPath, name, ext)
  {
    var eventType := ReadFile(fs, eventPath + ["eventType"]);
    if eventType.Err? {
      return Err(EventTypeUnreadable);
    }
    if eventType.value == ext.newReleaseEventName {
      var dir := ReadDir(fs, eventPath + ["environments"]);
      if dir.None? {
        return Err(EnvironmentsUnreadable);
      }
      var entries := dir.value;
      var envs: seq<string> := [];
      var i := 0;
      while i < |entries|
        invariant 0 <= i <= |entries|
        invariant envs == DirNames(entries[..i])
      {
        assert entries[..i + 1][..i] == entries[..i];
        if entries[i].isDir {
          envs := envs + [entries[i].name];
        }
        i := i + 1;
      }
      assert entries[..i] == entries;
      return Ok(Event(ext.uuidTime(name), envs));
    }
    return Err(UnknownEventType(eventType.value));
  }

  /** The subdirectory entries, in directory order. */
  function Subdirectories(entries: seq<Entry>): seq<Entry>
  {
    if |entries| == 0 then []
    else (if entries[0].isDir then [entries[0]] else []) + Subdirectories(entries[1..])
  }

  /** The loop of `GetEvents` from the point where `acc` has been
      collected: every subdirectory must be named by a UUID and hold a
      readable event; plain files are skipped. */
  function EventsFrom(acc: seq<Event>, fs: FileSystem, eventsPath: Path, entries: seq<Entry>, ext: Externals)
    : Result<seq<Event>, CommitError>
    decreases |entries|
  {
    if |entries| == 0 then Ok(acc)
    else
      var e := entries[0];
      if !e.isDir then EventsFrom(acc, fs, eventsPath, entries[1..], ext)
      else if !ext.isUuid(e.name) then Err(EventNotUuid(e.name))
      else match EventAt(fs, eventsPath + [e.name], e.name, ext)
        case Err(err) => Err(EventUnreadable(err))
        case Ok(ev) => EventsFrom(acc + [ev], fs, eventsPath, entries[1..], ext)
  }

  /** The events of a commit before sorting. */
  function CollectedEvents(fs: FileSystem, commitPath: Path, ext: Externals): Result<seq<Event>, CommitError>
  {
    match ReadDir(fs, commitPath + ["events"])
    case None => Err(EventsUnreadable)
    case Some(entries) => EventsFrom([], fs, commitPath + ["events"], entries, ext)
  }

  /** The order `GetEvents` sorts by. */
  predicate CreatedBefore(a: Event, b: Event)
  {
    a.createdAt < b.createdAt
  }

  lemma CreatedBeforeIsStrictWeakOrder()
    ensures Sorting.StrictWeakOrder(CreatedBefore)
  {
  }

  /** `GetEvents`: the collected events in ascending creation time, or the
      error of the first bad entry. */
  method GetEvents(fs: FileSystem, commitPath: Path, ext: Externals) returns (r: Result<seq<Event>, CommitError>)
    ensures r.Err? <==> CollectedEvents(fs, commitPath, ext).Err?
    ensures r.Err? ==> r == CollectedEvents(fs, commitPath, ext)
    ensures r.Ok? ==> Sorting.SortedBy(r.value, CreatedBefore)
    ensures r.Ok? ==> multiset(r.value) == multiset(CollectedEvents(fs, commitPath, ext).value)
  {
    var eventsPath := commitPath + ["events"];
    var dir := ReadDir(fs, eventsPath);
    if dir.None? {
      return Err(EventsUnreadable);
    }
    var entries := dir.value;
    var result: seq<Event> := [];
    var i := 0;
    while i < |entries|
      invariant 0 <= i <= |entries|
      invariant EventsFrom(result, fs, eventsPath, entries[i..], ext) == EventsFrom([], fs, eventsPath, entries, ext)
    {
      var entry := entries[i];
      assert entries[i..][0] == entry && entries[i..][1..] == entries[i + 1..];
      if entry.isDir {
        if !ext.isUuid(entry.name) {
          return Err(EventNotUuid(entry.name));
        }
        var ev := ReadEvent(fs, eventsPath + [entry.name], entry.name, ext);
        if ev.Err? {
          return Err(EventUnreadable(ev.error));
        }
        result := result + [ev.value];
      }
      i := i + 1;
    }
    assert entries[i..] == [];
    var sorted := new Event[|result|](j requires 0 <= j < |result| => result[j]);
    assert sorted[..] == result;
    CreatedBeforeIsStrictWeakOrder();
    Sorting.Sort(sorted, CreatedBefore);
    return Ok(sorted[..]);
  }

  /** Plain files among the entries never change the outcome. */
  lemma {:induction false} EventsIgnoreFiles(acc: seq<Event>, fs: FileSystem, eventsPath: Path, entries: seq<Entry>, ext: Externals)
    ensures EventsFrom(acc, fs, eventsPath, entries, ext) == EventsFrom(acc, fs, eventsPath, Subdirectories(entries), ext)
    decreases |entries|
  {
    if |entries| > 0 {
      var e := entries[0];
      var subs := Subdirectories(entries);
      if e.isDir {
        assert subs[0] == e && subs[1..] == Subdirectories(entries[1..]);
        if ext.isUuid(e.name) {
          match EventAt(fs, eventsPath + [e.name], e.name, ext)
          case Err(_) =>
          case Ok(ev) => EventsIgnoreFiles(acc + [ev], fs, eventsPath, entries[1..], ext);
        }
      } else {
        assert subs == Subdirectories(entries[1..]);
        EventsIgnoreFiles(acc, fs, eventsPath, entries[1..], ext);
      }
    }
  }

  /** A subdirectory whose name is not a UUID makes the whole collection
      fail. */
  lemma {:induction false} EventsRejectNonUuid(acc: seq<Event>, fs: FileSystem, eventsPath: Path, entries: seq<Entry>,
                                               ext: Externals, k: nat)
    requires k < |entries| && entries[k].isDir && !ext.isUuid(entries[k].name)
    ensures EventsFrom(acc, fs, eventsPath, entries, ext).Err?
    decreases k
  {
    if k > 0 {
      var e := entries[0];
      assert entries[1..][k - 1] == entries[k];
      if !e.isDir {
        EventsRejectNonUuid(acc, fs, eventsPath, entries[1..], ext, k - 1);
      } else if ext.isUuid(e.name) {
        match EventAt(fs, eventsPath + [e.name], e.name, ext)
        case Err(_) =>
        case Ok(ev) => EventsRejectNonUuid(acc + [ev], fs, eventsPath, entries[1..], ext, k - 1);
      }
    }
  }

  /** On success there is exactly one event per subdirectory, in directory
      order, and each is what `ReadEvent` reads from that subdirectory. */
  lemma {:induction false} EventsFromContents(acc: seq<Event>, fs: FileSystem, eventsPath: Path, entries: seq<Entry>,
                                              ext: Externals)
    requires EventsFrom(acc, fs, eventsPath, entries, ext).Ok?
    ensures var evs := EventsFrom(acc, fs, eventsPath, entries, ext).value;
      var subs := Subdirectories(entries);
      && |evs| == |acc| + |subs|
      && evs[..|acc|] == acc
      && forall j :: 0 <= j < |subs| ==>
           ext.isUuid(subs[j].name) && EventAt(fs, eventsPath + [subs[j].name], subs[j].name, ext) == Ok(evs[|acc| + j])
    decreases |entries|
  {
    if |entries| > 0 {
      var e := entries[0];
      var subs := Subdirectories(entries);
      if e.isDir {
        var ev := EventAt(fs, eventsPath + [e.name], e.name, ext).value;
        EventsFromContents(acc + [ev], fs, eventsPath, entries[1..], ext);
        var evs := EventsFrom(acc, fs, eventsPath, entries, ext).value;
        assert evs[..|acc| + 1] == acc + [ev] by {
          assert evs[..|acc| + 1][..|acc|] == evs[..|acc|];
        }
        assert subs == [e] + Subdirectories(entries[1..]);
        forall j | 0 < j < |subs|
          ensures subs[j] == Subdirectories(entries[1..])[j - 1]
        {
        }
      } else {
        EventsFromContents(acc, fs, eventsPath, entries[1..], ext);
      }
    }
  }

  // ---------------------------------------------------------------------
  // GetCommitInfo

  datatype CommitInfo = CommitInfo(commitHash: string, commitMessage: string, touchedApps: seq<string>, events: seq<Event>)

  /** The names of all entries, in directory order. */
  function Names(entries: seq<Entry>): (r: seq<string>)
    ensures |r| == |entries|
    ensures forall i :: 0 <= i < |entries| ==> r[i] == entries[i].name
  {
    seq(|entries|, i requires 0 <= i < |entries| => entries[i].name)
  }

  /** What `GetCommitInfo` may return: the steps run in order and the first
      failure is the answer; on success the hash is the resolved one, the
      message is the `source_message` file, and the touched applications
      (every entry of `applications`) and the events are sorted
      permutations of what was read. */
  ghost predicate CommitInfoOutcome(writeCommitData: bool, fs: FileSystem, commitHash: string, ext: Externals,
                                    r: Result<CommitInfo, CommitError>)
  {
    if !writeCommitData then r == Err(CommitDataDisabled)
    else match LookupCommitId(fs, commitHash, ext)
      case Err(e) => r == Err(e)
      case Ok(id) =>
        var path := CommitPath(id);
        match ReadFile(fs, path + ["source_message"])
        case Err(DoesNotExist) => r == Err(CommitInfoMissing)
        case Err(NotAFile) => r == Err(SourceMessageUnreadable)
        case Ok(message) =>
          match ReadDir(fs, path + ["applications"])
          case None => r == Err(ApplicationsUnreadable)
          case Some(apps) =>
            match CollectedEvents(fs, path, ext)
            case Err(e) => r == Err(e)
            case Ok(events) =>
              && r.Ok?
              && r.value.commitHash == id
              && r.value.commitMessage == message
              && Sorting.SortedBy(r.value.touchedApps, Less)
              && multiset(r.value.touchedApps) == multiset(Names(apps))
              && Sorting.SortedBy(r.value.events, CreatedBefore)
              && multiset(r.value.events) == multiset(events)
  }

  /** `GetCommitInfo`. `writeCommitData` is the repository configuration's
      `WriteCommitData` flag. */
  method GetCommitInfo(writeCommitData: bool, fs: FileSystem, commitHash: string, ext: Externals)
    returns (r: Result<CommitInfo, CommitError>)
    ensures CommitInfoOutcome(writeCommitData, fs, commitHash, ext, r)
  {
    if !writeCommitData {
      return Err(CommitDataDisabled);
    }
    var found := FindCommitId(fs, commitHash, ext);
    if found.Err? {
      return Err(found.error);
    }
    var commitId := found.value;
    var commitPath := CommitPath(commitId);
    var message := ReadFile(fs, commitPath + ["source_message"]);
    if message.Err? {
      if message.error == DoesNotExist {
        return Err(CommitInfoMissing);
      }
      return Err(SourceMessageUnreadable);
    }
    var dirs := ReadDir(fs, commitPath + ["applications"]);
    if dirs.None? {
      return Err(ApplicationsUnreadable);
    }
    var entries := dirs.value;
    var touched: seq<string> := [];
    var i := 0;
    while i < |entries|
      invariant 0 <= i <= |entries|
      invariant touched == Names(entries[..i])
    {
      touched := touched + [entries[i].name];
      i := i + 1;
    }
    assert entries[..i] == entries;
    var touchedApps := new string[|touched|](j requires 0 <= j < |touched| => touched[j]);
    assert touchedApps[..] == touched;
    LessIsStrictWeakOrder();
    Sorting.Sort(touchedApps, Less);
    var events := GetEvents(fs, commitPath, ext);
    if events.Err? {
      return Err(events.error);
    }
    return Ok(CommitInfo(commitId, message.value, touchedApps[..], events.value));
  }

  /** A successful answer names a commit that starts with the lower-cased
      request and, in a well-formed filesystem, whose directory exists. */
  lemma CommitInfoNamesRequestedCommit(writeCommitData: bool, fs: FileSystem, commitHash: string, ext: Externals,
                                       info: CommitInfo)
    requires CommitInfoOutcome(writeCommitData, fs, commitHash, ext, Ok(info))
    ensures writeCommitData
    ensures ToLower(commitHash) <= info.commitHash
    ensures WellFormed(fs) ==> Exists(fs, CommitPath(info.commitHash))
  {
    if WellFormed(fs) {
      LookupFindsExistingCommit(fs, commitHash, ext);
    }
  }
}
