/** Installing the zipped renderer as file-system operations: download, verify, unpack beside the install folder,
    then swap. Every state the disk passes through is recorded, so what holds of all of them holds after a crash
    between any two operations. */
module RuntimeInstaller {
  import opened Outcomes
  import opened Chunks
  import opened InstallProgress

  type Bytes = seq<int>

  /** The files under a folder. */
  type Tree = map<string, Bytes>

  /** One zip entry: whether its data can be opened, its path inside the install folder if it stays inside, its declared
      size, and the chunks its data decompresses to, which may end in a read error. */
  datatype Entry = Entry(opens: bool, path: Option<string>, isDir: bool, size: nat, chunks: seq<Bytes>, corrupt: bool)

  /** SHA-256 in lower-case hex, and the zip directory of a readable archive. */
  datatype Library = Library(sha256: Bytes -> string, entries: Bytes -> Option<seq<Entry>>)

  datatype Disk = Disk(download: Option<Bytes>, part: Option<Bytes>, staging: Option<Tree>, install: Option<Tree>)

  datatype Error = Http | Io | Checksum | Archive | UnsafePath | MissingExecutable

  /** What answers the download: an error, or a body of an announced length (0 if none) that may break off. */
  datatype Server = Refuses | Serves(total: nat, chunks: seq<Bytes>, breaks: bool)

  /** The operations whose failure is ignored. */
  datatype Cleanup = PartFile | StagingFolder | ArchiveFile

  // ----- what the server delivers

  /** The reads up to the end of the body: an empty read ends it. */
  function Reads(chunks: seq<Bytes>): seq<Bytes> {
    if chunks == [] || chunks[0] == [] then [] else [chunks[0]] + Reads(chunks[1..])
  }

  function Body(server: Server): Bytes
    requires server.Serves?
  {
    Concat(Reads(server.chunks))
  }

  /** The connection breaks before the body has ended. */
  predicate BreaksOff(server: Server) {
    server.Serves? && server.breaks && [] !in server.chunks
  }

  /** Why a download does not yield the expected archive although no operation fails. */
  function DownloadProblem(lib: Library, expected: string, server: Server): Option<Error> {
    if server.Refuses? then Some(Http)
    else if BreaksOff(server) then Some(Io)
    else if server.total != 0 && |Body(server)| != server.total then Some(Http)
    else if lib.sha256(Body(server)) != expected then Some(Checksum)
    else None
  }

  // ----- trees

  function EntryProblem(e: Entry): Option<Error> {
    if !e.opens then Some(Archive)
    else if e.path.None? then Some(UnsafePath)
    else if !e.isDir && e.corrupt then Some(Io)
    else None
  }

  predicate Unpackable(entries: seq<Entry>) {
    forall e <- entries :: e.opens && e.path.Some? && (e.isDir || !e.corrupt)
  }

  /** The problem of the first entry that has one. */
  function FirstProblem(entries: seq<Entry>): Option<Error> {
    if entries == [] then None
    else
      var before := FirstProblem(entries[..|entries| - 1]);
      if before.Some? then before else EntryProblem(entries[|entries| - 1])
  }

  /** Why an archive cannot be installed although no operation fails. */
  function ArchiveProblem(lib: Library, exe: string, archive: Bytes): Option<Error> {
    if lib.entries(archive).None? then Some(Archive)
    else
      var entries := lib.entries(archive).value;
      if FirstProblem(entries).Some? then FirstProblem(entries)
      else if !Unpackable(entries) || exe !in Unpacked(entries) then Some(MissingExecutable)
      else None
  }

  /** The complete tree of an archive: later entries replace earlier ones of the same path. */
  function Unpacked(entries: seq<Entry>): Tree
    requires Unpackable(entries)
  {
    if entries == [] then map[]
    else
      var e := entries[|entries| - 1];
      var tree := Unpacked(entries[..|entries| - 1]);
      if e.isDir then tree else tree[e.path.value := Concat(e.chunks)]
  }

  ghost predicate PartOf(tree: Tree, whole: Tree) {
    forall p <- tree :: p in whole && tree[p] == whole[p]
  }

  function TotalSize(entries: seq<Entry>): nat {
    if entries == [] then 0 else TotalSize(entries[..|entries| - 1]) + entries[|entries| - 1].size
  }

  // ----- the disk states an install may pass through

  /** The old tree, a remainder of it, or nothing. */
  ghost predicate OldOrLess(install: Option<Tree>, old_: Option<Tree>) {
    install == old_ || install.None? || (old_.Some? && PartOf(install.value, old_.value))
  }

  /** The complete tree of an archive whose hash is the expected one, with the executable in it. */
  ghost predicate CompleteInstall(lib: Library, expected: string, exe: string, tree: Tree, archive: Bytes) {
    && lib.sha256(archive) == expected
    && lib.entries(archive).Some?
    && Unpackable(lib.entries(archive).value)
    && tree == Unpacked(lib.entries(archive).value)
    && exe in tree
  }

  ghost predicate SafeInstall(lib: Library, expected: string, exe: string, before: Disk, now: Disk) {
    || OldOrLess(now.install, before.install)
    || (now.install.Some? && exists archive :: CompleteInstall(lib, expected, exe, now.install.value, archive))
  }

  ghost predicate SafeDownload(lib: Library, expected: string, before: Disk, now: Disk) {
    || now.download.None? || now.download == before.download
    || lib.sha256(now.download.value) == expected
  }

  /** While the old tree is whole the swap has not begun; once it is not, either the complete new tree is installed or
      it waits beside the install folder together with the verified archive it came from. */
  ghost predicate NewTreeReady(lib: Library, expected: string, exe: string, before: Disk, now: Disk) {
    now.install == before.install
    || (now.download.Some? && now.staging.Some?
      && CompleteInstall(lib, expected, exe, now.staging.value, now.download.value))
    || (now.install.Some? && exists archive :: CompleteInstall(lib, expected, exe, now.install.value, archive))
  }

  class Installer {
    const lib: Library
    const expected: string
    const exe: string
    // does the k-th file operation succeed, and does an operation whose failure is ignored
    const works: nat -> bool
    const tidies: Cleanup -> bool
    var ops: nat
    var disk: Disk
    var events: seq<Progress>
    // every state of the disk since the install began, the archives that were unpacked, whether the swap began,
    // and whether it failed and its leftovers are being cleared
    ghost var before: Disk
    ghost var history: seq<Disk>
    ghost var unpackedArchives: seq<Bytes>
    ghost var swapping: bool
    ghost var cleaning: bool

    constructor (lib: Library, sha256: string, exe: string, works: nat -> bool, tidies: Cleanup -> bool, disk: Disk)
      ensures this.lib == lib && expected == sha256 && this.exe == exe && this.disk == disk
      ensures this.works == works && this.tidies == tidies && ops == 0
      ensures Started()
    {
      this.lib, this.expected, this.exe, this.disk := lib, sha256, exe, disk;
      this.works, this.tidies, ops := works, tidies, 0;
      events := [];
      before, history, unpackedArchives, swapping, cleaning := disk, [disk], [], false, false;
    }

    ghost predicate Started()
      reads this
    {
      before == disk && history == [disk] && unpackedArchives == [] && !swapping && !cleaning && events == []
    }

    /** What holds of one state of the disk at this stage of the install. */
    ghost predicate SafeState(d: Disk)
      reads this`before, this`swapping, this`cleaning
    {
      && SafeInstall(lib, expected, exe, before, d)
      && SafeDownload(lib, expected, before, d)
      && (!swapping ==> d.install == before.install)
      && (!cleaning ==> NewTreeReady(lib, expected, exe, before, d))
    }

    ghost predicate Safe()
      reads this`disk, this`before, this`history, this`unpackedArchives, this`swapping, this`cleaning
    {
      && history != [] && history[|history| - 1] == disk
      && SafeState(disk)
      && (forall d <- history :: SafeState(d))
      && (forall a <- unpackedArchives :: lib.sha256(a) == expected)
      && (cleaning ==> swapping)
    }

    /** None of the operations from number `from` up to now has failed. */
    ghost predicate AllWorked(from: nat)
      reads this`ops
    {
      from <= ops && forall k :: from <= k < ops ==> works(k)
    }

    /** One operation that may fail. */
    method Try() returns (ok: bool)
      modifies this`ops
      ensures ops == old(ops) + 1 && ok == works(old(ops))
    {
      ok := works(ops);
      ops := ops + 1;
    }

    /** One file-system operation that did what it was asked. */
    method Become(d: Disk)
      requires Safe() && SafeState(d)
      modifies this`disk, this`history
      ensures disk == d && history == old(history) + [d]
      ensures Safe()
    {
      disk := d;
      history := history + [d];
    }

    /** One write below the staging folder, before the swap. */
    method Stage(tree: Tree)
      requires Safe() && !swapping
      modifies this`disk, this`history
      ensures Safe() && disk == old(disk).(staging := Some(tree))
    {
      Become(disk.(staging := Some(tree)));
    }

    /** One change of the part file. */
    method WritePart(part: Option<Bytes>)
      requires Safe() && !swapping
      modifies this`disk, this`history
      ensures Safe() && disk == old(disk).(part := part)
    {
      Become(disk.(part := part));
    }

    /** remove_file on the archive. */
    method DropArchive(ghost archive: Bytes)
      requires Safe() && disk.install.Some? && CompleteInstall(lib, expected, exe, disk.install.value, archive)
      modifies this`disk, this`history
      ensures Safe() && disk == old(disk).(download := if tidies(ArchiveFile) then None else old(disk).download)
    {
      if tidies(ArchiveFile) {
        Become(disk.(download := None));
      }
    }

    /** remove_dir_all on the staging folder: files go one by one, and it stops where one cannot be removed. */
    method RemoveStaging() returns (ok: bool)
      requires Safe() && (!swapping || cleaning)
      modifies this`disk, this`history, this`ops
      ensures Safe()
      ensures disk == old(disk).(staging := disk.staging)
      ensures ok ==> disk.staging.None?
      ensures ops >= old(ops) && (ok <==> AllWorked(old(ops)))
    {
      while disk.staging.Some? && |disk.staging.value| > 0
        invariant Safe() && AllWorked(old(ops))
        invariant disk == old(disk).(staging := disk.staging)
        decreases if disk.staging.Some? then |disk.staging.value| else 0
      {
        ok := Try();
        if !ok {
          return;
        }
        var tree := disk.staging.value;
        var p :| p in tree;
        assert |(tree - {p}).Keys| < |tree.Keys|;
        Become(disk.(staging := Some(tree - {p})));
      }
      ok := Try();
      if ok {
        Become(disk.(staging := None));
      }
    }

    /** The same after a failure, whatever comes of it. */
    method ClearStaging()
      requires Safe() && (!swapping || cleaning)
      modifies this`disk, this`history
      ensures Safe()
      ensures disk == old(disk).(staging := disk.staging)
      ensures tidies(StagingFolder) ==> disk.staging.None?
    {
      while disk.staging.Some? && |disk.staging.value| > 0
        invariant Safe()
        invariant disk == old(disk).(staging := disk.staging)
        decreases if disk.staging.Some? then |disk.staging.value| else 0
      {
        var goesOn: bool := *;
        if !tidies(StagingFolder) && !goesOn {
          return;
        }
        var tree := disk.staging.value;
        var p :| p in tree;
        assert |(tree - {p}).Keys| < |tree.Keys|;
        Become(disk.(staging := Some(tree - {p})));
      }
      if tidies(StagingFolder) {
        Become(disk.(staging := None));
      }
    }

    /** remove_dir_all on the old install, with the complete new tree waiting beside it. */
    method RemoveInstall(ghost archive: Bytes) returns (ok: bool)
      requires Safe() && swapping && !cleaning && disk.install == before.install
      requires disk.download == Some(archive)
      requires disk.staging.Some? && CompleteInstall(lib, expected, exe, disk.staging.value, archive)
      modifies this`disk, this`history, this`ops
      ensures Safe()
      ensures disk == old(disk).(install := disk.install)
      ensures OldOrLess(disk.install, before.install)
      ensures ok ==> disk.install.None?
      ensures ops >= old(ops) && (ok <==> AllWorked(old(ops)))
    {
      while disk.install.Some? && |disk.install.value| > 0
        invariant Safe() && AllWorked(old(ops))
        invariant disk == old(disk).(install := disk.install)
        invariant OldOrLess(disk.install, before.install)
        decreases if disk.install.Some? then |disk.install.value| else 0
      {
        ok := Try();
        if !ok {
          return;
        }
        var tree := disk.install.value;
        var p :| p in tree;
        assert |(tree - {p}).Keys| < |tree.Keys|;
        Become(disk.(install := Some(tree - {p})));
      }
      ok := Try();
      if ok {
        Become(disk.(install := None));
      }
    }

    // ----- download

    /** The body of the download up to the rename. A failure leaves the part file for the caller to remove. */
    method FetchBody(server: Server) returns (r: Result<(), Error>, stage: seq<Progress>)
      requires Safe() && !swapping && server.Serves?
      modifies this`disk, this`history, this`ops
      ensures Safe()
      ensures stage == [] || Throttled(stage, Downloading)
      ensures r.Ok? ==> stage != []
      ensures ops >= old(ops) && (!AllWorked(old(ops)) ==> r == Err(Io))
      ensures AllWorked(old(ops)) ==> r == Outcome(DownloadProblem(lib, expected, server))
      ensures r.Ok? ==> disk == old(disk).(part := None, download := Some(Body(server)))
      ensures r.Err? ==> disk == old(disk).(part := disk.part)
    {
      hide SafeState, DownloadProblem, Throttled, Body, Reporter.Valid, BreaksOff, Outcome, Climbs, Reads, Concat;
      stage := [];
      var ok := Try();
      if !ok {
        return Err(Io), stage;
      }
      WritePart(Some([]));
      var reporter := new Reporter(Downloading, server.total);
      reporter.Report(0);
      var written := ReadAll(server.chunks, reporter);
      StillThrottled(reporter);
      if !written {
        return Err(Io), reporter.events;
      }
      if BreaksOff(server) {
        BrokenBody(lib, expected, server);
        return Err(Io), reporter.events;
      }
      ok := Try();
      if !ok {
        return Err(Io), reporter.events;
      }
      BodyIs(server);
      ghost var from := ops;
      r, stage := Accept(server.total, reporter);
      WorkedOn(old(ops), from);
      WholeBody(lib, expected, server);
    }

    /** The read and write loop; false if a write fails. */
    method ReadAll(chunks: seq<Bytes>, reporter: Reporter) returns (ok: bool)
      requires Safe() && !swapping && disk.part == Some([])
      requires reporter.Counting() && reporter.Count() == 0
      modifies this`disk, this`history, this`ops, reporter
      ensures Safe() && disk == old(disk).(part := disk.part) && disk.part.Some?
      ensures reporter.Counting()
      ensures ops >= old(ops) && (ok <==> AllWorked(old(ops)))
      ensures ok ==> disk.part == Some(Concat(Reads(chunks))) && reporter.Count() == |disk.part.value|
    {
      hide SafeState, Concat, Reads, Reporter.Valid, Climbs;
      NoMoreReads([]);
      var rest, done := chunks, 0;
      while rest != [] && rest[0] != []
        invariant Safe() && AllWorked(old(ops))
        invariant disk == old(disk).(part := disk.part) && disk.part.Some?
        invariant disk.part.value + Concat(Reads(rest)) == Concat(Reads(chunks))
        invariant reporter.Counting() && reporter.Count() == done == |disk.part.value|
        decreases |rest|
      {
        var chunk := rest[0];
        ok := Try();
        if !ok {
          return;
        }
        FirstRead(rest);
        WritePart(Some(disk.part.value + chunk));
        done := done + |chunk|;
        reporter.Report(done);
        rest := rest[1..];
      }
      NoMoreReads(rest);
      assert disk.part.value + [] == disk.part.value;
      return true;
    }

    /** Closes the stage, and renames the part file into place if it is the whole expected archive. */
    method Accept(total: nat, reporter: Reporter) returns (r: Result<(), Error>, stage: seq<Progress>)
      requires Safe() && !swapping && disk.part.Some?
      requires reporter.Counting() && reporter.stage == Downloading && reporter.total == total
      requires reporter.Count() == |disk.part.value|
      modifies this`disk, this`history, this`ops, reporter
      ensures Safe()
      ensures stage != [] && Throttled(stage, Downloading)
      ensures ops >= old(ops) && (!AllWorked(old(ops)) ==> r == Err(Io))
      ensures AllWorked(old(ops)) ==>
                r == if total != 0 && |old(disk).part.value| != total then Err(Http)
                     else if lib.sha256(old(disk).part.value) != expected then Err(Checksum)
                     else Ok(())
      ensures disk == if r.Ok? then old(disk).(download := old(disk).part, part := None) else old(disk)
    {
      hide CompleteInstall, OldOrLess;
      var done := |disk.part.value|;
      ghost var dones := reporter.reported;
      reporter.Finish(done);
      stage := reporter.events;
      assert ThrottledBy(stage, Downloading, total, dones);
      StageIsNotEmpty(stage, Downloading);
      if total != 0 && done != total {
        return Err(Http), stage;
      }
      if lib.sha256(disk.part.value) != expected {
        return Err(Checksum), stage;
      }
      var ok := Try();
      if !ok {
        return Err(Io), stage;
      }
      Become(disk.(download := disk.part, part := None));
      return Ok(()), stage;
    }

    method Download(server: Server) returns (r: Result<(), Error>, stage: seq<Progress>)
      requires Safe() && !swapping
      modifies this`disk, this`history, this`ops
      ensures Safe()
      ensures stage == [] || Throttled(stage, Downloading)
      ensures r.Ok? ==> stage != [] && server.Serves? && lib.sha256(Body(server)) == expected
      ensures ops >= old(ops) && (!AllWorked(old(ops)) ==> r == Err(Io))
      ensures AllWorked(old(ops)) ==> r == Outcome(DownloadProblem(lib, expected, server))
      ensures r.Ok? ==> disk == old(disk).(part := None, download := Some(Body(server)))
      ensures r.Err? ==> disk == old(disk).(part := disk.part)
      ensures r.Err? && tidies(PartFile) && server.Serves? ==> disk.part.None?
    {
      if server.Refuses? {
        return Err(Http), [];
      }
      hide CompleteInstall, OldOrLess;
      r, stage := FetchBody(server);
      if r.Err? && tidies(PartFile) {
        WritePart(None);
      }
    }

    // ----- unpack and swap

    /** Writes one entry into the staging folder. */
    method UnpackEntry(entry: Entry, reporter: Reporter, start: nat) returns (r: Result<nat, Error>)
      requires Safe() && !swapping && disk.staging.Some?
      requires reporter.Counting()
      requires reporter.Count() == start
      modifies this`disk, this`history, this`ops, reporter
      ensures Safe()
      ensures disk == old(disk).(staging := disk.staging) && disk.staging.Some?
      ensures reporter.Counting()
      ensures ops >= old(ops) && (!AllWorked(old(ops)) ==> r == Err(Io))
      ensures AllWorked(old(ops)) ==>
                r == if EntryProblem(entry).Some? then Err(EntryProblem(entry).value)
                     else Ok(start + if entry.isDir then 0 else |Concat(entry.chunks)|)
      ensures r.Ok? ==>
                && reporter.Count() == r.value
                && Unpackable([entry])
                && disk.staging.value == if entry.isDir then old(disk).staging.value
                                         else old(disk).staging.value[entry.path.value := Concat(entry.chunks)]
    {
      hide SafeState, Concat, Reporter.Valid, Climbs;
      if !entry.opens {
        return Err(Archive);
      }
      if entry.path.None? {
        return Err(UnsafePath);
      }
      var ok := Try();
      if !ok {
        return Err(Io);
      }
      if entry.isDir {
        return Ok(start);
      }
      var path, before_ := entry.path.value, disk.staging.value;
      ok := Try();
      if !ok {
        return Err(Io);
      }
      Stage(before_[path := []]);
      ghost var from := ops;
      var written := WriteData(before_, path, entry.chunks, reporter, start);
      WorkedOn(old(ops), from);
      if !written || entry.corrupt {
        return Err(Io);
      }
      return Ok(start + |disk.staging.value[path]|);
    }

    /** The loop that copies the data of one entry; false if a write fails. */
    method WriteData(tree: Tree, path: string, chunks: seq<Bytes>, reporter: Reporter, start: nat) returns (ok: bool)
      requires Safe() && !swapping && disk.staging == Some(tree[path := []])
      requires reporter.Counting() && reporter.Count() == start
      modifies this`disk, this`history, this`ops, reporter
      ensures Safe()
      ensures disk == old(disk).(staging := disk.staging) && disk.staging.Some?
      ensures reporter.Counting()
      ensures ops >= old(ops) && (ok <==> AllWorked(old(ops)))
      ensures ok ==> disk.staging == Some(tree[path := Concat(chunks)]) && reporter.Count() == start + |Concat(chunks)|
    {
      hide SafeState, Concat, Reporter.Valid, Climbs;
      var done := start;
      NoChunks(chunks);
      for k := 0 to |chunks|
        invariant Safe() && AllWorked(old(ops))
        invariant disk == old(disk).(staging := Some(tree[path := Concat(chunks[..k])]))
        invariant reporter.Counting()
        invariant reporter.Count() == done == start + |Concat(chunks[..k])|
      {
        ok := Try();
        if !ok {
          return;
        }
        ConcatNext(chunks, k);
        Stage(tree[path := Concat(chunks[..k]) + chunks[k]]);
        done := done + |chunks[k]|;
        reporter.Report(done);
      }
      assert chunks[..|chunks|] == chunks;
      return true;
    }

    method UnpackEntries(entries: seq<Entry>, reporter: Reporter) returns (r: Result<nat, Error>)
      requires Safe() && !swapping && disk.staging == Some(map[])
      requires reporter.Counting() && reporter.Count() == 0
      modifies this`disk, this`history, this`ops, reporter
      ensures Safe() && disk == old(disk).(staging := disk.staging)
      ensures reporter.Counting()
      ensures ops >= old(ops) && (!AllWorked(old(ops)) ==> r == Err(Io))
      ensures AllWorked(old(ops)) && FirstProblem(entries).Some? ==> r == Err(FirstProblem(entries).value)
      ensures AllWorked(old(ops)) && FirstProblem(entries).None? ==> r == Ok(DataSize(entries))
      ensures r.Ok? ==>
                && reporter.Count() == r.value
                && Unpackable(entries) && disk.staging == Some(Unpacked(entries))
    {
      hide SafeState, CompleteInstall, Unpacked, Unpackable, Climbs, Reporter.Valid;
      hide FirstProblem, EntryProblem, DataSize;
      var done := 0;
      NothingUnpacked();
      assert entries[..0] == [];
      for i := 0 to |entries|
        invariant Safe() && AllWorked(old(ops))
        invariant Unpackable(entries[..i]) && FirstProblem(entries[..i]).None?
        invariant disk == old(disk).(staging := Some(Unpacked(entries[..i])))
        invariant reporter.Counting()
        invariant reporter.Count() == done == DataSize(entries[..i])
      {
        EntrySnoc(entries, i);
        ghost var from := ops;
        r := UnpackEntry(entries[i], reporter, done);
        WorkedOn(old(ops), from);
        if r.Err? {
          if AllWorked(old(ops)) {
            ProblemStays(entries, i + 1);
          }
          return;
        }
        done := r.value;
        UnpackedSnoc(entries, i);
      }
      assert entries[..|entries|] == entries;
      return Ok(done);
    }

    lemma WorkedOn(from: nat, mid: nat)
      requires from <= mid <= ops && (forall k :: from <= k < mid ==> works(k))
      ensures AllWorked(from) <==> AllWorked(mid)
    {
    }

    /** Unpacks every entry into a new staging folder. */
    method Unpack(archive: Bytes) returns (r: Result<(), Error>, stage: seq<Progress>)
      requires Safe() && !swapping && lib.sha256(archive) == expected
      modifies this`disk, this`history, this`unpackedArchives, this`ops
      ensures Safe() && disk == old(disk).(staging := disk.staging)
      ensures stage == [] || Throttled(stage, Extracting)
      ensures ops >= old(ops) && (!AllWorked(old(ops)) ==> r == Err(Io))
      ensures AllWorked(old(ops)) ==>
                r == if lib.entries(archive).None? then Err(Archive)
                     else Outcome(FirstProblem(lib.entries(archive).value))
      ensures r.Ok? ==>
                && lib.entries(archive).Some? && Unpackable(lib.entries(archive).value)
                && disk.staging == Some(Unpacked(lib.entries(archive).value))
    {
      hide Throttled, SafeState, CompleteInstall, Unpacked, Unpackable, TotalSize, Climbs, FirstProblem, DataSize,
        Reporter.Valid;
      stage := [];
      unpackedArchives := unpackedArchives + [archive];
      if lib.entries(archive).None? {
        return Err(Archive), stage;
      }
      var entries := lib.entries(archive).value;
      var ok := Try();
      if !ok {
        return Err(Io), stage;
      }
      Stage(map[]);
      var reporter := new Reporter(Extracting, TotalSize(entries));
      reporter.Report(0);
      ghost var from := ops;
      var unpacked := UnpackEntries(entries, reporter);
      WorkedOn(old(ops), from);
      StillThrottled(reporter);
      if unpacked.Err? {
        return Err(unpacked.error), reporter.events;
      }
      StageIsThrottled(reporter);
      reporter.Finish(unpacked.value);
      return Ok(()), reporter.events;
    }

    /** Replaces the install folder by the complete staging folder. */
    method Swap(archive: Bytes) returns (r: Result<(), Error>)
      requires Safe() && !swapping && disk.install == before.install
      requires disk.download == Some(archive)
      requires disk.staging.Some? && CompleteInstall(lib, expected, exe, disk.staging.value, archive)
      modifies this`disk, this`history, this`swapping, this`ops
      ensures Safe() && swapping
      ensures disk.download == old(disk).download && disk.part == old(disk).part
      ensures r.Ok? ==> disk.staging.None? && disk.install == old(disk).staging
      ensures ops >= old(ops) && r == if AllWorked(old(ops)) then Ok(()) else Err(Io)
    {
      swapping := true;
      if disk.install.Some? {
        var removed := RemoveInstall(archive);
        if !removed {
          return Err(Io);
        }
      }
      var ok := Try();
      if !ok {
        return Err(Io);
      }
      Become(disk.(install := disk.staging, staging := None));
      return Ok(());
    }

    method UnpackAndSwap(archive: Bytes) returns (r: Result<(), Error>, stage: seq<Progress>)
      requires Safe() && !swapping && disk.install == before.install
      requires disk.download == Some(archive) && lib.sha256(archive) == expected
      modifies this`disk, this`history, this`unpackedArchives, this`swapping, this`ops
      ensures Safe()
      ensures stage == [] || Throttled(stage, Extracting)
      ensures disk.download == old(disk).download && disk.part == old(disk).part
      ensures ops >= old(ops) && (!AllWorked(old(ops)) ==> r == Err(Io))
      ensures AllWorked(old(ops)) ==> r == Outcome(ArchiveProblem(lib, exe, archive))
      ensures r.Ok? ==>
                && disk.staging.None? && disk.install.Some?
                && CompleteInstall(lib, expected, exe, disk.install.value, archive)
      ensures r.Err? && r.error != Io ==> !swapping
    {
      hide Throttled, SafeState, Unpacked, Unpackable, FirstProblem;
      stage := [];
      var ok := Try();
      if !ok {
        return Err(Io), stage;
      }
      ghost var from := ops;
      r, stage := Unpack(archive);
      WorkedOn(old(ops), from);
      if r.Err? {
        return;
      }
      if exe !in disk.staging.value {
        return Err(MissingExecutable), stage;
      }
      from := ops;
      r := Swap(archive);
      if r.Ok? {
        WorkedOn(old(ops), from);
      }
    }

    method Extract(archive: Bytes) returns (r: Result<(), Error>, stage: seq<Progress>)
      requires Safe() && !swapping && disk.install == before.install
      requires disk.download == Some(archive) && lib.sha256(archive) == expected
      modifies this`disk, this`history, this`unpackedArchives, this`swapping, this`cleaning, this`ops
      ensures Safe()
      ensures stage == [] || Throttled(stage, Extracting)
      ensures disk.download == old(disk).download && disk.part == old(disk).part
      ensures ops >= old(ops) && (!AllWorked(old(ops)) ==> r == Err(Io))
      ensures AllWorked(old(ops)) ==> r == Outcome(ArchiveProblem(lib, exe, archive))
      ensures r.Ok? ==>
                && !cleaning && disk.staging.None? && disk.install.Some?
                && CompleteInstall(lib, expected, exe, disk.install.value, archive)
      ensures r.Err? && AllWorked(old(ops)) && tidies(StagingFolder) ==> disk.staging.None?
      ensures r.Err? && r.error != Io ==> !swapping
      ensures !swapping ==> disk.install == before.install
      ensures cleaning ==> swapping && r == Err(Io)
    {
      hide Throttled, CompleteInstall, ArchiveProblem;
      if disk.staging.Some? {
        var cleared := RemoveStaging();
        if !cleared {
          return Err(Io), [];
        }
      }
      ghost var from := ops;
      r, stage := UnpackAndSwap(archive);
      WorkedOn(old(ops), from);
      if r.Err? {
        StartCleaning();
        ClearStaging();
      }
    }

    ghost method StartCleaning()
      requires Safe() && !cleaning
      modifies this`cleaning
      ensures Safe() && cleaning == swapping
    {
      cleaning := swapping;
    }

    // ----- the install

    /** Verifies an archive already on disk, and downloads one unless it is the expected one. */
    method ObtainArchive(server: Server) returns (r: Result<(), Error>, verify: seq<Progress>, download: seq<Progress>)
      requires Safe() && !swapping
      modifies this`disk, this`history, this`ops
      ensures Safe()
      ensures ops >= old(ops) && (!AllWorked(old(ops)) ==> r == Err(Io))
      ensures AllWorked(old(ops)) ==>
                r == if Reusable(lib, expected, old(disk)) then Ok(())
                     else Outcome(DownloadProblem(lib, expected, server))
      ensures r.Ok? ==>
                && (Reusable(lib, expected, old(disk)) || server.Serves?)
                && disk == (if Reusable(lib, expected, old(disk)) then old(disk)
                            else old(disk).(part := None, download := Some(Body(server))))
                && lib.sha256(disk.download.value) == expected
      ensures r.Err? ==> disk == old(disk).(part := disk.part)
      ensures verify == if old(disk).download.Some? then [Progress(Verifying, 0, 0)] else []
      ensures download == [] || Throttled(download, Downloading)
      ensures Reusable(lib, expected, old(disk)) ==> download == []
      ensures r.Ok? && !Reusable(lib, expected, old(disk)) ==> download != []
    {
      hide SafeState, DownloadProblem;
      verify, download := [], [];
      // creating the folder for the archive, or reading the archive that is there
      if disk.download.None? {
        var ok := Try();
        if !ok {
          return Err(Io), verify, download;
        }
      } else {
        verify := [Progress(Verifying, 0, 0)];
        var ok := Try();
        if !ok {
          return Err(Io), verify, download;
        }
        if lib.sha256(disk.download.value) == expected {
          return Ok(()), verify, download;
        }
      }
      ghost var from := ops;
      r, download := Download(server);
      WorkedOn(old(ops), from);
    }

    /** Whatever the archive, the old install and the operations that fail: every state the disk passes through has a
        safe install folder and a trustworthy download, only an archive with the expected hash is unpacked, and
        until the swap begins the old install is untouched. A failing operation ends the install with an I/O error;
        if none fails, it succeeds or fails by what the server delivers and what is in the archive. */
    method InstallZip(server: Server) returns (r: Result<(), Error>, ghost archive: Bytes)
      requires Started()
      modifies this
      ensures before == old(disk) && Safe()
      ensures ops >= old(ops) && (!AllWorked(old(ops)) ==> r == Err(Io))
      ensures r.Ok? <==> AllWorked(old(ops)) && Installs(lib, expected, exe, old(disk), server)
      ensures AllWorked(old(ops)) ==>
                r == Outcome(InstallProblem(lib, expected, exe, old(disk), server))
      ensures r.Ok? ==>
                && !cleaning && disk.staging.None? && disk.install.Some?
                && CompleteInstall(lib, expected, exe, disk.install.value, archive)
                && disk.download == (if tidies(ArchiveFile) then None else Some(archive))
                && (Reusable(lib, expected, old(disk)) ==> Some(archive) == old(disk).download)
                && (!Reusable(lib, expected, old(disk)) ==> server.Serves? && archive == Body(server))
      ensures r.Err? && r.error != Io ==> !swapping
      ensures !swapping ==> disk.install == old(disk).install
      ensures cleaning ==> r == Err(Io)
      ensures EventsFit(lib, expected, old(disk), events)
      ensures r.Ok? ==> (NeverDrops(events) <==> !StaleArchive(lib, expected, old(disk)))
    {
      assert Safe() && before == disk && !swapping && !cleaning;
      hide *;
      var verify, download, unpack;
      r, archive, verify, download, unpack := ObtainAndExtract(server);
      DropsOnlyWhenStale(lib, expected, before, verify, download, unpack, r.Ok?);
      InstallProblemIs(lib, expected, exe, before, server);
      OutcomeIsOk(InstallProblem(lib, expected, exe, before, server));
      events := verify + download + unpack;
    }

    method ObtainAndExtract(server: Server)
      returns (r: Result<(), Error>, ghost archive: Bytes, verify: seq<Progress>, download: seq<Progress>,
        unpack: seq<Progress>)
      requires Safe() && disk == before && !swapping && !cleaning
      modifies this`disk, this`history, this`unpackedArchives, this`swapping, this`cleaning, this`ops
      ensures Safe()
      ensures ops >= old(ops) && (!AllWorked(old(ops)) ==> r == Err(Io))
      ensures AllWorked(old(ops)) ==>
                r == Outcome(InstallProblem(lib, expected, exe, old(disk), server))
      ensures r.Ok? ==>
                && !cleaning && disk.staging.None? && disk.install.Some?
                && CompleteInstall(lib, expected, exe, disk.install.value, archive)
                && disk.download == (if tidies(ArchiveFile) then None else Some(archive))
                && (Reusable(lib, expected, old(disk)) ==> Some(archive) == old(disk).download)
                && (!Reusable(lib, expected, old(disk)) ==> server.Serves? && archive == Body(server))
      ensures r.Err? && r.error != Io ==> !swapping
      ensures !swapping ==> disk.install == old(disk).install
      ensures cleaning ==> r == Err(Io)
      ensures verify == if old(disk).download.Some? then [Progress(Verifying, 0, 0)] else []
      ensures download == [] || Throttled(download, Downloading)
      ensures unpack == [] || Throttled(unpack, Extracting)
      ensures Reusable(lib, expected, old(disk)) ==> download == []
      ensures r.Ok? && !Reusable(lib, expected, old(disk)) ==> download != []
    {
      hide SafeState, DownloadProblem, ArchiveProblem, Throttled, CompleteInstall;
      archive, unpack := [], [];
      r, verify, download := ObtainArchive(server);
      if r.Ok? {
        archive := disk.download.value;
        ghost var from := ops;
        r, unpack := Extract(disk.download.value);
        WorkedOn(old(ops), from);
        if r.Ok? {
          DropArchive(archive);
        }
      }
    }
  }

  function Outcome(problem: Option<Error>): Result<(), Error> {
    if problem.Some? then Err(problem.value) else Ok(())
  }

  lemma OutcomeIsOk(problem: Option<Error>)
    ensures Outcome(problem).Ok? <==> problem.None?
  {
  }

  /** Why an install does not succeed although no operation fails. */
  function InstallProblem(lib: Library, expected: string, exe: string, disk: Disk, server: Server): Option<Error> {
    if Reusable(lib, expected, disk) then ArchiveProblem(lib, exe, disk.download.value)
    else if DownloadProblem(lib, expected, server).Some? then DownloadProblem(lib, expected, server)
    else if server.Serves? then ArchiveProblem(lib, exe, Body(server))
    else None
  }

  // ----- when an install succeeds, and why it does not

  /** The archive that is there or arrives whole. */
  predicate Obtains(lib: Library, expected: string, disk: Disk, server: Server, archive: Bytes) {
    && lib.sha256(archive) == expected
    && if disk.download.Some? && lib.sha256(disk.download.value) == expected then archive == disk.download.value
       else
         && server.Serves? && archive == Body(server)
         && !(server.breaks && [] !in server.chunks)
         && (server.total == 0 || |archive| == server.total)
  }

  /** The entries before number i are in order. */
  predicate GoodBefore(entries: seq<Entry>, i: nat)
    requires i <= |entries|
  {
    forall k :: 0 <= k < i ==> entries[k].opens && entries[k].path.Some? && (entries[k].isDir || !entries[k].corrupt)
  }

  predicate IsUnsafe(e: Entry) { e.opens && e.path.None? }
  predicate IsCorrupt(e: Entry) { e.opens && e.path.Some? && !e.isDir && e.corrupt }

  /** The first entry that is not in order decides: it cannot be opened, leads outside, or its data is broken. */
  lemma {:induction false} FirstProblemIs(entries: seq<Entry>) returns (i: nat)
    ensures i <= |entries| && GoodBefore(entries, i)
    ensures FirstProblem(entries).None? <==> i == |entries|
    ensures i < |entries| ==>
              && (!entries[i].opens || IsUnsafe(entries[i]) || IsCorrupt(entries[i]))
              && (FirstProblem(entries) == Some(Archive) <==> !entries[i].opens)
              && (FirstProblem(entries) == Some(UnsafePath) <==> IsUnsafe(entries[i]))
              && (FirstProblem(entries) == Some(Io) <==> IsCorrupt(entries[i]))
  {
    if entries == [] {
      i := 0;
    } else {
      var n := |entries| - 1;
      i := FirstProblemIs(entries[..n]);
      if i == n && EntryProblem(entries[n]).None? {
        i := |entries|;
      }
    }
  }

  /** What the shell does with one request. `present` says that a usable renderer was found anywhere, `configured`
      that the manifest names an archive with a well-formed hash and a permitted address. */
  method InstallBlender(installer: Installer, present: bool, configured: bool, server: Server)
    returns (shown: seq<nat>, installed: bool)
    requires installer.Started()
    modifies installer
    ensures installer.before == old(installer.disk)
    ensures present || !configured ==> installer.disk == old(installer.disk)
    ensures installed ==> present || (installer.disk.install.Some? && installer.exe in installer.disk.install.value)
    ensures installed <==>
              || present
              || (&& configured && installer.AllWorked(old(installer.ops))
                  && Installs(installer.lib, installer.expected, installer.exe, old(installer.disk), server))
    ensures |shown| >= 2 && shown[0] == 0 && shown[|shown| - 1] == if installed then 100 else 0
    ensures forall p <- shown :: p <= 100
    ensures installed ==>
              (Climbs(shown) <==> present || !StaleArchive(installer.lib, installer.expected, old(installer.disk)))
  {
    if present || !configured {
      ShownClimbs([], present);
      return Shown([], present), present;
    }
    var r, archive := installer.InstallZip(server);
    ShownClimbs(installer.events, r.Ok?);
    return Shown(installer.events, r.Ok?), r.Ok?;
  }

  /** The archive on disk needs no download. */
  predicate Reusable(lib: Library, expected: string, disk: Disk) {
    disk.download.Some? && lib.sha256(disk.download.value) == expected
  }

  /** There is an archive on disk, but not the expected one. */
  predicate StaleArchive(lib: Library, expected: string, disk: Disk) {
    disk.download.Some? && lib.sha256(disk.download.value) != expected
  }

  /** Succeeds: the expected archive is there or arrives, every entry is in order, and the executable is among them. */
  ghost predicate Installs(lib: Library, expected: string, exe: string, disk: Disk, server: Server) {
    exists archive ::
      && Obtains(lib, expected, disk, server, archive) && lib.entries(archive).Some?
      && Unpackable(lib.entries(archive).value) && exe in Unpacked(lib.entries(archive).value)
  }

  /** Each outcome of an install in which no operation fails, by what causes it. */
  lemma InstallProblemIs(lib: Library, expected: string, exe: string, disk: Disk, server: Server)
    ensures var problem := InstallProblem(lib, expected, exe, disk, server);
            var fetches := !(disk.download.Some? && lib.sha256(disk.download.value) == expected);
            var arrives := server.Serves? && !(server.breaks && [] !in server.chunks);
            && (problem.None? <==> Installs(lib, expected, exe, disk, server))
            && (problem == Some(Http) <==>
                  fetches && (server.Refuses? || (arrives && server.total != 0 && |Body(server)| != server.total)))
            && (problem == Some(Checksum) <==>
                  && fetches && arrives && (server.total == 0 || |Body(server)| == server.total)
                  && lib.sha256(Body(server)) != expected)
            && (problem == Some(MissingExecutable) <==>
                  exists archive ::
                    && Obtains(lib, expected, disk, server, archive) && lib.entries(archive).Some?
                    && Unpackable(lib.entries(archive).value) && exe !in Unpacked(lib.entries(archive).value))
            && (problem == Some(Archive) <==>
                  exists archive ::
                    && Obtains(lib, expected, disk, server, archive)
                    && (lib.entries(archive).None? || FirstProblem(lib.entries(archive).value) == Some(Archive)))
            && (problem == Some(UnsafePath) <==>
                  exists archive ::
                    && Obtains(lib, expected, disk, server, archive) && lib.entries(archive).Some?
                    && FirstProblem(lib.entries(archive).value) == Some(UnsafePath))
            && (problem == Some(Io) <==>
                  || (fetches && server.Serves? && !arrives)
                  || (exists archive ::
                        && Obtains(lib, expected, disk, server, archive) && lib.entries(archive).Some?
                        && FirstProblem(lib.entries(archive).value) == Some(Io)))
  {
    var reusable := disk.download.Some? && lib.sha256(disk.download.value) == expected;
    hide Reads, FirstProblem, Unpackable, Unpacked, EntryProblem, Concat;
    if reusable || (server.Serves? && DownloadProblem(lib, expected, server).None?) {
      var archive := if reusable then disk.download.value else Body(server);
      assert forall other :: Obtains(lib, expected, disk, server, other) <==> other == archive;
      if lib.entries(archive).Some? {
        ProblemKinds(lib.entries(archive).value);
      }
    } else {
      assert forall other :: !Obtains(lib, expected, disk, server, other);
    }
  }

  lemma {:induction false} ProblemKinds(entries: seq<Entry>)
    ensures FirstProblem(entries).None? <==> Unpackable(entries)
    ensures FirstProblem(entries).Some? ==> FirstProblem(entries).value in {Archive, UnsafePath, Io}
  {
    if entries != [] {
      var n := |entries| - 1;
      ProblemKinds(entries[..n]);
      assert forall e :: e in entries <==> e in entries[..n] || e == entries[n];
    }
  }

  /** A body is what is read before the first empty read. */
  lemma {:induction false} BodyEndsAtEmptyRead(server: Server) returns (n: nat)
    requires server.Serves?
    ensures n <= |server.chunks| && [] !in server.chunks[..n] && (n == |server.chunks| || server.chunks[n] == [])
    ensures Body(server) == Concat(server.chunks[..n])
  {
    n := ReadsUpTo(server.chunks);
  }

  lemma {:induction false} ReadsUpTo(chunks: seq<Bytes>) returns (n: nat)
    ensures n <= |chunks| && [] !in chunks[..n] && (n == |chunks| || chunks[n] == [])
    ensures Reads(chunks) == chunks[..n]
  {
    if chunks == [] || chunks[0] == [] {
      n := 0;
    } else {
      n := ReadsUpTo(chunks[1..]);
      n := n + 1;
      assert chunks[..n] == [chunks[0]] + chunks[1..][..n - 1];
    }
  }

  lemma FirstRead(chunks: seq<Bytes>)
    requires chunks != [] && chunks[0] != []
    ensures Concat(Reads(chunks)) == chunks[0] + Concat(Reads(chunks[1..]))
  {
  }

  lemma BodyIs(server: Server)
    requires server.Serves?
    ensures Body(server) == Concat(Reads(server.chunks))
  {
  }

  lemma NoMoreReads(chunks: seq<Bytes>)
    ensures chunks == [] || chunks[0] == [] ==> Concat(Reads(chunks)) == []
  {
  }

  lemma NoChunks(chunks: seq<Bytes>)
    ensures Concat(chunks[..0]) == []
  {
  }

  lemma BrokenBody(lib: Library, expected: string, server: Server)
    requires server.Serves? && BreaksOff(server)
    ensures Outcome(DownloadProblem(lib, expected, server)) == Err(Io)
  {
  }

  lemma WholeBody(lib: Library, expected: string, server: Server)
    requires server.Serves? && !BreaksOff(server)
    ensures Outcome(DownloadProblem(lib, expected, server)) ==
            if server.total != 0 && |Body(server)| != server.total then Err(Http)
            else if lib.sha256(Body(server)) != expected then Err(Checksum)
            else Ok(())
  {
  }

  function DataSize(entries: seq<Entry>): nat {
    if entries == [] then 0
    else
      var e := entries[|entries| - 1];
      DataSize(entries[..|entries| - 1]) + if e.isDir then 0 else |Concat(e.chunks)|
  }

  lemma EntrySnoc(entries: seq<Entry>, i: nat)
    requires i < |entries|
    ensures FirstProblem(entries[..i]).None? ==> FirstProblem(entries[..i + 1]) == EntryProblem(entries[i])
    ensures DataSize(entries[..i + 1]) ==
            DataSize(entries[..i]) + if entries[i].isDir then 0 else |Concat(entries[i].chunks)|
  {
    assert entries[..i + 1][..i] == entries[..i];
  }

  lemma {:induction false} ProblemStays(entries: seq<Entry>, i: nat)
    requires i <= |entries| && FirstProblem(entries[..i]).Some?
    ensures FirstProblem(entries) == FirstProblem(entries[..i])
    decreases |entries|
  {
    if i == |entries| {
      assert entries[..i] == entries;
    } else {
      var n := |entries| - 1;
      assert entries[..n][..i] == entries[..i];
      ProblemStays(entries[..n], i);
    }
  }

  /** If the declared sizes are those of the data, the last event of the unpacking stage reports all of its total. */
  lemma {:induction false} HonestSizesAddUp(entries: seq<Entry>)
    requires forall e <- entries :: e.size == if e.isDir then 0 else |Concat(e.chunks)|
    ensures TotalSize(entries) == DataSize(entries)
  {
    if entries != [] {
      HonestSizesAddUp(entries[..|entries| - 1]);
      assert entries[|entries| - 1] in entries;
    }
  }

  /** A file of the unpacked tree is the data of the last entry with its path. */
  lemma {:induction false} UnpackedHolds(entries: seq<Entry>, i: nat)
    requires Unpackable(entries) && i < |entries| && !entries[i].isDir
    requires forall k :: i < k < |entries| && !entries[k].isDir ==> entries[k].path != entries[i].path
    ensures var path := entries[i].path.value;
            path in Unpacked(entries) && Unpacked(entries)[path] == Concat(entries[i].chunks)
    decreases |entries|
  {
    var n := |entries| - 1;
    if i < n {
      UnpackedHolds(entries[..n], i);
    }
  }

  /** Every file of the unpacked tree comes from an entry. */
  lemma {:induction false} UnpackedComesFrom(entries: seq<Entry>, path: string) returns (i: nat)
    requires Unpackable(entries) && path in Unpacked(entries)
    ensures i < |entries| && !entries[i].isDir && entries[i].path == Some(path)
    ensures forall k :: i < k < |entries| && !entries[k].isDir ==> entries[k].path != entries[i].path
  {
    var n := |entries| - 1;
    if !entries[n].isDir && entries[n].path.value == path {
      i := n;
    } else {
      i := UnpackedComesFrom(entries[..n], path);
    }
  }

  lemma NothingUnpacked()
    ensures Unpackable([]) && Unpacked([]) == map[] && FirstProblem([]).None? && DataSize([]) == 0
  {
  }

  lemma UnpackedSnoc(entries: seq<Entry>, i: nat)
    requires i < |entries| && Unpackable(entries[..i])
    ensures Unpackable([entries[i]]) ==> Unpackable(entries[..i + 1])
    ensures Unpackable([entries[i]]) ==>
              var e := entries[i];
              Unpacked(entries[..i + 1]) ==
              if e.isDir then Unpacked(entries[..i]) else Unpacked(entries[..i])[e.path.value := Concat(e.chunks)]
  {
    assert entries[i] in [entries[i]];
    assert entries[..i + 1] == entries[..i] + [entries[i]];
    assert entries[..i + 1][..i] == entries[..i];
  }

  lemma StageIsThrottled(reporter: Reporter)
    requires reporter.Counting()
    ensures var done := reporter.Count();
            Throttled(EventsOf(reporter.stage, reporter.total,
              Closed(Reported(reporter.step, reporter.reported), done)), reporter.stage)
  {
    var done := reporter.Count();
    assert ThrottledBy(EventsOf(reporter.stage, reporter.total,
      Closed(Reported(reporter.step, reporter.reported), done)),
                       reporter.stage, reporter.total, reporter.reported);
  }

  /** The events of an install: at most one verification, then a download and an unpacking stage, each throttled. The
      percentage drops only when an archive on disk turned out stale and had to be downloaded again. */
  ghost predicate EventsFit(lib: Library, expected: string, before: Disk, events: seq<Progress>) {
    exists verify, download, unpack ::
      EventsAre(lib, expected, before, events, verify, download, unpack)
  }

  ghost predicate EventsAre(lib: Library, expected: string, before: Disk, events: seq<Progress>,
                            verify: seq<Progress>, download: seq<Progress>, unpack: seq<Progress>) {
    && events == verify + download + unpack
    && (verify == if before.download.Some? then [Progress(Verifying, 0, 0)] else [])
    && (download == [] || Throttled(download, Downloading))
    && (unpack == [] || Throttled(unpack, Extracting))
    && (Reusable(lib, expected, before) ==> download == [])
    && (NeverDrops(events) <==> !StaleCheck(verify, download))
  }

  lemma StillThrottled(reporter: Reporter)
    requires reporter.Counting()
    ensures Throttled(reporter.events, reporter.stage)
  {
    assert ThrottledBy(reporter.events, reporter.stage, reporter.total, reporter.reported);
  }

  lemma StageIsNotEmpty(events: seq<Progress>, stage: Stage)
    requires Throttled(events, stage)
    ensures events != []
  {
    ThrottledClimbs(events, stage);
  }

  lemma DropsOnlyWhenStale(lib: Library, expected: string, before: Disk,
                           verify: seq<Progress>, download: seq<Progress>, unpack: seq<Progress>, ok: bool)
    requires verify == if before.download.Some? then [Progress(Verifying, 0, 0)] else []
    requires download == [] || Throttled(download, Downloading)
    requires unpack == [] || Throttled(unpack, Extracting)
    requires Reusable(lib, expected, before) ==> download == []
    requires ok && !Reusable(lib, expected, before) ==> download != []
    ensures EventsFit(lib, expected, before, verify + download + unpack)
    ensures ok ==> (NeverDrops(verify + download + unpack) <==> !StaleArchive(lib, expected, before))
  {
    if download != [] { ThrottledClimbs(download, Downloading); }
    if unpack != [] { ThrottledClimbs(unpack, Extracting); }
    InstallNeverDrops(verify, download, unpack);
    assert EventsAre(lib, expected, before, verify + download + unpack, verify, download, unpack);
  }

  /** A successful install that finds no archive on disk is shown as climbing from 0 to 100. */
  lemma FreshInstallNeverDrops(lib: Library, expected: string, before: Disk, events: seq<Progress>)
    requires EventsFit(lib, expected, before, events) && before.download.None?
    ensures Climbs(Shown(events, true)) && Shown(events, true)[0] == 0 && Shown(events, true)[|events| + 1] == 100
  {
    ShownClimbs(events, true);
  }
}
