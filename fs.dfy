/** The directory side of the uploader (internal/fs/fs.go): the event filter,
    the watch and scan producers, the names of the compressed and encrypted
    artifacts, the two transforms, and the cleanup of a delivered file. */
module Fs {
  import opened Types
  import opened Paths
  import opened Disk
  import Queue
  import Metrics

  // ---------------------------------------------------------------------------
  // Filesystem events

  /** fsnotify's operation bitmask. */
  type Op = bv32

  const Create: Op := 1
  const Write: Op := 2
  const Remove: Op := 4
  const Rename: Op := 8
  const Chmod: Op := 16

  datatype Flag = CreateFlag | WriteFlag | RemoveFlag | RenameFlag | ChmodFlag

  /** The named operations whose bits are set in `op`. */
  function Flags(op: Op): set<Flag> {
    (if op & Create != 0 then {CreateFlag} else {})
    + (if op & Write != 0 then {WriteFlag} else {})
    + (if op & Remove != 0 then {RemoveFlag} else {})
    + (if op & Rename != 0 then {RenameFlag} else {})
    + (if op & Chmod != 0 then {ChmodFlag} else {})
  }

  datatype Event = Event(name: string, op: Op)

  /** Only creations are of interest: files are moved into the watched directory. */
  function IsValidFsEvent(e: Event): (r: bool)
    ensures r <==> CreateFlag in Flags(e.op)
  {
    e.op & Create == Create
  }

  /** Bits other than Create never change the filter's verdict. */
  lemma FilterIgnoresOtherBits(name: string, op: Op, other: Op)
    requires other & Create == 0
    ensures IsValidFsEvent(Event(name, op | other)) == IsValidFsEvent(Event(name, op))
    ensures IsValidFsEvent(Event(name, op | Create))
    ensures !IsValidFsEvent(Event(name, other))
  {
  }

  // ---------------------------------------------------------------------------
  // Watch mode

  /** What one turn of fsWatch's select receives. */
  datatype WatchInput = Cancelled | Notified(event: Event) | WatchFailed(reason: string)

  /** One event branch: a valid event is offered to the channel, any other is ignored. */
  function WatchStep(s: Queue.QueueState, capacity: nat, e: Event): Queue.QueueState {
    if IsValidFsEvent(e) then Queue.Offer(s, capacity, Message(e.name)) else s
  }

  /** The channel and counter after fsWatch has consumed `inputs`; it stops at cancellation. */
  function Watch(s: Queue.QueueState, capacity: nat, inputs: seq<WatchInput>): Queue.QueueState
    decreases |inputs|
  {
    if inputs == [] then s
    else match inputs[0]
      case Cancelled => s
      case Notified(e) => Watch(WatchStep(s, capacity, e), capacity, inputs[1..])
      case WatchFailed(_) => Watch(s, capacity, inputs[1..])
  }

  /** The files detected before cancellation: the names of the valid events, in order. */
  function Detected(inputs: seq<WatchInput>): seq<Message>
    decreases |inputs|
  {
    if inputs == [] then []
    else match inputs[0]
      case Cancelled => []
      case Notified(e) =>
        (if IsValidFsEvent(e) then [Message(e.name)] else []) + Detected(inputs[1..])
      case WatchFailed(_) => Detected(inputs[1..])
  }

  /** The watcher offers exactly the detected files, in order: filtered-out
      events, errors and everything after cancellation touch neither the
      channel nor the full-channel counter. */
  lemma {:induction false} WatchOffersDetected(s: Queue.QueueState, capacity: nat, inputs: seq<WatchInput>)
    ensures Watch(s, capacity, inputs) == Queue.OfferAll(s, capacity, Detected(inputs))
    decreases |inputs|
  {
    if inputs != [] {
      match inputs[0]
      case Cancelled =>
      case Notified(e) =>
        WatchOffersDetected(WatchStep(s, capacity, e), capacity, inputs[1..]);
        var ms := Detected(inputs);
        if IsValidFsEvent(e) {
          assert ms == [Message(e.name)] + Detected(inputs[1..]);
          assert ms[0] == Message(e.name) && ms[1..] == Detected(inputs[1..]);
          assert Queue.OfferAll(s, capacity, ms)
              == Queue.OfferAll(Queue.Offer(s, capacity, Message(e.name)), capacity, Detected(inputs[1..]));
        } else {
          assert ms == Detected(inputs[1..]);
        }
      case WatchFailed(_) =>
        WatchOffersDetected(s, capacity, inputs[1..]);
    }
  }

  /** With nothing received meanwhile, the channel gains the first detected
      files that fit and the counter grows by the number of the others. */
  lemma WatchKeepsFirstThatFit(s: Queue.QueueState, capacity: nat, inputs: seq<WatchInput>)
    requires |s.queue| <= capacity
    ensures var ms := Detected(inputs);
            var k := Queue.Min(|ms|, capacity - |s.queue|);
            Watch(s, capacity, inputs) == Queue.QueueState(s.queue + ms[..k], s.fullEvents + |ms| - k)
  {
    WatchOffersDetected(s, capacity, inputs);
    Queue.OfferAllAcceptsPrefix(s, capacity, Detected(inputs));
  }

  /** Three files moved into the watched directory while nothing is received,
      with room for two: the first two are queued, the third is dropped and
      counted once. */
  lemma SaturationExample(a: string, b: string, c: string)
    ensures Watch(Queue.QueueState([], 0), 2,
                  [Notified(Event(a, Create)), Notified(Event(b, Create)), Notified(Event(c, Create))])
         == Queue.QueueState([Message(a), Message(b)], 1)
  {
    var inputs := [Notified(Event(a, Create)), Notified(Event(b, Create)), Notified(Event(c, Create))];
    assert Detected(inputs[2..]) == [Message(c)];
    assert Detected(inputs[1..]) == [Message(b), Message(c)];
    assert Detected(inputs) == [Message(a), Message(b), Message(c)];
    WatchKeepsFirstThatFit(Queue.QueueState([], 0), 2, inputs);
  }

  /** fsWatch (internal/fs/fs.go:34-59) over a finite run of select outcomes. */
  method FsWatch(comm: Queue.Channel, metrics: Metrics.AppMetrics, config: AppConfig, inputs: seq<WatchInput>)
    requires comm.Valid() && !comm.closed && config.workersChannelSize <= comm.capacity
    modifies comm, metrics
    ensures comm.Valid() && !comm.closed
    ensures Queue.QueueState(comm.buffer, metrics.channelFullEvents)
         == Watch(Queue.QueueState(old(comm.buffer), old(metrics.channelFullEvents)), config.workersChannelSize, inputs)
    ensures metrics.fileSendCount == old(metrics.fileSendCount)
    ensures metrics.fileSendErrors == old(metrics.fileSendErrors)
    ensures metrics.fileSendSuccess == old(metrics.fileSendSuccess)
  {
    ghost var start := Queue.QueueState(comm.buffer, metrics.channelFullEvents);
    var i := 0;
    while i < |inputs|
      invariant 0 <= i <= |inputs|
      invariant comm.Valid() && !comm.closed
      invariant Watch(Queue.QueueState(comm.buffer, metrics.channelFullEvents), config.workersChannelSize, inputs[i..])
             == Watch(start, config.workersChannelSize, inputs)
      invariant metrics.fileSendCount == old(metrics.fileSendCount)
      invariant metrics.fileSendErrors == old(metrics.fileSendErrors)
      invariant metrics.fileSendSuccess == old(metrics.fileSendSuccess)
    {
      match inputs[i] {
        case Cancelled =>
          return;
        case Notified(event) =>
          if IsValidFsEvent(event) {
            if comm.Len() < config.workersChannelSize {
              comm.Send(Message(event.name));
            } else {
              metrics.channelFullEvents := metrics.channelFullEvents + 1;
            }
          }
        case WatchFailed(_) =>
      }
      assert inputs[i..][1..] == inputs[i + 1..];
      i := i + 1;
    }
  }

  // ---------------------------------------------------------------------------
  // Scan mode

  /** The messages fsScan sends for the entries of `dir`, in listing order. */
  function ScanMessages(dir: string, names: seq<string>): seq<Message> {
    seq(|names|, i requires 0 <= i < |names| => Message(Join(dir, names[i])))
  }

  /** Each scanned message names its directory entry: the entry is the last
      segment of the message's path, one message per entry and in order. */
  lemma ScanMessagesNameEntries(dir: string, names: seq<string>)
    requires forall i :: 0 <= i < |names| ==> '/' !in names[i]
    ensures |ScanMessages(dir, names)| == |names|
    ensures forall i :: 0 <= i < |names| ==> Base(ScanMessages(dir, names)[i].file) == names[i]
  {
    forall i | 0 <= i < |names|
      ensures Base(ScanMessages(dir, names)[i].file) == names[i]
    {
      BaseOfJoin(dir, names[i]);
    }
  }

  /** fsScan (internal/fs/fs.go:61-71) after a successful directory listing.
      Its send does not look at the channel's length, so it would block on a
      full channel: the entries must fit. */
  method FsScan(comm: Queue.Channel, config: AppConfig, entries: seq<string>)
    requires comm.Valid() && !comm.closed && |comm.buffer| + |entries| <= comm.capacity
    modifies comm
    ensures comm.Valid() && !comm.closed
    ensures comm.buffer == old(comm.buffer) + ScanMessages(config.pathToWatch, entries)
  {
    for i := 0 to |entries|
      invariant comm.Valid() && !comm.closed
      invariant comm.buffer == old(comm.buffer) + ScanMessages(config.pathToWatch, entries[..i])
    {
      comm.Send(Message(Join(config.pathToWatch, entries[i])));
      assert ScanMessages(config.pathToWatch, entries[..i + 1])
          == ScanMessages(config.pathToWatch, entries[..i]) + [Message(Join(config.pathToWatch, entries[i]))];
    }
    assert entries[..|entries|] == entries;
  }

  // ---------------------------------------------------------------------------
  // Artifact names

  /** The archive GzipFile writes. */
  function GzipTarget(config: AppConfig, filename: string): string {
    Join(config.gzipDir, Base(filename) + ".tgz")
  }

  /** The file EncryptFile encrypts: the archive when compression is on. */
  function EncryptSource(config: AppConfig, filename: string): string {
    if config.gzip then GzipTarget(config, filename) else filename
  }

  /** The file EncryptFile writes (it keeps the ".tgz" suffix). */
  function EncryptTarget(config: AppConfig, filename: string): string {
    Join(config.encryptDir, Base(filename) + ".tgz")
  }

  /** Both artifacts are named after the original's last segment plus ".tgz". */
  lemma ArtifactBase(config: AppConfig, filename: string)
    ensures Base(GzipTarget(config, filename)) == Base(filename) + ".tgz"
    ensures Base(EncryptTarget(config, filename)) == Base(filename) + ".tgz"
  {
    assert '/' !in Base(filename) + ".tgz";
    BaseOfJoin(config.gzipDir, Base(filename) + ".tgz");
    BaseOfJoin(config.encryptDir, Base(filename) + ".tgz");
  }

  /** No artifact overwrites the original, and the two artifacts are distinct
      exactly when their directories are. */
  lemma ArtifactsDistinct(config: AppConfig, filename: string)
    ensures GzipTarget(config, filename) != filename
    ensures EncryptTarget(config, filename) != filename
    ensures GzipTarget(config, filename) == EncryptTarget(config, filename) <==> config.gzipDir == config.encryptDir
  {
    ArtifactBase(config, filename);
    if GzipTarget(config, filename) == EncryptTarget(config, filename) {
      JoinInjective(config.gzipDir, config.encryptDir, Base(filename) + ".tgz");
    }
  }

  // ---------------------------------------------------------------------------
  // Transforms

  /** What an external command (tar, gpg) did: whether it exited with status 0,
      and the size of the output file it left, if any. */
  datatype ToolRun = ToolRun(exitOk: bool, wrote: Option<nat>)

  /** GzipFile (internal/fs/fs.go:147-162): `tar czf archive -C dir member`. */
  method GzipFile(fs: FileSystem, config: AppConfig, filename: string,
                  tar: (string, string, string) -> ToolRun)
    returns (err: Option<Error>)
    modifies fs
    ensures !config.gzip ==> err == None && fs.files == old(fs.files)
    ensures config.gzip ==>
      var run := tar(GzipTarget(config, filename), config.pathToWatch, Base(filename));
      fs.files == AfterWrite(old(fs.files), GzipTarget(config, filename), run.wrote)
      && (err == None <==> run.exitOk)
  {
    if !config.gzip {
      return None;
    }
    var file := Base(filename);
    var gzipFile := Join(config.gzipDir, file + ".tgz");
    var run := tar(gzipFile, config.pathToWatch, file);
    fs.Record(gzipFile, run.wrote);
    if !run.exitOk {
      return Some(CommandFailed(filename));
    }
    return None;
  }

  /** EncryptFile (internal/fs/fs.go:118-145): `gpg -c ... -o out src`. A
      failed gpg run still counts as success when the output file exists and
      is not empty. */
  method EncryptFile(fs: FileSystem, config: AppConfig, filename: string,
                     gpg: (string, string) -> ToolRun)
    returns (err: Option<Error>)
    modifies fs
    ensures !config.encrypt ==> err == None && fs.files == old(fs.files)
    ensures config.encrypt ==>
      var out := EncryptTarget(config, filename);
      var run := gpg(out, EncryptSource(config, filename));
      fs.files == AfterWrite(old(fs.files), out, run.wrote)
      && (err == None <==> run.exitOk || (out in fs.files && fs.files[out].size > 0))
  {
    if !config.encrypt {
      return None;
    }
    var file := Base(filename);
    var srcFile := filename;
    if config.gzip {
      srcFile := Join(config.gzipDir, file + ".tgz");
    }
    var encFile := Join(config.encryptDir, file + ".tgz");
    var run := gpg(encFile, srcFile);
    fs.Record(encFile, run.wrote);
    if !run.exitOk {
      if encFile in fs.files && fs.files[encFile].size > 0 {
        return None;
      }
      return Some(CommandFailed(filename));
    }
    return None;
  }

  // ---------------------------------------------------------------------------
  // Cleanup

  /** One removal to attempt, and whether the system refuses it. */
  datatype Removal = Removal(path: string, refused: bool)

  /** Which of DeleteFile's removal attempts the system refuses. */
  datatype Refusals = Refusals(original: bool, originalRetry: bool, gzip: bool, encrypted: bool)

  function PathsOf(plan: seq<Removal>): set<string> {
    set r | r in plan :: r.path
  }

  /** DeleteFile's removals in order: the original (which fails only if both
      attempts fail), then the artifacts. */
  function CleanupPlan(config: AppConfig, filename: string, refusals: Refusals): seq<Removal> {
    [Removal(filename, refusals.original && refusals.originalRetry)] + ArtifactRemovals(config, filename, refusals)
  }

  /** The archive if compressing, then the encrypted file if encrypting. */
  function ArtifactRemovals(config: AppConfig, filename: string, refusals: Refusals): seq<Removal> {
    if config.gzip then [Removal(GzipTarget(config, filename), refusals.gzip)] + EncryptedRemovals(config, filename, refusals)
    else EncryptedRemovals(config, filename, refusals)
  }

  function EncryptedRemovals(config: AppConfig, filename: string, refusals: Refusals): seq<Removal> {
    if config.encrypt then [Removal(EncryptTarget(config, filename), refusals.encrypted)] else []
  }

  datatype CleanupResult = CleanupResult(files: map<string, FileInfo>, failed: Option<string>)

  /** Removes the plan's paths in order and stops at the first removal that fails. */
  function Cleanup(files: map<string, FileInfo>, plan: seq<Removal>): CleanupResult
    decreases |plan|
  {
    if plan == [] then CleanupResult(files, None)
    else if plan[0].path in files && !plan[0].refused then Cleanup(files - {plan[0].path}, plan[1..])
    else CleanupResult(files, Some(plan[0].path))
  }

  /** Cleanup only removes paths of the plan: whatever is left is unchanged,
      every path outside the plan stays, on success exactly the plan's paths
      are gone, and a failure names a path of the plan. */
  lemma {:induction false} CleanupFrame(files: map<string, FileInfo>, plan: seq<Removal>)
    ensures var r := Cleanup(files, plan);
      && r.files.Keys <= files.Keys
      && (forall p :: p in r.files ==> r.files[p] == files[p])
      && (forall p :: p in files && p !in PathsOf(plan) ==> p in r.files)
      && (r.failed == None ==> r.files == files - PathsOf(plan))
      && (r.failed.Some? ==> r.failed.value in PathsOf(plan))
    decreases |plan|
  {
    if plan != [] {
      assert PathsOf(plan) == {plan[0].path} + PathsOf(plan[1..]) by {
        assert forall r :: r in plan <==> r == plan[0] || r in plan[1..];
      }
      if plan[0].path in files && !plan[0].refused {
        CleanupFrame(files - {plan[0].path}, plan[1..]);
      }
    }
  }

  /** Every removal in the plan can succeed in turn: not refused, the path exists,
      and no earlier removal took it. */
  ghost predicate Removable(files: map<string, FileInfo>, plan: seq<Removal>) {
    forall i :: 0 <= i < |plan| ==>
      && !plan[i].refused
      && plan[i].path in files
      && forall j :: 0 <= j < i ==> plan[j].path != plan[i].path
  }

  /** Cleanup succeeds exactly when every removal in the plan can succeed in turn. */
  lemma {:induction false} CleanupSucceedsIff(files: map<string, FileInfo>, plan: seq<Removal>)
    ensures Cleanup(files, plan).failed == None <==> Removable(files, plan)
    decreases |plan|
  {
    if plan != [] {
      var h, t := plan[0], plan[1..];
      if h.path in files && !h.refused {
        CleanupSucceedsIff(files - {h.path}, t);
        if Removable(files, plan) {
          forall i | 0 <= i < |t|
            ensures !t[i].refused && t[i].path in files - {h.path}
            ensures forall j :: 0 <= j < i ==> t[j].path != t[i].path
          {
            assert t[i] == plan[i + 1] && plan[0] == h;
            forall j | 0 <= j < i ensures t[j].path != t[i].path {
              assert t[j] == plan[j + 1];
            }
          }
        }
        if Removable(files - {h.path}, t) {
          forall i | 0 <= i < |plan|
            ensures !plan[i].refused && plan[i].path in files
            ensures forall j :: 0 <= j < i ==> plan[j].path != plan[i].path
          {
            if i > 0 {
              assert plan[i] == t[i - 1];
              forall j | 0 <= j < i ensures plan[j].path != plan[i].path {
                if j > 0 { assert plan[j] == t[j - 1]; }
              }
            }
          }
        }
      } else {
        assert !(!plan[0].refused && plan[0].path in files);
      }
    }
  }

  /** When every removal before the k-th succeeds and the k-th fails, Cleanup
      returns there: the earlier paths are gone, everything else is left. */
  lemma {:induction false} CleanupStopsAtFailure(files: map<string, FileInfo>, plan: seq<Removal>, k: nat)
    requires k < |plan| && Removable(files, plan[..k])
    requires plan[k].refused || plan[k].path !in files - PathsOf(plan[..k])
    ensures Cleanup(files, plan) == CleanupResult(files - PathsOf(plan[..k]), Some(plan[k].path))
    decreases k
  {
    if k == 0 {
      assert PathsOf(plan[..0]) == {};
      assert files - PathsOf(plan[..0]) == files;
    } else {
      var h, t := plan[0], plan[1..];
      assert plan[..k][0] == h;
      assert h.path in files && !h.refused;
      var rest := files - {h.path};
      assert t[..k - 1] == plan[..k][1..];
      assert PathsOf(plan[..k]) == {h.path} + PathsOf(t[..k - 1]) by {
        assert forall r :: r in plan[..k] <==> r == h || r in t[..k - 1];
      }
      assert rest - PathsOf(t[..k - 1]) == files - PathsOf(plan[..k]);
      var u := t[..k - 1];
      assert Removable(rest, u) by {
        forall i | 0 <= i < |u|
          ensures !u[i].refused && u[i].path in rest
          ensures forall j :: 0 <= j < i ==> u[j].path != u[i].path
        {
          assert u[i] == plan[..k][i + 1];
          assert plan[..k][0] == h;
          forall j | 0 <= j < i ensures u[j].path != u[i].path {
            assert u[j] == plan[..k][j + 1];
          }
        }
      }
      assert t[k - 1] == plan[k];
      CleanupStopsAtFailure(rest, t, k - 1);
    }
  }

  /** Cleanup unfolded once on a plan with a known first removal. */
  lemma CleanupCons(files: map<string, FileInfo>, h: Removal, t: seq<Removal>)
    ensures Cleanup(files, [h] + t)
         == if h.path in files && !h.refused then Cleanup(files - {h.path}, t)
            else CleanupResult(files, Some(h.path))
  {
    assert ([h] + t)[0] == h && ([h] + t)[1..] == t;
  }

  /** One `os.Remove` of DeleteFile, as the first removal of what is left of
      its plan: on success the rest of the plan remains, otherwise Cleanup
      stops here with the files as they are. */
  method RemoveStep(fs: FileSystem, path: string, refused: bool, ghost later: seq<Removal>)
    returns (err: Option<Error>)
    modifies fs
    ensures err.Some? ==> err.value.path == path
    ensures err == None ==> Cleanup(old(fs.files), [Removal(path, refused)] + later) == Cleanup(fs.files, later)
    ensures err != None ==> Cleanup(old(fs.files), [Removal(path, refused)] + later) == CleanupResult(fs.files, Some(path))
  {
    CleanupCons(fs.files, Removal(path, refused), later);
    err := fs.Remove(path, refused);
  }

  /** DeleteFile's removal of the original, tried twice: it fails only when
      the path is missing or both attempts are refused. */
  method RemoveOriginal(fs: FileSystem, filename: string, refusals: Refusals, ghost later: seq<Removal>)
    returns (err: Option<Error>)
    modifies fs
    ensures var first := Removal(filename, refusals.original && refusals.originalRetry);
            && (err.Some? ==> err.value.path == filename)
            && (err == None ==> Cleanup(old(fs.files), [first] + later) == Cleanup(fs.files, later))
            && (err != None ==> Cleanup(old(fs.files), [first] + later) == CleanupResult(fs.files, Some(filename)))
  {
    CleanupCons(fs.files, Removal(filename, refusals.original && refusals.originalRetry), later);
    err := fs.Remove(filename, refusals.original);
    if err != None {
      err := fs.Remove(filename, refusals.originalRetry);
    }
  }

  /** DeleteFile (internal/fs/fs.go:164-192): removes the original (trying
      twice), then the archive if compressing, then the encrypted file if
      encrypting, and returns the first error. */
  method DeleteFile(fs: FileSystem, config: AppConfig, filename: string, refusals: Refusals)
    returns (err: Option<Error>)
    modifies fs
    ensures var r := Cleanup(old(fs.files), CleanupPlan(config, filename, refusals));
            fs.files == r.files
            && (err == None <==> r.failed == None)
            && (err.Some? ==> err.value.path == r.failed.value)
  {
    var file := Base(filename);
    var gzipFile := Join(config.gzipDir, file + ".tgz");
    var encFile := Join(config.encryptDir, file + ".tgz");
    ghost var result := Cleanup(fs.files, CleanupPlan(config, filename, refusals));
    ghost var none: seq<Removal> := [];
    ghost var rest := ArtifactRemovals(config, filename, refusals);
    ghost var encrypted := EncryptedRemovals(config, filename, refusals);
    assert config.gzip ==> rest == [Removal(gzipFile, refusals.gzip)] + encrypted;
    assert !config.gzip ==> rest == encrypted;
    assert config.encrypt ==> encrypted == [Removal(encFile, refusals.encrypted)] + none;
    assert !config.encrypt ==> encrypted == none;

    err := RemoveOriginal(fs, filename, refusals, rest);
    if err != None {
      return;
    }
    assert result == Cleanup(fs.files, rest);

    if config.gzip {
      err := RemoveStep(fs, gzipFile, refusals.gzip, encrypted);
      if err != None {
        return;
      }
    }
    assert result == Cleanup(fs.files, encrypted);

    if config.encrypt {
      err := RemoveStep(fs, encFile, refusals.encrypted, none);
      if err != None {
        return;
      }
    }
    assert result == Cleanup(fs.files, none);
    return None;
  }

  /** Cleanup of an original and up to two further paths, all present and
      pairwise distinct, with nothing refused. */
  lemma CleanupOfDistinct(files: map<string, FileInfo>, a: string, g: bool, b: string, e: bool, c: string)
    requires a in files
    requires g ==> b in files && b != a
    requires e ==> c in files && c != a && (g ==> c != b)
    ensures var tail := if e then [Removal(c, false)] else [];
            var plan := [Removal(a, false)] + (if g then [Removal(b, false)] + tail else tail);
            Cleanup(files, plan) == CleanupResult(files - {a} - (if g then {b} else {}) - (if e then {c} else {}), None)
  {
    var tail := if e then [Removal(c, false)] else [];
    var rest := if g then [Removal(b, false)] + tail else tail;
    CleanupCons(files, Removal(a, false), rest);
    var f1 := files - {a};
    if g {
      CleanupCons(f1, Removal(b, false), tail);
    }
    var f2 := if g then f1 - {b} else f1;
    if e {
      CleanupCons(f2, Removal(c, false), []);
      assert tail == [Removal(c, false)] + [];
    }
  }

  /** After the transforms have written every artifact, DeleteFile with no
      refusals removes the original and all of them, provided the two
      artifacts do not share a path. */
  lemma CleanupRemovesEverything(files: map<string, FileInfo>, config: AppConfig, filename: string)
    requires filename in files
    requires config.gzip ==> GzipTarget(config, filename) in files
    requires config.encrypt ==> EncryptTarget(config, filename) in files
    requires config.gzip && config.encrypt ==> config.gzipDir != config.encryptDir
    ensures var r := Cleanup(files, CleanupPlan(config, filename, Refusals(false, false, false, false)));
            && r.failed == None
            && r.files == files - {filename}
                                - (if config.gzip then {GzipTarget(config, filename)} else {})
                                - (if config.encrypt then {EncryptTarget(config, filename)} else {})
  {
    ArtifactsDistinct(config, filename);
    CleanupOfDistinct(files, filename, config.gzip, GzipTarget(config, filename),
                      config.encrypt, EncryptTarget(config, filename));
  }
}
