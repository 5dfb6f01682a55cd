# s3-file-uploader core, modelled in Dafny

The uploader watches a directory for files. It can compress and encrypt each
file, uploads the result to S3, and deletes the local copies. Producers (a timer
in `main.go`, an fsnotify watcher or a directory scanner in `internal/fs`) put
file messages into a bounded Go channel. Worker goroutines take messages out,
count every send, and keep a status slot each that the health endpoint reads.

This project models the sequential core under the goroutines:

- **Work channel** (`queue.dfy`, module `Queue`). A Go buffered channel as a
  class (`Channel`: buffer, closed flag, capacity). The producers'
  enqueue-or-drop step is the function `Offer` over `(queue, fullEvents)`.
- **Directory producers, transforms, cleanup** (`fs.dfy`, module `Fs`). The
  Create-bit event filter. `FsWatch` and `FsScan` are loops that send into the
  channel. The artifact names. `GzipFile` and `EncryptFile` call the external
  tool through an oracle. `DeleteFile` is specified by the ordered,
  short-circuiting `Cleanup` over the removal plan.
- **Transfer** (`s3.dfy`, module `S3`). Which file is uploaded
  (`RealSourceFileName`), the object key, and `Copy`, `FakeUploadFile`,
  `CopyFile` and `UploadFile` with their early-return error paths.
- **Main loop** (`uploader.dfy`, module `Uploader`). A `Pipeline` class holds the
  channel, the counters and the status-slot array. There is one step method per
  `select` branch of `upload` and `worker`, and `HandleHealth` loops over the
  slots. `Valid()` records the invariants every step keeps:
  - the channel stays within capacity;
  - the channel is closed exactly when the producer has returned, and that
    happens only after cancellation;
  - `count == errors + success`;
  - every slot agrees with its worker's phase.
- **Support**: `types.dfy` holds the `cfg.go` records. `metrics.dfy` holds the
  counters as `nat` fields. `paths.dfy` holds `Base`/`Join`. `disk.dfy` is an
  abstract filesystem: a map from path to size and regular-file flag.

Paths: `Base(p)` is the longest suffix of `p` without a `'/'`, and
`Join(d, n)` is `d + "/" + n`. These match Go's `filepath.Base`/`filepath.Join`
on clean paths with a non-empty last segment, and a directory that is clean,
not empty, not `"/"` and not `"."`. `filepath.Clean` is not modelled.

External effects are parameters:
- `tar`, `gpg`: a `ToolRun` (exit status, size of the output it left);
- `os.Stat`: answered from the filesystem map, so it fails exactly when the
  path is missing;
- open/create/io.Copy: a `CopyOutcome`, or an `openOk` flag for the upload;
- the S3 call: a function from (bucket, key) to success;
- removal refusals: `Refusals`;
- the random number in the producer's message name: a parameter `n`;
- the client-init failure: a parameter `initFails`.

Behaviours of the code that the model keeps:
- Scan mode does not drop on a full channel. `fsScan` sends without a length
  check, so it would block. `FsScan` therefore requires that the entries fit.
- There is no file-lock registry and no sentinel-filename shutdown:
  `ExitOnFilename` is configured but never read.
- `main` waits only for the workers (`wg.Wait()`), not for the producer to close
  the channel.
- `initClient` never returns an error, so the init-failure branch of `worker` is
  dead in `main.go`. `WorkerStart` still models it through `initFails`.
- The worker passes the literal `"file"` to `sendFile`, not the message's file.
- Go's `select` may take the receive branch on a closed, drained channel. That
  receive yields the zero message, which is still counted.
  `Pipeline.WorkerReceive` allows this step.
- `EncryptFile` treats any non-empty file at the output path as success after a
  failed gpg run, including a file left by an earlier run.
- `CopyFile` reports the size from its first stat, not the byte count io.Copy
  returned. When the file to upload already is `/var/tmp/<its name>`, creating
  the destination truncates the source, so the copy leaves an empty file (see
  "## Findings").

## Model

| member | source | states |
|---|---|---|
| Paths.Base | internal/fs/fs.go:125 | The last segment has no `'/'`, is a suffix of the path, and is the whole path or preceded by `'/'`; these determine it |
| Paths.BaseOfJoin | internal/fs/fs.go:153-154 | The last segment of `Join(dir, name)` is `name` when `name` has no `'/'` |
| Paths.JoinInjective | internal/fs/fs.go:128-130 | Joining one name onto two directories gives equal paths only if the directories are equal |
| Queue.Offer | main.go:200-204 | Below capacity the message is appended and the full counter is unchanged. At capacity the queue is unchanged and the counter rises by one. Each offer adds exactly one to queue length plus drops, and the bound is kept |
| Queue.OfferAllAcceptsPrefix | internal/fs/fs.go:46-50 | With no receiver, a run of offers queues exactly the first messages that fit, in order, and counts every other one as a full-channel event |
| Queue.OfferAllFromEmptyBounded | main.go:372 | From the empty channel of the given capacity, the guarded enqueue never exceeds the capacity |
| Queue.Channel.constructor | main.go:372 | `make(chan message, n)`: an open, empty channel with capacity n |
| Queue.Channel.Len | main.go:200 | `len(ch)` never exceeds the capacity the channel was made with |
| Queue.Channel.Send | main.go:201 | A send with room appends to the buffer (FIFO) |
| Queue.Channel.Close | main.go:196 | Closing keeps the buffered messages |
| Queue.Channel.Receive | main.go:255 | A receive pops the head. On a closed, empty channel it yields the zero message with ok false |
| Disk.FileSystem.Remove | internal/fs/fs.go:170 | Removal fails on a missing path or a refusal. Otherwise exactly that path is gone |
| Disk.FileSystem.Record | internal/fs/fs.go:155-158 | What a command leaves behind: a regular file of the size it wrote at its output path, or nothing. Every other path keeps its presence and its info |
| Fs.IsValidFsEvent | internal/fs/fs.go:17-32 | An event passes the filter iff its operation mask includes Create |
| Fs.FilterIgnoresOtherBits | internal/fs/fs.go:21-23 | Whatever other bits are set, only the Create bit decides |
| Fs.WatchOffersDetected | internal/fs/fs.go:44-51 | The watcher offers exactly the names of the valid events, in order. Filtered events, errors and everything after cancellation change neither the queue nor the counter |
| Fs.WatchKeepsFirstThatFit | internal/fs/fs.go:46-50 | A valid event below capacity appends `Message(name)`. At capacity it only increments the full-channel counter |
| Fs.SaturationExample | internal/fs/fs.go:46-50 | With capacity 2 and three created files, the first two are queued and the third is counted once |
| Fs.FsWatch | internal/fs/fs.go:34-59 | The watch loop leaves the channel and the counter as `Watch` says. It stops at cancellation and does not touch the send counters |
| Fs.ScanMessagesNameEntries | internal/fs/fs.go:67-70 | There is one message per entry, in listing order, and each message's last segment is its entry name |
| Fs.FsScan | internal/fs/fs.go:61-71 | The scan appends `Message(Join(PathToWatch, name))` for every entry, in order |
| Fs.ArtifactBase | internal/fs/fs.go:125-130 | Both artifacts are named after the original's last segment plus `".tgz"` |
| Fs.ArtifactsDistinct | internal/fs/fs.go:166-168 | No artifact path equals the original. The two artifacts coincide iff their directories do |
| Fs.GzipFile | internal/fs/fs.go:148-162 | With Gzip off it does nothing and succeeds. Otherwise it runs tar to write `Join(GzipDir, Base(f)+".tgz")` and succeeds iff tar does |
| Fs.EncryptFile | internal/fs/fs.go:119-145 | With Encrypt off it does nothing and succeeds. Otherwise gpg reads the archive (if Gzip) or the original, and writes `Join(EncryptDir, Base(f)+".tgz")`. It succeeds iff gpg exits 0 or the output exists with size > 0 |
| Fs.CleanupFrame | internal/fs/fs.go:170-191 | Cleanup removes only planned paths and leaves all else unchanged. On success every planned path is gone |
| Fs.CleanupSucceedsIff | internal/fs/fs.go:170-191 | Cleanup succeeds iff every removal in turn is not refused and finds its path still present |
| Fs.CleanupStopsAtFailure | internal/fs/fs.go:170-189 | At the first failing removal, cleanup returns. Earlier paths are gone and every later artifact is left in place |
| Fs.RemoveOriginal | internal/fs/fs.go:170-175 | Removing the original twice fails only if the path is missing or both attempts are refused. On success the rest of the plan remains; on failure Cleanup stops at the original |
| Fs.RemoveStep | internal/fs/fs.go:177-189 | One artifact removal is one step of the plan: on success the rest of the plan remains, otherwise Cleanup stops there and the error names the path |
| Fs.DeleteFile | internal/fs/fs.go:165-192 | It removes the original (two attempts), then the archive only if Gzip, then the encrypted file only if Encrypt. The resulting files and error are those of `Cleanup` on that plan |
| Fs.CleanupRemovesEverything | internal/fs/fs.go:165-192 | When the original and all enabled artifacts exist at distinct paths and nothing is refused, DeleteFile succeeds and removes exactly those paths |
| S3.RealSourceFileName | internal/s3/s3.go:25-40 | With no transform it returns the filename. With Gzip only it returns the gzip artifact, and with Encrypt the encrypted artifact. These are the paths GzipFile and EncryptFile write, so it is the last file the transforms produced |
| S3.RealSourceDependsOnBase | internal/s3/s3.go:26-37 | With a transform enabled, the result depends on the filename only through its last segment |
| S3.ObjectKeyNamesOriginal | internal/s3/s3.go:143 | The key is `S3path + "/" + Base(realFile)`. That is the original's last segment, plus `".tgz"` when a transform is on |
| S3.Copy | internal/s3/s3.go:42-65 | A missing or non-regular source gives `(0, error)` before open and before the destination is created. So do open and create failures. After the create, the bytes left in the source are all of it, or none when dst is src. Success copies them; a failed copy writes at most that many. Only dst changes |
| S3.FakeUploadFile | internal/s3/s3.go:68-79 | It returns `(size of realFile, nil)` when the file exists, and `(0, error)` otherwise |
| S3.CopyFile | internal/s3/s3.go:82-102 | It returns `(size of realFile, nil)` iff every step succeeds, and `(0, error)` on every failure path. Only the entry at `/var/tmp/Base(realFile)` may change. On success it holds that size, or 0 when it is realFile itself |
| S3.SelfCopyEmptiesFile | internal/s3/s3.go:97-101 | A 5-byte `/var/tmp/a`, uploaded with no transform: CopyFile returns `(5, nil)` and leaves the file empty |
| S3.CopyFileIntended | internal/s3/s3.go:82-102 | The same error cases, except that a file already at its destination is not copied onto itself. On success the destination holds a file of the reported size and realFile keeps its info |
| S3.UploadFile | internal/s3/s3.go:127-154 | It returns `(size, nil)` iff stat, open and the upload under `ObjectKey` all succeed, and `(0, error)` on every failure path |
| Uploader.Account | main.go:259-266 | Each message raises the count by one and exactly one of errors or success, chosen by the send's outcome. This keeps `count == errors + success` |
| Uploader.EveryMessageSucceeds | main.go:259-266 | Because sendFile returns nil, every processed message raises success |
| Uploader.Decimal | main.go:201 | `%v` of a non-negative int: one or more decimal digits, with a leading zero only for 0 |
| Uploader.DecimalRoundTrip | main.go:201 | Reading the printed digits back gives the number |
| Uploader.DecimalInjective | main.go:201 | Different random numbers give different message names |
| Metrics.AppMetrics.constructor | internal/metrics/metrics.go:13-19 | The four counters the core increments start at zero |
| Uploader.Pipeline.constructor | main.go:345-376 | Zero-valued status slots, an empty channel of capacity 1024, zero counters |
| Uploader.Pipeline.Cancel | main.go:396-401 | Cancellation is set and nothing else changes |
| Uploader.Pipeline.UploadTick | main.go:199-204 | One `Offer` of `file-<n>` on the channel and the full-channel counter. The invariants are kept |
| Uploader.Pipeline.UploadCancel | main.go:194-197 | On cancellation the producer closes the channel and stops, so no further tick can send |
| Uploader.Pipeline.WorkerStart | main.go:226-238 | The worker's slot becomes `(id, true)`, or `(id, false)` on init failure. Other slots are unchanged |
| Uploader.Pipeline.WorkerCancel | main.go:244-253 | On cancellation the worker's slot becomes `(id, false)` and the worker exits. Other slots are unchanged |
| Uploader.Pipeline.WorkerReceive | main.go:255-266 | It pops the head (or gets the zero message from a closed, empty channel) and accounts for one send |
| Uploader.Pipeline.HandleHealth | main.go:108-126 | Healthy iff every slot has Running set. An empty slot list is healthy |
| Uploader.HealthyIffAllLooping | main.go:110-125 | Under the invariant, health holds iff every worker is in its loop |

## Left out

- Goroutines, `select` fairness, `sync.WaitGroup`, and OS signal handling
  (main.go:378-408). Each branch is a step method; interleavings are not
  enumerated.
- `ScanDirectory` and `WatchDirectory` (internal/fs/fs.go:74-116). Their ticker,
  fsnotify watcher setup and `watcher.Add` failures are library lifecycle.
- The closing of the watcher's event and error channels
  (internal/fs/fs.go:40-43, 52-55).
- `os.ReadDir` failure in `fsScan` (internal/fs/fs.go:62-65); it is fatal to the
  process.
- Fs.FsWatch: requires `WorkersCannelSize` to be at most the channel's capacity.
  The fs package's channel is made outside internal/fs/fs.go. With a smaller
  channel, the send at internal/fs/fs.go:47 blocks, and the model does not
  describe that case.
- Fs.FsScan: requires that all entries fit in the channel, because the Go send
  would block until workers drain it; the blocking itself is not modelled.
- Running `tar`, `gpg`, the AWS SDK session and upload, `os.Open` and `io.Copy`.
  Their outcomes are oracle parameters.
- An `os.Stat` that fails on a path that exists (permissions, I/O errors).
  Stat is read from the filesystem map, so it fails only on a missing path.
- Two different strings naming the same file (`/var/tmp//a`, symlinks). Paths
  are compared as strings. `NewClient` and
  `Client.Close` are SDK plumbing.
- The gpg passphrase and the file contents. Only sizes and the regular-file flag
  are kept.
- `handleStatus`, `handleMetrics`, the HTTP server, `updateMetrics` (a gauge),
  the Pushgateway pusher, and `internal/metrics/metrics.go` beyond four counters.
- `validateUrl` and `main_test.go`, because they rest on `net/url` parsing.
  `internal/utils/utils.go` is floating-point formatting and a go-humanize
  wrapper.
- Flag parsing and the startup checks in `main`.
- Paths.Base: `filepath.Base` also strips trailing slashes and maps `""` to
  `"."`. The model returns the empty segment in those cases.
- Paths.Join: `filepath.Join` cleans its result and drops an empty directory.
  The model always inserts one `'/'`.
- Go's `int64` sizes are unbounded `nat`s.

## Findings

| source | as written | input that shows it | evidently intended | confidence | as-written member | corrected member |
|---|---|---|---|---|---|---|
| internal/s3/s3.go:97-101 | `CopyFile` copies `realFile` onto `/var/tmp/Base(realFile)` even when that is `realFile` itself. `os.Create` truncates it, `io.Copy` moves 0 bytes, and `CopyFile` still reports the old size and nil | No transform, `filename = "/var/tmp/a"` holding 5 bytes. Also GzipDir or EncryptDir set to `/var/tmp` | A file already at its destination is left alone, and the reported size is the size of the file at the destination | medium, not executed | S3.SelfCopyEmptiesFile | S3.CopyFileIntended |
