/** The uploader's main loop (main.go): the producer that fills the work
    channel on every tick, the workers that drain it and count each send, the
    per-worker status slots and the health check over them. Each `select`
    branch is one step method; which goroutine runs next is the caller's
    choice. */
module Uploader {
  import opened Types
  import Queue
  import Metrics

  /** workersCannelSize: the capacity the work channel is made with. */
  const WorkersChannelSize: nat := 1024

  /** Where a worker goroutine is: not yet scheduled, in its select loop, or returned. */
  datatype Phase = NotStarted | Looping | Exited

  /** What a worker's slot holds in each phase: the zero value before the
      worker runs, then its own id with Running set while it loops. */
  ghost predicate SlotAgrees(phase: Phase, id: int, s: WorkerStatus) {
    match phase
    case NotStarted => s == WorkerStatus(0, false)
    case Looping => s == WorkerStatus(id, true)
    case Exited => s == WorkerStatus(id, false)
  }

  /** The decimal digits of n, as `%v` prints it: at least one digit, and no
      leading zero unless n is zero. */
  function Decimal(n: nat): (r: string)
    ensures |r| > 0 && forall i :: 0 <= i < |r| ==> '0' <= r[i] <= '9'
    ensures r[0] == '0' <==> n == 0
    decreases n
  {
    var digit := ['0' + (n % 10) as char];
    if n < 10 then digit else Decimal(n / 10) + digit
  }

  /** The number a string of decimal digits denotes. */
  function DigitsValue(s: string): nat
    requires forall i :: 0 <= i < |s| ==> '0' <= s[i] <= '9'
  {
    if s == [] then 0 else 10 * DigitsValue(s[..|s| - 1]) + (s[|s| - 1] - '0') as nat
  }

  /** Reading the digits back gives the number printed. */
  lemma {:induction false} DecimalRoundTrip(n: nat)
    ensures DigitsValue(Decimal(n)) == n
    decreases n
  {
    if n >= 10 {
      DecimalRoundTrip(n / 10);
      var r := Decimal(n);
      assert r[..|r| - 1] == Decimal(n / 10);
    }
  }

  /** Different random numbers give the producer different file names. */
  lemma DecimalInjective(a: nat, b: nat)
    ensures Decimal(a) == Decimal(b) ==> a == b
  {
    DecimalRoundTrip(a);
    DecimalRoundTrip(b);
  }

  /** sendFile is a stub: it only logs, and never fails. */
  function SendFile(file: string): (err: Option<Error>)
    ensures err == None
  {
    None
  }

  /** The three send counters. */
  datatype SendCounts = SendCounts(count: nat, errors: nat, success: nat)

  /** The accounting for one received message (main.go:260-266). */
  function Account(c: SendCounts, err: Option<Error>): (r: SendCounts)
    ensures r.count == c.count + 1
    // exactly one of the two outcome counters moves, and which one is the send's outcome
    ensures r.errors + r.success == c.errors + c.success + 1
    ensures r.errors == c.errors + 1 <==> err.Some?
    ensures r.success == c.success + 1 <==> err.None?
    // so the totals stay balanced
    ensures c.count == c.errors + c.success ==> r.count == r.errors + r.success
  {
    if err.Some? then SendCounts(c.count + 1, c.errors + 1, c.success)
    else SendCounts(c.count + 1, c.errors, c.success + 1)
  }

  /** Since sendFile never fails, every processed message is a success. */
  lemma EveryMessageSucceeds(c: SendCounts, file: string)
    ensures Account(c, SendFile(file)) == SendCounts(c.count + 1, c.errors, c.success + 1)
  {
  }

  class Pipeline {
    const comm: Queue.Channel
    const metrics: Metrics.AppMetrics
    const statuses: array<WorkerStatus>
    ghost var phases: seq<Phase>
    var producerRunning: bool
    var cancelled: bool

    ghost predicate Valid()
      reads this, comm, metrics, statuses
    {
      && comm.capacity == WorkersChannelSize
      && comm.Valid()
      // the producer closes the channel as it returns, and returns only on cancellation
      && (producerRunning <==> !comm.closed)
      && (!cancelled ==> producerRunning)
      && metrics.fileSendCount == metrics.fileSendErrors + metrics.fileSendSuccess
      && |phases| == statuses.Length
      && (forall i :: 0 <= i < |phases| ==> SlotAgrees(phases[i], i, statuses[i]))
    }

    /** The counters a received message updates. */
    ghost function Sends(): SendCounts
      reads metrics
    {
      SendCounts(metrics.fileSendCount, metrics.fileSendErrors, metrics.fileSendSuccess)
    }

    /** main (main.go:345-376): zeroed status slots for `workers` workers, an
        empty channel of WorkersChannelSize, fresh counters. */
    constructor (workers: nat)
      ensures Valid()
      ensures fresh(comm) && fresh(metrics) && fresh(statuses)
      ensures statuses.Length == workers && phases == seq(workers, _ => NotStarted)
      ensures comm.buffer == [] && producerRunning && !cancelled
      ensures metrics.channelFullEvents == 0 && Sends() == SendCounts(0, 0, 0)
    {
      comm := new Queue.Channel(WorkersChannelSize);
      metrics := new Metrics.AppMetrics();
      statuses := new WorkerStatus[workers](_ => WorkerStatus(0, false));
      phases := seq(workers, _ => NotStarted);
      producerRunning := true;
      cancelled := false;
    }

    /** The signal goroutine's cancelFunction() (main.go:396-401). */
    method Cancel()
      requires Valid()
      modifies this
      ensures Valid() && cancelled
      ensures producerRunning == old(producerRunning) && phases == old(phases)
    {
      cancelled := true;
    }

    /** upload's tick branch (main.go:199-204): enqueue-or-drop a message
        named after the random number `n`. */
    method UploadTick(n: nat)
      requires Valid() && producerRunning
      modifies comm, metrics
      ensures Valid() && producerRunning
      ensures Queue.QueueState(comm.buffer, metrics.channelFullEvents)
           == Queue.Offer(Queue.QueueState(old(comm.buffer), old(metrics.channelFullEvents)),
                          WorkersChannelSize, Message("file-" + Decimal(n)))
      ensures Sends() == old(Sends())
    {
      if comm.Len() < WorkersChannelSize {
        comm.Send(Message("file-" + Decimal(n)));
      } else {
        metrics.channelFullEvents := metrics.channelFullEvents + 1;
      }
    }

    /** upload's ctx.Done() branch (main.go:194-197): close the channel and
        return, so the producer sends nothing more. */
    method UploadCancel()
      requires Valid() && producerRunning && cancelled
      modifies this, comm
      ensures Valid() && !producerRunning && comm.closed
      ensures comm.buffer == old(comm.buffer) && phases == old(phases) && cancelled
    {
      comm.Close();
      producerRunning := false;
    }

    /** The start of worker `id` (main.go:224-238): it takes its slot with
        Running set, and gives it up again if its client cannot be made.
        (initClient in main.go never fails; `initFails` covers that branch.) */
    method WorkerStart(id: nat, initFails: bool)
      requires Valid() && id < statuses.Length && phases[id] == NotStarted
      modifies this, statuses
      ensures Valid()
      ensures statuses[id] == WorkerStatus(id, !initFails)
      ensures phases == old(phases)[id := if initFails then Exited else Looping]
      ensures forall j :: 0 <= j < statuses.Length && j != id ==> statuses[j] == old(statuses[j])
      ensures producerRunning == old(producerRunning) && cancelled == old(cancelled)
    {
      statuses[id] := statuses[id].(id := id);
      statuses[id] := statuses[id].(running := true);
      if initFails {
        statuses[id] := statuses[id].(running := false);
        phases := phases[id := Exited];
      } else {
        phases := phases[id := Looping];
      }
    }

    /** A worker's ctx.Done() branch (main.go:244-253): clear Running and return. */
    method WorkerCancel(id: nat)
      requires Valid() && id < statuses.Length && phases[id] == Looping && cancelled
      modifies this, statuses
      ensures Valid()
      ensures statuses[id] == WorkerStatus(id, false)
      ensures phases == old(phases)[id := Exited]
      ensures forall j :: 0 <= j < statuses.Length && j != id ==> statuses[j] == old(statuses[j])
      ensures producerRunning == old(producerRunning) && cancelled
    {
      statuses[id] := statuses[id].(running := false);
      phases := phases[id := Exited];
    }

    /** A worker's receive branch (main.go:255-266). It runs when a message
        is buffered or the channel is closed; a closed, drained channel hands
        out the zero message, which is counted like any other. */
    method WorkerReceive(id: nat) returns (msg: Message)
      requires Valid() && id < statuses.Length && phases[id] == Looping
      requires comm.buffer != [] || comm.closed
      modifies comm, metrics
      ensures Valid()
      ensures old(comm.buffer) != [] ==> msg == old(comm.buffer)[0] && comm.buffer == old(comm.buffer)[1..]
      ensures old(comm.buffer) == [] ==> msg == Message("") && comm.buffer == []
      ensures Sends() == Account(old(Sends()), SendFile("file"))
      ensures metrics.channelFullEvents == old(metrics.channelFullEvents)
    {
      var ok;
      msg, ok := comm.Receive();
      var err := SendFile("file");
      var counts := Account(SendCounts(metrics.fileSendCount, metrics.fileSendErrors, metrics.fileSendSuccess), err);
      metrics.fileSendCount, metrics.fileSendErrors, metrics.fileSendSuccess := counts.count, counts.errors, counts.success;
    }

    /** handleHealth (main.go:107-126): healthy exactly when every slot says
        Running; no slots at all is healthy. */
    method HandleHealth() returns (healthy: bool)
      ensures healthy <==> forall i :: 0 <= i < statuses.Length ==> statuses[i].running
    {
      healthy := true;
      for id := 0 to statuses.Length
        invariant healthy <==> forall i :: 0 <= i < id ==> statuses[i].running
      {
        if !statuses[id].running {
          healthy := false;
        }
      }
    }
  }

  /** The health check reports exactly whether every worker is in its loop. */
  lemma HealthyIffAllLooping(p: Pipeline)
    requires p.Valid()
    ensures (forall i :: 0 <= i < p.statuses.Length ==> p.statuses[i].running)
        <==> (forall i :: 0 <= i < |p.phases| ==> p.phases[i] == Looping)
  {
    if forall i :: 0 <= i < p.statuses.Length ==> p.statuses[i].running {
      forall i | 0 <= i < |p.phases| ensures p.phases[i] == Looping {
        assert SlotAgrees(p.phases[i], i, p.statuses[i]);
      }
    }
  }
}
