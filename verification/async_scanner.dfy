/** `_AsyncScanner`: a handle that starts a scan worker and reads its
    timestamped waveforms from a shared bounded queue, plus the worker
    (`_run_scanner`) that fills that queue and reports its health over a
    pipe. The two run in separate processes in the source; here each is a
    sequence of steps on the shared queue and the pipe, and the caller
    chooses how they interleave. Clock readings, the outcome of each scan
    and the reports that reach the pipe in time are inputs. */
module AsyncScanner {
  import opened Errors

  /** A waveform's samples; their values are not interpreted here. */
  type Waveform = seq<int>

  /** `_ScannerHealth`. */
  datatype Health = Health(isAlive: bool, isHealthy: bool, error: Option<Error>)

  /** `_TimestampedWaveform`: a waveform and the clock reading taken just
      before its scan started (the timestamp is evaluated before `scan()`). */
  datatype Stamped = Stamped(timestamp: int, waveform: Waveform)

  const DefaultQueueMaxsize: int := 10
  const ScannerTimedOut: string := "Scanner timed out"

  /** The report of a worker that scans. */
  const Alive: Health := Health(true, true, None)

  /** The report of a worker that has stopped because of `e`. */
  function Dead(e: Error): (h: Health)
    ensures !h.isAlive && !h.isHealthy && h.error == Some(e)
  {
    Health(false, false, Some(e))
  }

  // ---------------------------------------------------------------------
  // The bounded queue

  /** A queue created with `maxsize <= 0` has no bound. */
  predicate IsFull(q: seq<Stamped>, maxsize: int)
  {
    maxsize > 0 && |q| >= maxsize
  }

  predicate Bounded(q: seq<Stamped>, maxsize: int)
  {
    maxsize <= 0 || |q| <= maxsize
  }

  /** The newest entries of `s`, as many as a queue of `maxsize` holds. */
  function Keep(s: seq<Stamped>, maxsize: int): seq<Stamped>
  {
    if maxsize > 0 && |s| > maxsize then s[|s| - maxsize..] else s
  }

  /** The worker's push: `put_nowait`, and when the queue is full, one
      `get_nowait` to drop the oldest entry before putting again. */
  function Pushed(q: seq<Stamped>, w: Stamped, maxsize: int): (r: seq<Stamped>)
    requires Bounded(q, maxsize)
    ensures Bounded(r, maxsize) && r != [] && r[|r| - 1] == w
    ensures |r| == if IsFull(q, maxsize) then |q| else |q| + 1
  {
    var all := q + [w];
    if IsFull(q, maxsize) then all[1..] else all
  }

  /** A push keeps the newest entries of the queue followed by the new one. */
  lemma PushedKeeps(q: seq<Stamped>, w: Stamped, maxsize: int)
    requires Bounded(q, maxsize)
    ensures Pushed(q, w, maxsize) == Keep(q + [w], maxsize)
  {
    if IsFull(q, maxsize) {
      assert |q + [w]| - maxsize == 1;
    }
  }

  /** Keeping the newest entries twice is keeping them once. */
  lemma KeepKeep(s: seq<Stamped>, t: seq<Stamped>, maxsize: int)
    ensures Keep(Keep(s, maxsize) + t, maxsize) == Keep(s + t, maxsize)
  {
    if maxsize > 0 && |s| > maxsize {
      var k := |s| - maxsize;
      assert s[k..] + t == (s + t)[k..];
      if |t| > 0 {
        assert (s[k..] + t)[|t|..] == (s + t)[k + |t|..];
      }
    }
  }

  /** Successive pushes keep the order of arrival and, once the queue is
      full, exactly the `maxsize` freshest entries. */
  lemma {:induction false} PushesKeepNewest(q: seq<Stamped>, ws: seq<Stamped>, maxsize: int)
    requires Bounded(q, maxsize)
    ensures PushAll(q, ws, maxsize) == Keep(q + ws, maxsize)
    decreases |ws|
  {
    if ws != [] {
      var head := q + [ws[0]];
      var p := Pushed(q, ws[0], maxsize);
      calc {
        PushAll(q, ws, maxsize);
        PushAll(p, ws[1..], maxsize);
        { PushesKeepNewest(p, ws[1..], maxsize); }
        Keep(p + ws[1..], maxsize);
        { PushedKeeps(q, ws[0], maxsize); }
        Keep(Keep(head, maxsize) + ws[1..], maxsize);
        { KeepKeep(head, ws[1..], maxsize); }
        Keep(head + ws[1..], maxsize);
        { assert head + ws[1..] == q + ws by { assert [ws[0]] + ws[1..] == ws; } }
        Keep(q + ws, maxsize);
      }
    }
  }

  /** The pushes of `ws`, in order. */
  function PushAll(q: seq<Stamped>, ws: seq<Stamped>, maxsize: int): (r: seq<Stamped>)
    requires Bounded(q, maxsize)
    ensures Bounded(r, maxsize)
    decreases |ws|
  {
    if ws == [] then q else PushAll(Pushed(q, ws[0], maxsize), ws[1..], maxsize)
  }

  /** `multiprocessing.Queue` as the two processes use it. */
  class SharedQueue {
    const maxsize: int
    var items: seq<Stamped>

    constructor (maxsize: int)
      ensures this.maxsize == maxsize && items == []
    {
      this.maxsize := maxsize;
      items := [];
    }

    /** `put_nowait`: refused with `Full` when the queue is full. */
    method PutNowait(w: Stamped) returns (r: Result<()>)
      modifies this
      ensures IsFull(old(items), maxsize) ==> r == Err(Full("")) && items == old(items)
      ensures !IsFull(old(items), maxsize) ==> r == Ok(()) && items == old(items) + [w]
    {
      if IsFull(items, maxsize) {
        return Err(Full(""));
      }
      items := items + [w];
      r := Ok(());
    }

    /** `get_nowait`, and `get` once its timeout has run out: the oldest
        entry, or `Empty`. */
    method GetNowait() returns (r: Result<Stamped>)
      modifies this
      ensures old(items) == [] ==> r == Err(Empty("")) && items == []
      ensures old(items) != [] ==> r == Ok(old(items)[0]) && items == old(items)[1..]
    {
      if items == [] {
        return Err(Empty(""));
      }
      r := Ok(items[0]);
      items := items[1..];
    }
  }

  /** The parent's end of the pipe: the reports sent and not yet received. */
  class HealthPipe {
    var messages: seq<Health>

    constructor (arrived: seq<Health>)
      ensures messages == arrived
    {
      messages := arrived;
    }

    method Send(h: Health)
      modifies this
      ensures messages == old(messages) + [h]
    {
      messages := messages + [h];
    }

    /** `poll`: whether a report is waiting. */
    method Poll() returns (ready: bool)
      ensures ready <==> messages != []
    {
      ready := messages != [];
    }

    method Recv() returns (h: Health)
      requires messages != []
      modifies this
      ensures h == old(messages)[0] && messages == old(messages)[1..]
    {
      h := messages[0];
      messages := messages[1..];
    }
  }

  // ---------------------------------------------------------------------
  // The worker

  /** How the scan loop ended: the stop flag was seen, a scan failed in a
      way that is reported, or a scan raised something that escapes. */
  datatype LoopEnd = Stopped | Fatal(error: Error) | Crashed(error: Error)

  /** The scan loop from queue `q`, given the outcome of each scan made
      before the stop flag is seen. */
  function ScanLoop(q: seq<Stamped>, maxsize: int, scans: seq<Result<Stamped>>): (r: (seq<Stamped>, LoopEnd))
    requires Bounded(q, maxsize)
    ensures Bounded(r.0, maxsize)
    decreases |scans|
  {
    if scans == [] then (q, Stopped)
    else match scans[0]
      case Err(e) => (q, if e.IsSerialOrTimeout() then Fatal(e) else Crashed(e))
      case Ok(w) => ScanLoop(Pushed(q, w, maxsize), maxsize, scans[1..])
  }

  /** `_run_scanner` on queue `q` and pipe `pipe`: the worker's outcome,
      then the queue and the pipe it leaves. */
  function WorkerRun(q: seq<Stamped>, pipe: seq<Health>, maxsize: int, construct: Result<()>, scans: seq<Result<Stamped>>)
    : (r: (Result<()>, seq<Stamped>, seq<Health>))
    requires Bounded(q, maxsize)
    ensures |pipe| <= |r.2| <= |pipe| + 2 && r.2[..|pipe|] == pipe
  {
    if construct.Err? then
      if construct.error.IsSerialOrTimeout() then (Ok(()), q, pipe + [Dead(construct.error)])
      else (Err(construct.error), q, pipe)
    else
      var (q1, end) := ScanLoop(q, maxsize, scans);
      match end
      case Stopped => (Ok(()), [], pipe + [Alive])
      case Fatal(e) => (Ok(()), [], pipe + [Alive, Dead(e)])
      case Crashed(e) => (Err(e), q1, pipe + [Alive])
  }

  /** Scans that all succeed. */
  function Succeeding(ws: seq<Stamped>): (r: seq<Result<Stamped>>)
    ensures |r| == |ws| && forall i :: 0 <= i < |ws| ==> r[i] == Ok(ws[i])
  {
    seq(|ws|, i requires 0 <= i < |ws| => Ok(ws[i]))
  }

  /** While every scan succeeds the loop only pushes. */
  lemma {:induction false} LoopPushesAll(q: seq<Stamped>, ws: seq<Stamped>, maxsize: int)
    requires Bounded(q, maxsize)
    ensures ScanLoop(q, maxsize, Succeeding(ws)) == (PushAll(q, ws, maxsize), Stopped)
    decreases |ws|
  {
    if ws == [] {
      assert Succeeding(ws) == [];
    } else {
      var s := Succeeding(ws);
      assert s != [] && s[0] == Ok(ws[0]);
      assert s[1..] == Succeeding(ws[1..]);
      LoopPushesAll(Pushed(q, ws[0], maxsize), ws[1..], maxsize);
    }
  }

  /** While every scan succeeds the queue holds the freshest `maxsize`
      scans in the order they were made. */
  lemma LoopKeepsNewest(q: seq<Stamped>, ws: seq<Stamped>, maxsize: int)
    requires Bounded(q, maxsize)
    ensures ScanLoop(q, maxsize, Succeeding(ws)) == (Keep(q + ws, maxsize), Stopped)
  {
    LoopPushesAll(q, ws, maxsize);
    PushesKeepNewest(q, ws, maxsize);
  }

  /** A loop whose `k`-th scan fails, after `k` that succeed, pushes those
      `k` and ends there. */
  lemma {:induction false} LoopStopsAtFailure(q: seq<Stamped>, maxsize: int, scans: seq<Result<Stamped>>, k: nat, e: Error)
    requires Bounded(q, maxsize)
    requires k < |scans| && scans[k] == Err(e) && forall i :: 0 <= i < k ==> scans[i].Ok?
    ensures ScanLoop(q, maxsize, scans).1 == if e.IsSerialOrTimeout() then Fatal(e) else Crashed(e)
    decreases k
  {
    if k > 0 {
      LoopStopsAtFailure(Pushed(q, scans[0].value, maxsize), maxsize, scans[1..], k - 1, e);
    }
  }

  /** A worker whose scanner cannot be constructed sends exactly one dead
      report when the fault is a serial fault or a timeout, leaves the
      queue alone and never scans; any other fault escapes unreported. */
  lemma WorkerStartupFails(q: seq<Stamped>, pipe: seq<Health>, maxsize: int, e: Error, scans: seq<Result<Stamped>>)
    requires Bounded(q, maxsize)
    ensures e.IsSerialOrTimeout() ==> WorkerRun(q, pipe, maxsize, Err(e), scans) == (Ok(()), q, pipe + [Dead(e)])
    ensures !e.IsSerialOrTimeout() ==> WorkerRun(q, pipe, maxsize, Err(e), scans) == (Err(e), q, pipe)
  {
  }

  /** A worker that starts sends the healthy report first; when every scan
      succeeds until the stop flag, that is its only report and the queue
      is drained. */
  lemma WorkerStopsCleanly(q: seq<Stamped>, pipe: seq<Health>, maxsize: int, ws: seq<Stamped>)
    requires Bounded(q, maxsize)
    ensures WorkerRun(q, pipe, maxsize, Ok(()), Succeeding(ws)) == (Ok(()), [], pipe + [Alive])
  {
    LoopKeepsNewest(q, ws, maxsize);
  }

  /** A serial fault or timeout during a scan is reported after the
      healthy report, ends the loop, and the queue is drained. */
  lemma WorkerReportsFatalScan(q: seq<Stamped>, pipe: seq<Health>, maxsize: int, scans: seq<Result<Stamped>>, k: nat, e: Error)
    requires Bounded(q, maxsize) && e.IsSerialOrTimeout()
    requires k < |scans| && scans[k] == Err(e) && forall i :: 0 <= i < k ==> scans[i].Ok?
    ensures WorkerRun(q, pipe, maxsize, Ok(()), scans) == (Ok(()), [], pipe + [Alive, Dead(e)])
  {
    LoopStopsAtFailure(q, maxsize, scans, k, e);
  }

  /** The worker's push into the shared queue. */
  method PushFreshest(shared: SharedQueue, w: Stamped)
    requires Bounded(shared.items, shared.maxsize)
    modifies shared
    ensures shared.items == Pushed(old(shared.items), w, shared.maxsize)
  {
    var put := shared.PutNowait(w);
    if put.Err? {
      var oldest := shared.GetNowait();
      put := shared.PutNowait(w);
    }
  }

  /** `_run_scanner`'s scan loop: `scans` is the outcome of each scan made
      before the stop flag is seen; a fatal scan is reported before the
      loop ends. */
  method ScanUntilStop(scans: seq<Result<Stamped>>, shared: SharedQueue, conn: HealthPipe) returns (end: LoopEnd)
    requires Bounded(shared.items, shared.maxsize)
    modifies shared, conn
    ensures (shared.items, end) == ScanLoop(old(shared.items), shared.maxsize, scans)
    ensures conn.messages == old(conn.messages) + if end.Fatal? then [Dead(end.error)] else []
  {
    ghost var q0 := shared.items;
    var i := 0;
    while i < |scans|
      invariant 0 <= i <= |scans| && Bounded(shared.items, shared.maxsize)
      invariant conn.messages == old(conn.messages)
      invariant ScanLoop(q0, shared.maxsize, scans) == ScanLoop(shared.items, shared.maxsize, scans[i..])
      decreases |scans| - i
    {
      var scan := scans[i];
      assert scans[i..][0] == scan && scans[i..][1..] == scans[i + 1..];
      if scan.Err? {
        if scan.error.IsSerialOrTimeout() {
          conn.Send(Dead(scan.error));
          return Fatal(scan.error);
        }
        return Crashed(scan.error);
      }
      PushFreshest(shared, scan.value);
      i := i + 1;
    }
    end := Stopped;
  }

  /** The drain on shutdown: `get_nowait` until the queue is empty. */
  method Drain(shared: SharedQueue)
    modifies shared
    ensures shared.items == []
  {
    while true
      decreases |shared.items|
    {
      var drained := shared.GetNowait();
      if drained.Err? {
        break;
      }
    }
  }

  /** `_run_scanner`: `construct` is the outcome of building the scanner
      and `scans` the outcome of each scan made before the stop flag is
      seen. */
  method RunScanner(construct: Result<()>, scans: seq<Result<Stamped>>, shared: SharedQueue, conn: HealthPipe)
    returns (r: Result<()>)
    requires Bounded(shared.items, shared.maxsize)
    modifies shared, conn
    ensures (r, shared.items, conn.messages)
      == WorkerRun(old(shared.items), old(conn.messages), shared.maxsize, construct, scans)
  {
    if construct.Err? {
      if construct.error.IsSerialOrTimeout() {
        conn.Send(Dead(construct.error));
        return Ok(());
      }
      return Err(construct.error);
    }
    ghost var pipe0 := conn.messages;
    ghost var q0 := shared.items;
    conn.Send(Alive);
    var end := ScanUntilStop(scans, shared, conn);
    assert (shared.items, end) == ScanLoop(q0, shared.maxsize, scans);
    if end.Crashed? {
      assert conn.messages == pipe0 + [Alive];
      assert WorkerRun(q0, pipe0, shared.maxsize, construct, scans) == (Err(end.error), shared.items, pipe0 + [Alive]);
      return Err(end.error);
    }
    assert end.Fatal? ==> conn.messages == pipe0 + [Alive, Dead(end.error)];
    assert end.Stopped? ==> conn.messages == pipe0 + [Alive];
    Drain(shared);
    r := Ok(());
  }

  // ---------------------------------------------------------------------
  // The handle

  /** What the handle's reads see and change: its flag, the shared queue
      and the reports waiting in the pipe. */
  datatype Side = Side(isScanning: bool, queue: seq<Stamped>, pipe: seq<Health>)

  /** `start_scan` once the worker is started, given the reports that
      reached the pipe within `startup_timeout`: the outcome and the new
      `is_scanning`. */
  function StartOutcome(arrived: seq<Health>): (r: (Result<()>, bool))
    ensures arrived == [] ==> r == (Err(TimeoutError(ScannerTimedOut)), false)
    ensures arrived != [] ==> (r.1 <==> arrived[0].isAlive && arrived[0].isHealthy)
    ensures arrived != [] ==> (r.0.Err? <==> arrived[0].error.Some?)
  {
    if arrived == [] then (Err(TimeoutError(ScannerTimedOut)), false)
    else
      var msg := arrived[0];
      (if msg.error.Some? then Err(msg.error.value) else Ok(()), msg.isHealthy && msg.isAlive)
  }

  /** The handle and the worker together: a worker that starts makes
      `start_scan` succeed and sets `is_scanning`; one whose scanner cannot
      be built with a serial fault or a timeout makes it raise that fault;
      one that dies of anything else sends nothing, and the start times out. */
  lemma StartFollowsWorker(q: seq<Stamped>, maxsize: int, construct: Result<()>, scans: seq<Result<Stamped>>)
    requires Bounded(q, maxsize)
    ensures var arrived := WorkerRun(q, [], maxsize, construct, scans).2;
      (construct.Ok? ==> StartOutcome(arrived) == (Ok(()), true))
      && (construct.Err? && construct.error.IsSerialOrTimeout() ==> StartOutcome(arrived) == (Err(construct.error), false))
      && (construct.Err? && !construct.error.IsSerialOrTimeout() ==> StartOutcome(arrived) == (Err(TimeoutError(ScannerTimedOut)), false))
  {
    if construct.Ok? {
      var (q1, end) := ScanLoop(q, maxsize, scans);
      assert WorkerRun(q, [], maxsize, construct, scans).2[0] == Alive;
    }
  }

  /** `_get_scan`: the oldest entry; once the queue has stayed empty for
      the timeout, a waiting report clears `is_scanning` when the worker is
      dead and has its error raised, and otherwise `Empty` is raised. */
  function GetScanStep(s: Side): (r: (Result<Stamped>, Side))
    ensures r.0.Ok? <==> s.queue != []
    ensures r.0.Ok? ==> r.0.value == s.queue[0] && r.1 == s.(queue := s.queue[1..])
    ensures r.1.isScanning ==> s.isScanning
  {
    if s.queue != [] then (Ok(s.queue[0]), s.(queue := s.queue[1..]))
    else if s.pipe == [] then (Err(Empty("")), s)
    else
      var msg := s.pipe[0];
      var next := s.(pipe := s.pipe[1..], isScanning := if !msg.isAlive then false else s.isScanning);
      (if msg.error.Some? then Err(msg.error.value) else Err(Empty("")), next)
  }

  /** A dead worker's report, read when the queue has run dry, stops the
      handle and raises the worker's error. */
  lemma DeadReportStopsHandle(s: Side, e: Error)
    requires s.queue == [] && s.pipe != [] && s.pipe[0] == Dead(e)
    ensures GetScanStep(s) == (Err(e), Side(false, [], s.pipe[1..]))
  {
  }

  /** `get_scans`' first loop from an entry already read: stale entries
      (stamped strictly before `callTime`) are passed over. */
  function SkipFrom(first: Stamped, s: Side, callTime: int): (r: (Result<Stamped>, Side))
    ensures r.0.Ok? ==> r.0.value.timestamp >= callTime
    decreases |s.queue|, 1
  {
    if first.timestamp < callTime then SkipStale(s, callTime) else (Ok(first), s)
  }

  /** The first entry stamped at or after `callTime`. */
  function SkipStale(s: Side, callTime: int): (r: (Result<Stamped>, Side))
    ensures r.0.Ok? ==> r.0.value.timestamp >= callTime
    decreases |s.queue|, 0
  {
    var (got, next) := GetScanStep(s);
    if got.Err? then (got, next) else SkipFrom(got.value, next, callTime)
  }

  /** `n` more reads, their waveforms in order. */
  function TakeScans(s: Side, n: nat): (r: (Result<seq<Waveform>>, Side))
    ensures r.0.Ok? ==> |r.0.value| == n
    decreases n
  {
    if n == 0 then (Ok([]), s)
    else
      var (got, next) := GetScanStep(s);
      if got.Err? then (Err(got.error), next)
      else Prepend([got.value.waveform], TakeScans(next, n - 1))
  }

  /** Waveforms already read in front of the outcome of later reads. */
  function Prepend(done: seq<Waveform>, later: (Result<seq<Waveform>>, Side)): (r: (Result<seq<Waveform>>, Side))
    ensures r.1 == later.1 && (r.0.Ok? <==> later.0.Ok?)
    ensures later.0.Ok? ==> r.0.value == done + later.0.value
  {
    match later.0
    case Ok(ws) => (Ok(done + ws), later.1)
    case Err(e) => (Err(e), later.1)
  }

  lemma PrependNothing(later: (Result<seq<Waveform>>, Side))
    ensures Prepend([], later) == later
  {
    if later.0.Ok? {
      assert [] + later.0.value == later.0.value;
    }
  }

  lemma PrependTwice(a: seq<Waveform>, b: seq<Waveform>, later: (Result<seq<Waveform>>, Side))
    ensures Prepend(a, Prepend(b, later)) == Prepend(a + b, later)
  {
    if later.0.Ok? {
      assert a + (b + later.0.value) == a + b + later.0.value;
    }
  }

  /** `get_scans(n)` with the clock at `callTime`: the first fresh entry
      is discarded and the next `n` are returned. */
  function GetScansOf(s: Side, callTime: int, n: nat): (r: (Result<seq<Waveform>>, Side))
    ensures r.0.Ok? ==> |r.0.value| == n
  {
    var (first, next) := SkipStale(s, callTime);
    if first.Err? then (Err(first.error), next) else TakeScans(next, n)
  }

  /** The waveforms of a run of entries. */
  function WaveformsOf(q: seq<Stamped>): (r: seq<Waveform>)
    ensures |r| == |q| && forall i :: 0 <= i < |q| ==> r[i] == q[i].waveform
  {
    seq(|q|, i requires 0 <= i < |q| => q[i].waveform)
  }

  /** Reading `n` entries from a queue that holds them takes the oldest `n`. */
  lemma {:induction false} TakeFromQueue(s: Side, n: nat)
    requires n <= |s.queue|
    ensures TakeScans(s, n) == (Ok(WaveformsOf(s.queue[..n])), s.(queue := s.queue[n..]))
    decreases n
  {
    if n > 0 {
      var next := s.(queue := s.queue[1..]);
      TakeFromQueue(next, n - 1);
      assert s.queue[1..][n - 1..] == s.queue[n..];
      assert [s.queue[0].waveform] + WaveformsOf(s.queue[1..][..n - 1]) == WaveformsOf(s.queue[..n]);
    }
  }

  /** Skipping from a queue whose first fresh entry is at `j` takes the
      entries up to and including it. */
  lemma {:induction false} SkipInQueue(s: Side, callTime: int, j: nat)
    requires j < |s.queue| && s.queue[j].timestamp >= callTime
    requires forall i :: 0 <= i < j ==> s.queue[i].timestamp < callTime
    ensures SkipStale(s, callTime) == (Ok(s.queue[j]), s.(queue := s.queue[j + 1..]))
    decreases j
  {
    var next := s.(queue := s.queue[1..]);
    if j > 0 {
      SkipInQueue(next, callTime, j - 1);
      assert s.queue[1..][j..] == s.queue[j + 1..];
    }
  }

  /** `get_scans(n)` on a queue holding a fresh entry at `j` and `n` more
      after it: stale entries and the first fresh one are dropped, exactly
      the `n` entries after it are returned in order, and the rest stay. */
  lemma GetScansFromQueue(s: Side, callTime: int, n: nat, j: nat)
    requires j + 1 + n <= |s.queue| && s.queue[j].timestamp >= callTime
    requires forall i :: 0 <= i < j ==> s.queue[i].timestamp < callTime
    ensures GetScansOf(s, callTime, n)
      == (Ok(WaveformsOf(s.queue[j + 1..j + 1 + n])), s.(queue := s.queue[j + 1 + n..]))
  {
    SkipInQueue(s, callTime, j);
    var next := s.(queue := s.queue[j + 1..]);
    TakeFromQueue(next, n);
    assert s.queue[j + 1..][..n] == s.queue[j + 1..j + 1 + n];
    assert s.queue[j + 1..][n..] == s.queue[j + 1 + n..];
  }

  /** `_AsyncScanner`. `shared` and `conn` exist once `start_scan` has run. */
  class AsyncScanner {
    const queueMaxsize: int
    var isScanning: bool
    var shared: SharedQueue?
    var conn: HealthPipe?
    var stopSignal: bool
    var workerClosed: bool

    constructor (queueMaxsize: int)
      ensures this.queueMaxsize == queueMaxsize && !isScanning && shared == null && conn == null
    {
      this.queueMaxsize := queueMaxsize;
      isScanning := false;
      shared := null;
      conn := null;
      stopSignal := false;
      workerClosed := false;
    }

    predicate Started()
      reads this
    {
      shared != null && conn != null
    }

    function Snapshot(): Side
      requires Started()
      reads this, shared, conn
    {
      Side(isScanning, shared.items, conn.messages)
    }

    /** `start_scan`: a fresh queue and pipe for a new worker; `arrived`
        is what the worker has sent when the startup wait ends. */
    method StartScan(arrived: seq<Health>) returns (r: Result<()>)
      modifies this
      ensures Started() && fresh(shared) && fresh(conn)
      ensures shared.maxsize == queueMaxsize && shared.items == []
      ensures (r, isScanning) == StartOutcome(arrived)
      ensures !isScanning ==> stopSignal && workerClosed
      ensures conn.messages == if arrived == [] then [] else arrived[1..]
    {
      shared := new SharedQueue(queueMaxsize);
      conn := new HealthPipe(arrived);
      stopSignal := false;
      workerClosed := false;
      var ready := conn.Poll();
      if !ready {
        StopScan();
        return Err(TimeoutError(ScannerTimedOut));
      }
      var msg := conn.Recv();
      if msg.isHealthy && msg.isAlive {
        isScanning := true;
      } else {
        StopScan();
      }
      if msg.error.Some? {
        return Err(msg.error.value);
      }
      r := Ok(());
    }

    /** `stop_scan`: signals the worker, waits for it and closes it. */
    method StopScan()
      modifies this
      ensures !isScanning && stopSignal && workerClosed
      ensures shared == old(shared) && conn == old(conn)
    {
      stopSignal := true;
      workerClosed := true;
      isScanning := false;
    }

    /** `_get_scan`. */
    method GetScan() returns (r: Result<Stamped>)
      requires Started()
      modifies this, shared, conn
      ensures Started() && shared == old(shared) && conn == old(conn)
      ensures (r, Snapshot()) == GetScanStep(old(Snapshot()))
    {
      var got := shared.GetNowait();
      if got.Ok? {
        return got;
      }
      var ready := conn.Poll();
      if ready {
        var msg := conn.Recv();
        if !msg.isAlive {
          isScanning := false;
        }
        if msg.error.Some? {
          return Err(msg.error.value);
        }
      }
      r := Err(Empty(""));
    }

    /** `get_scans(n)`, the clock reading `callTime` when it is called. */
    method GetScans(n: nat, callTime: int) returns (r: Result<seq<Waveform>>)
      requires Started()
      modifies this, shared, conn
      ensures Started() && shared == old(shared) && conn == old(conn)
      ensures (r, Snapshot()) == GetScansOf(old(Snapshot()), callTime, n)
    {
      var stamped := GetScan();
      if stamped.Err? {
        return Err(stamped.error);
      }
      while stamped.value.timestamp < callTime
        invariant Started() && shared == old(shared) && conn == old(conn) && stamped.Ok?
        invariant SkipStale(old(Snapshot()), callTime) == SkipFrom(stamped.value, Snapshot(), callTime)
        decreases |shared.items|
      {
        stamped := GetScan();
        if stamped.Err? {
          return Err(stamped.error);
        }
      }
      ghost var first := Snapshot();
      var waveforms: seq<Waveform> := [];
      PrependNothing(TakeScans(first, n));
      for i := 0 to n
        invariant Started() && shared == old(shared) && conn == old(conn)
        invariant TakeScans(first, n) == Prepend(waveforms, TakeScans(Snapshot(), n - i))
      {
        ghost var before := Snapshot();
        var got := GetScan();
        if got.Err? {
          return Err(got.error);
        }
        PrependTwice(waveforms, [got.value.waveform], TakeScans(Snapshot(), n - i - 1));
        waveforms := waveforms + [got.value.waveform];
      }
      assert waveforms + [] == waveforms;
      r := Ok(waveforms);
    }
  }
}
