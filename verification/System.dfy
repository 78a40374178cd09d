/**
 The server as a state machine. Clients, the reaper, the compactor, replicas and the
 clock take steps in any order; writeMu is the job field. History fields record
 what happened so that invariants can speak of it; no step reads them.
 */
module System {
  import opened Bytes
  import opened Resp
  import opened Keyspace
  import opened Commands
  import opened Images
  import opened Store
  import opened Snapshots
  import opened Rewrite
  import opened Replication
  import Aof

  /** Who holds writeMu and how far it got. */
  datatype Job =
    | Idle
    | Writing(req: Value, keys: seq<bytes>, op: Op, next: nat, failed: bool)
    | Appending(req: Value)
    | Shipping(req: Value)
    | Copying(shard: nat, started: Time, records: seq<Record>, missed: set<bytes>)
    | Staged(cmds: seq<Value>, missed: set<bytes>)

  /** One replica's feed. start is how many writes had been propagated when it registered. */
  datatype Feed = Feed(start: nat, delivered: seq<Value>, queue: seq<Value>, lost: bool, closed: bool)

  datatype State = State(
    ks: Keyspace,
    now: Time,
    job: Job,
    mode: Aof.FsyncMode,
    file: bytes,              // the log at its path
    feeds: map<nat, Feed>,    // every feed ever added
    registered: set<nat>,     // the ones Propagate can find
    nextId: nat,
    panicked: bool,           // a send met a closed queue
    stuck: bool,              // appends no longer reach the file: one failed and bufio.Writer keeps failing, or its handle is stale
    doubtful: bool,           // an fsync failed: no later one is trusted until the file is replaced
    // history
    logged: seq<Value>,       // the commands the file holds whole
    torn: bytes,              // what the failed append left behind them
    lost: Value,              // the command it was writing
    durable: nat,             // how many of them are synced
    snap: nat,                // how many of them came from the last compaction
    writes: seq<Value>,       // every successful write, appended or not
    base: nat,                // how many of them preceded the last compaction
    began: nat,               // how many of them preceded this run
    sent: seq<Value>,         // the writes propagated so far
    stale: set<bytes>,        // keys whose deadline was reached and that were not reset or compacted since
    ever: set<bytes>          // keys whose deadline was ever reached
  )

  datatype Step =
    | Begin(req: Value) | KeyStep | Conclude | Append | AppendUnsynced | AppendFails(part: bytes) | Ship
    | Unlogged(req: Value) | EvictKey(key: bytes) | Tick(t: Time) | Fsync | FsyncFails
    | StartRewrite | CopyNext(recs: seq<Record>) | Stage(clock: nat -> Time) | Swap | SwapUnopened | Abandon
    | AddReplica | Unregister(id: nat) | Close(id: nat) | Heartbeat | Deliver(id: nat)

  // ------------------------------------------------------------------ steps

  /** The keys whose deadline lies between now and t. */
  function Due(s: State, t: Time): set<bytes> {
    set k | k in s.ks && !Expired(s.ks[k], s.now) && Expired(s.ks[k], t)
  }

  function Missing(job: Job, due: set<bytes>): Job {
    match job
    case Copying(shard, started, records, missed) => Copying(shard, started, records, missed + due)
    case Staged(cmds, missed) => Staged(cmds, missed + due)
    case _ => job
  }

  function Send(f: Feed, v: Value): Feed {
    f.(queue := Offer(f.queue, v), lost := f.lost || (|f.queue| >= QUEUE_CAP && !IsHeartbeat(v)))
  }

  /** The head of the queue has been written to the replica's socket. */
  function HandedOn(f: Feed): Feed
    requires f.queue != []
  {
    f.(delivered := f.delivered + [f.queue[0]], queue := f.queue[1..])
  }

  function Propagated(s: State, v: Value): map<nat, Feed> {
    map id | id in s.feeds :: if id in s.registered then Send(s.feeds[id], v) else s.feeds[id]
  }

  predicate MeetsClosed(s: State) {
    exists id :: id in s.registered && id in s.feeds && s.feeds[id].closed
  }

  /** What a copied shard holds: one exact copy of each of its keys not expired when the snapshot began. */
  ghost predicate ShardCopy(route: bytes -> nat, s: State, recs: seq<Record>)
    requires s.job.Copying?
  {
    && Distinct(recs) && AllCopies(recs, s.ks) && AllPaired(recs) && AllFit(recs)
    && forall k :: k in KeysOf(recs) <==> k in s.ks && Index(route, k) == s.job.shard && !Expired(s.ks[k], s.job.started)
  }

  ghost predicate Enabled(route: bytes -> nat, s: State, step: Step) {
    match step
    case Begin(req) => s.job.Idle? && WellFormed(req) && IsWrite(NameIn(req)) && PlanOf(req).On?
    case KeyStep => s.job.Writing? && s.job.next < |s.job.keys|
    case Conclude => s.job.Writing? && s.job.next == |s.job.keys|
    case Append => s.job.Appending? && !s.stuck
    case AppendUnsynced => s.job.Appending? && !s.stuck && s.mode.Always?
    case AppendFails(part) => s.job.Appending? && part < Encode(s.job.req) && (s.stuck ==> part == [])
    case Ship => s.job.Shipping?
    case Unlogged(req) => !IsWrite(NameIn(req)) || !PlanOf(req).On?
    case EvictKey(k) => k in s.ks && Expired(s.ks[k], s.now)
    case Tick(t) => s.now <= t
    case Fsync => s.mode.EverySec?
    case FsyncFails => s.mode.EverySec?
    case StartRewrite => s.job.Idle?
    case CopyNext(recs) => s.job.Copying? && s.job.shard < SHARD_COUNT && ShardCopy(route, s, recs)
    case Stage(_) => s.job.Copying? && s.job.shard == SHARD_COUNT && AllPaired(s.job.records)
    case Swap => s.job.Staged?
    case SwapUnopened => s.job.Staged?
    case Abandon => s.job.Copying? || s.job.Staged?
    case AddReplica => true
    case Unregister(id) => id in s.registered
    case Close(id) => id in s.feeds && id !in s.registered && !s.feeds[id].closed
    case Heartbeat => true
    case Deliver(id) => id in s.feeds && s.feeds[id].queue != []
  }

  /** A whole frame has reached the file, and the platter if synced. */
  function Appended(s: State, req: Value, synced: bool): State {
    s.(job := Shipping(req), file := s.file + Encode(req), logged := s.logged + [req], writes := s.writes + [req],
       durable := if synced then |s.logged| + 1 else s.durable)
  }

  /** The rename has put the compacted log in place of the old one. */
  function Swapped(s: State, cmds: seq<Value>, missed: set<bytes>): State {
    s.(job := Idle, file := EncodeAll(cmds), stuck := false, doubtful := false, logged := cmds, torn := [], durable := |cmds|,
       snap := |cmds|, base := |s.writes|, stale := missed)
  }

  /** SwapUnopened is a compaction whose new log could not be reopened: appends go on to the unlinked old file. */
  function Next(s: State, step: Step): State
    requires step.KeyStep? ==> s.job.Writing? && s.job.next < |s.job.keys|
    requires step.Conclude? ==> s.job.Writing?
    requires step.Append? || step.AppendUnsynced? || step.AppendFails? ==> s.job.Appending?
    requires step.Ship? ==> s.job.Shipping?
    requires step.CopyNext? ==> s.job.Copying?
    requires step.Stage? ==> s.job.Copying? && AllPaired(s.job.records)
    requires step.Swap? || step.SwapUnopened? ==> s.job.Staged?
    requires step.Close? ==> step.id in s.feeds
    requires step.Deliver? ==> step.id in s.feeds && s.feeds[step.id].queue != []
  {
    match step
    case Begin(req) =>
      if PlanOf(req).On? then s.(job := Writing(req, PlanOf(req).keys, PlanOf(req).op, 0, false)) else s
    case KeyStep =>
      var k, op := s.job.keys[s.job.next], s.job.op;
      var (after, o) := Act(s.ks, k, op, s.now);
      s.(ks := after,
         job := s.job.(next := s.job.next + 1, failed := s.job.failed || o.WrongType?),
         stale := if Forgets(op) then s.stale - {k} else s.stale)
    case Conclude => s.(job := if s.job.failed then Idle else Appending(s.job.req))
    case Append => Appended(s, s.job.req, s.mode.Always? && !s.doubtful)
    case AppendUnsynced => Appended(s, s.job.req, false).(doubtful := true)
    case AppendFails(part) =>
      s.(job := Shipping(s.job.req),
         file := s.file + part,
         stuck := true,
         torn := s.torn + part,
         lost := if s.stuck then s.lost else s.job.req,
         writes := s.writes + [s.job.req])
    case Ship =>
      s.(job := Idle, sent := s.sent + [s.job.req],
         feeds := Propagated(s, s.job.req), panicked := s.panicked || MeetsClosed(s))
    case Unlogged(req) => s.(ks := Dispatch(s.ks, req, s.now).0)
    case EvictKey(k) => s.(ks := Put(s.ks, k, Visible(Lookup(s.ks, k), s.now)))
    case Tick(t) =>
      s.(now := t, job := Missing(s.job, Due(s, t)), stale := s.stale + Due(s, t), ever := s.ever + Due(s, t))
    case Fsync => if s.doubtful then s else s.(durable := |s.logged|)
    case FsyncFails => s.(doubtful := true)
    case StartRewrite => s.(job := Copying(0, s.now, [], {}))
    case CopyNext(recs) => s.(job := s.job.(shard := s.job.shard + 1, records := s.job.records + recs))
    case Stage(clock) => s.(job := Staged(SnapshotCmds(s.job.records, clock), s.job.missed))
    case Swap => Swapped(s, s.job.cmds, s.job.missed)
    case SwapUnopened => Swapped(s, s.job.cmds, s.job.missed).(stuck := true, lost := NullBulk)
    case Abandon => s.(job := Idle)
    case AddReplica =>
      var id := s.nextId;
      s.(feeds := s.feeds[id := Feed(|s.sent|, [], [], false, false)], registered := s.registered + {id}, nextId := id + 1)
    case Unregister(id) => s.(registered := s.registered - {id})
    case Close(id) => s.(feeds := s.feeds[id := s.feeds[id].(closed := true)])
    case Heartbeat => s.(feeds := Propagated(s, PingCommand()), panicked := s.panicked || MeetsClosed(s))
    case Deliver(id) => s.(feeds := s.feeds[id := HandedOn(s.feeds[id])])
  }

  /**
   A start from the log cmds: replayed at instants clock until now, with the first
   synced of its commands known to be on disk. late are keys that may have met a
   deadline on the way.
   */
  datatype Start = Start(cmds: seq<Value>, clock: nat -> Time, now: Time, mode: Aof.FsyncMode, synced: nat, late: set<bytes>)

  function Boot(b: Start): State {
    State(RunAt(map[], b.cmds, b.clock), b.now, Idle, b.mode, EncodeAll(b.cmds), map[], {}, 0, false, false, false,
          b.cmds, [], NullBulk, b.synced, 0, b.cmds, 0, |b.cmds|, b.cmds, b.late, b.late)
  }

  /** A log of whole frames, and the replay was calm on every key but the late ones. */
  ghost predicate CleanBoot(b: Start) {
    && AllWellFormed(b.cmds) && b.synced <= |b.cmds|
    && (forall k :: k !in b.late ==> CalmAt(b.cmds, b.clock, k))
    && (forall k :: k !in b.late ==> NotExpiredAt(RunAt(map[], b.cmds, b.clock), k, b.now))
  }

  /** What a power loss may leave of the file: its synced commands and any part of the rest. */
  predicate Survives(s: State, p: bytes) {
    s.durable <= |s.logged| && p <= s.file && |EncodeAll(s.logged[..s.durable])| <= |p|
  }

  /** A run: any interleaving of enabled steps. */
  ghost predicate IsRun(route: bytes -> nat, states: seq<State>, steps: seq<Step>) {
    && |states| == |steps| + 1
    && forall i :: 0 <= i < |steps| ==> Enabled(route, states[i], steps[i]) && states[i + 1] == Next(states[i], steps[i])
  }
}
