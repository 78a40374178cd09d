/**
 What the log is worth in every reachable state: with writeMu free it replays to
 exactly the live keyspace, on every key whose deadline has not been reached since
 it was last set, deleted or compacted.
 */
module LogSafety {
  import opened Bytes
  import opened Resp
  import opened Keyspace
  import opened Commands
  import opened Images
  import opened Log
  import opened Store
  import opened Snapshots
  import opened Rewrite
  import opened System

  // ------------------------------------------------------------------ the invariant

  /** What the write in progress adds to an image; a failed one adds nothing. */
  function Pending(job: Job, img: Image): Image {
    match job
    case Writing(req, keys, op, next, failed) =>
      if failed || next > |keys| then img else UntimedAll(img, keys[..next], op)
    case Appending(req) => UntimedDispatch(img, req)
    case _ => img
  }

  function Replayed(s: State): Image {
    UntimedRun(map[], s.logged)
  }

  ghost predicate LogAgrees(s: State, k: bytes) {
    !s.stuck && k !in s.stale ==> Lookup(Pending(s.job, Replayed(s)), k) == ViewAt(s.ks, s.now, k)
  }

  ghost predicate HistoryAgrees(s: State, k: bytes) {
    k !in s.ever ==> Lookup(Pending(s.job, UntimedRun(map[], s.writes)), k) == ViewAt(s.ks, s.now, k)
  }

  ghost predicate SnapAgrees(s: State, k: bytes)
    requires s.snap <= |s.logged| && s.base <= |s.writes|
  {
    k !in s.ever ==> Lookup(UntimedRun(map[], s.logged[..s.snap]), k) == Lookup(UntimedRun(map[], s.writes[..s.base]), k)
  }

  ghost predicate CopyAgrees(route: bytes -> nat, s: State, k: bytes) {
    match s.job
    case Copying(shard, started, records, missed) =>
      && AllPaired(records)
      && (k in KeysOf(records) ==> Index(route, k) < shard)
      && (k !in missed && Index(route, k) < shard ==> Lookup(RecordsImage(records), k) == ViewAt(s.ks, s.now, k))
      && (k !in missed && k in s.ks && !Expired(s.ks[k], started) ==> !Expired(s.ks[k], s.now))
    case Staged(cmds, missed) => k !in missed ==> Lookup(UntimedRun(map[], cmds), k) == ViewAt(s.ks, s.now, k)
    case _ => true
  }

  /** The commands leave k the same however slowly they are replayed. */
  ghost predicate Steady(cmds: seq<Value>, k: bytes) {
    forall replay: nat -> Time :: ShapeOf(Lookup(RunAt(map[], cmds, replay), k)) == Lookup(UntimedRun(map[], cmds), k)
  }

  ghost predicate JobForm(s: State) {
    match s.job
    case Idle => true
    case Writing(req, keys, op, next, failed) =>
      && WellFormed(req) && PlanOf(req) == On(keys, op) && next <= |keys| && (failed ==> next == |keys|)
      && (|keys| == 1 || op.Del? || op.Exists?) && Sane(op) && Mutates(op)
    case Appending(req) => WellFormed(req)
    case Shipping(req) => true
    case Copying(shard, started, records, missed) =>
      && shard <= SHARD_COUNT && started <= s.now && missed <= s.stale
      && Distinct(records) && AllPaired(records) && AllFit(records) && AllRecordsFilled(records)
    case Staged(cmds, missed) => AllWellFormed(cmds) && missed <= s.stale && forall k :: Steady(cmds, k)
  }

  /** The log past its snapshot is the history since then, up to the first append that failed. */
  ghost predicate LogForm(s: State) {
    && AllWellFormed(s.logged) && s.file == EncodeAll(s.logged) + s.torn
    && (if s.stuck then WellFormed(s.lost) && s.torn < Encode(s.lost) else s.torn == [])
    && s.snap <= s.durable <= |s.logged| && s.base + (|s.logged| - s.snap) <= |s.writes|
    && s.logged[s.snap..] == s.writes[s.base..s.base + (|s.logged| - s.snap)]
    && (!s.stuck ==> s.base + (|s.logged| - s.snap) == |s.writes|)
    && s.began <= |s.writes| && (!s.stuck && !s.doubtful && s.mode.Always? ==> s.durable == |s.logged| || |s.writes| == s.began)
  }

  ghost predicate Form(s: State) {
    AllFilled(s.ks) && LogForm(s) && s.stale <= s.ever && JobForm(s)
  }

  ghost predicate KeyInv(route: bytes -> nat, s: State, k: bytes)
    requires s.snap <= |s.logged| && s.base <= |s.writes|
  {
    LogAgrees(s, k) && HistoryAgrees(s, k) && SnapAgrees(s, k) && CopyAgrees(route, s, k)
  }

  ghost predicate Inv(route: bytes -> nat, s: State) {
    Form(s) && forall k :: KeyInv(route, s, k)
  }

  // ------------------------------------------------------------------ booting

  lemma BootInv(route: bytes -> nat, b: Start)
    requires CleanBoot(b)
    ensures Inv(route, Boot(b))
  {
    var s := Boot(b);
    RunAtFills(b.cmds, b.clock);
    assert s.logged[0..] == s.writes[0..|s.writes|] && s.file + [] == s.file;
    forall k
      ensures KeyInv(route, s, k)
    {
      if k !in b.late {
        CalmUntimed(b.cmds, b.clock, k);
        assert NotExpiredAt(s.ks, k, b.now);
      }
      assert s.logged[..0] == s.writes[..0];
    }
  }

  lemma {:induction false} RunAtFills(cmds: seq<Value>, clock: nat -> Time)
    ensures AllFilled(RunAt(map[], cmds, clock))
  {
    if cmds != [] {
      var n := |cmds| - 1;
      RunAtFills(cmds[..n], clock);
      DispatchFills(RunAt(map[], cmds[..n], clock), cmds[n], clock(n));
    }
  }

  // ------------------------------------------------------------------ the write path

  /** One key of the write in progress: the image and the store move together. */
  lemma PendingKey(img: Image, keys: seq<bytes>, next: nat, op: Op, ks: Keyspace, now: Time, k: bytes)
    requires next < |keys|
    requires Lookup(UntimedAll(img, keys[..next], op), k) == ViewAt(ks, now, k) || (Forgets(op) && k == keys[next])
    ensures Lookup(UntimedAll(img, keys[..next + 1], op), k) == ViewAt(Act(ks, keys[next], op, now).0, now, k)
  {
    assert keys[..next + 1][..next] == keys[..next];
    ActView(ks, keys[next], op, now, k);
    ForgetsAll(op, Lookup(UntimedAll(img, keys[..next], op), k), ViewAt(ks, now, k));
  }

  lemma ForgetsAll(op: Op, a: Option<Shape>, b: Option<Shape>)
    ensures Forgets(op) ==> Untimed(op, a) == Untimed(op, b)
  {
  }

  /** A write refused for its key's type leaves the view of every key as it was. */
  lemma FailedKey(ks: Keyspace, key: bytes, op: Op, now: Time, k: bytes)
    requires Act(ks, key, op, now).1.WrongType?
    ensures ViewAt(Act(ks, key, op, now).0, now, k) == ViewAt(ks, now, k)
  {
    RunKeeps(op, Visible(Lookup(ks, key), now), now);
  }

  lemma CountsNeverFail(ks: Keyspace, key: bytes, op: Op, now: Time)
    requires op.Del? || op.Exists?
    ensures !Act(ks, key, op, now).1.WrongType?
  {
  }

  lemma ForgetsNeverFails(ks: Keyspace, key: bytes, op: Op, now: Time)
    requires Act(ks, key, op, now).1.WrongType?
    ensures !Forgets(op) && !op.Del? && !op.Exists?
  {
  }

  lemma BeginKeeps(route: bytes -> nat, s: State, req: Value)
    requires Inv(route, s) && Enabled(route, s, Begin(req))
    ensures Inv(route, Next(s, Begin(req)))
  {
    var t := Next(s, Begin(req));
    NothingPending(t.job, Replayed(s));
    NothingPending(t.job, UntimedRun(map[], s.writes));
    forall k
      ensures KeyInv(route, t, k)
    {
      assert KeyInv(route, s, k);
    }
  }

  lemma NothingPending(job: Job, img: Image)
    requires job.Writing? && job.next == 0
    ensures Pending(job, img) == img
  {
    assert job.keys[..0] == [];
  }

  lemma KeyStepKeeps(route: bytes -> nat, s: State)
    requires Inv(route, s) && Enabled(route, s, KeyStep)
    ensures Inv(route, Next(s, KeyStep))
  {
    var t := Next(s, KeyStep);
    var Writing(req, keys, op, next, _) := s.job;
    ActFills(s.ks, keys[next], op, s.now);
    if t.job.failed && (op.Del? || op.Exists?) {
      CountsNeverFail(s.ks, keys[next], op, s.now);
    }
    forall k
      ensures KeyInv(route, t, k)
    {
      assert KeyInv(route, s, k);
      KeyStepAt(s, k);
    }
  }

  lemma KeyStepAt(s: State, k: bytes)
    requires s.job.Writing? && JobForm(s) && s.job.next < |s.job.keys|
    requires LogAgrees(s, k) && HistoryAgrees(s, k)
    ensures LogAgrees(Next(s, KeyStep), k) && HistoryAgrees(Next(s, KeyStep), k)
  {
    if Act(s.ks, s.job.keys[s.job.next], s.job.op, s.now).1.WrongType? {
      KeyStepFails(s, k);
    } else {
      KeyStepSucceeds(s, k);
    }
  }

  lemma KeyStepFails(s: State, k: bytes)
    requires s.job.Writing? && JobForm(s) && s.job.next < |s.job.keys|
    requires Act(s.ks, s.job.keys[s.job.next], s.job.op, s.now).1.WrongType?
    requires LogAgrees(s, k) && HistoryAgrees(s, k)
    ensures LogAgrees(Next(s, KeyStep), k) && HistoryAgrees(Next(s, KeyStep), k)
  {
    var key, op := s.job.keys[s.job.next], s.job.op;
    ForgetsNeverFails(s.ks, key, op, s.now);
    FailedKey(s.ks, key, op, s.now, k);
    assert s.job.keys[..0] == [];
    assert UntimedAll(Replayed(s), [], op) == Replayed(s);
    assert UntimedAll(UntimedRun(map[], s.writes), [], op) == UntimedRun(map[], s.writes);
  }

  lemma KeyStepSucceeds(s: State, k: bytes)
    requires s.job.Writing? && JobForm(s) && s.job.next < |s.job.keys|
    requires !Act(s.ks, s.job.keys[s.job.next], s.job.op, s.now).1.WrongType?
    requires LogAgrees(s, k) && HistoryAgrees(s, k)
    ensures LogAgrees(Next(s, KeyStep), k) && HistoryAgrees(Next(s, KeyStep), k)
  {
    LogKeyStep(s, k);
    HistoryKeyStep(s, k);
  }

  lemma PendingNext(job: Job, img: Image)
    requires job.Writing? && !job.failed && job.next < |job.keys|
    ensures Pending(job, img) == UntimedAll(img, job.keys[..job.next], job.op)
    ensures Pending(job.(next := job.next + 1), img) == UntimedAll(img, job.keys[..job.next + 1], job.op)
  {
  }

  lemma KeyStepped(s: State)
    requires s.job.Writing? && JobForm(s) && s.job.next < |s.job.keys|
    requires !Act(s.ks, s.job.keys[s.job.next], s.job.op, s.now).1.WrongType?
    ensures var t, next := Next(s, KeyStep), s.job.next;
            && t.job == s.job.(next := next + 1) && !s.job.failed && t.ks == Act(s.ks, s.job.keys[next], s.job.op, s.now).0
            && t.stale == (if Forgets(s.job.op) then s.stale - {s.job.keys[next]} else s.stale)
            && t.now == s.now && t.logged == s.logged && t.writes == s.writes && t.stuck == s.stuck && t.ever == s.ever
  {
  }

  lemma LogKeyStep(s: State, k: bytes)
    requires s.job.Writing? && JobForm(s) && s.job.next < |s.job.keys| && LogAgrees(s, k)
    requires !Act(s.ks, s.job.keys[s.job.next], s.job.op, s.now).1.WrongType?
    ensures LogAgrees(Next(s, KeyStep), k)
  {
    var keys, op, next := s.job.keys, s.job.op, s.job.next;
    KeyStepped(s);
    PendingNext(s.job, Replayed(s));
    if !s.stuck && (k !in s.stale || (Forgets(op) && k == keys[next])) {
      PendingKey(Replayed(s), keys, next, op, s.ks, s.now, k);
    }
  }

  lemma HistoryKeyStep(s: State, k: bytes)
    requires s.job.Writing? && JobForm(s) && s.job.next < |s.job.keys| && HistoryAgrees(s, k)
    requires !Act(s.ks, s.job.keys[s.job.next], s.job.op, s.now).1.WrongType?
    ensures HistoryAgrees(Next(s, KeyStep), k)
  {
    KeyStepped(s);
    PendingNext(s.job, UntimedRun(map[], s.writes));
    if k !in s.ever {
      PendingKey(UntimedRun(map[], s.writes), s.job.keys, s.job.next, s.job.op, s.ks, s.now, k);
    }
  }

  lemma ConcludeKeeps(route: bytes -> nat, s: State)
    requires Inv(route, s) && Enabled(route, s, Conclude)
    ensures Inv(route, Next(s, Conclude))
  {
    var t := Next(s, Conclude);
    forall k
      ensures KeyInv(route, t, k)
    {
      assert KeyInv(route, s, k);
      Concluded(s.job, Replayed(s));
      Concluded(s.job, UntimedRun(map[], s.writes));
    }
  }

  lemma Concluded(job: Job, img: Image)
    requires job.Writing? && job.next == |job.keys| && PlanOf(job.req) == On(job.keys, job.op)
    ensures Pending(if job.failed then Idle else Appending(job.req), img) == Pending(job, img)
  {
    assert job.keys[..|job.keys|] == job.keys;
    PlanImage(img, job.req, job.keys, job.op);
  }

  lemma AppendKeeps(route: bytes -> nat, s: State, step: Step)
    requires Inv(route, s) && Enabled(route, s, step) && (step.Append? || step.AppendUnsynced?)
    ensures Inv(route, Next(s, step))
  {
    var t := Next(s, step);
    AppendForm(s, step);
    forall k
      ensures KeyInv(route, t, k)
    {
      assert KeyInv(route, s, k);
      AppendAt(s, step, k);
    }
  }

  lemma AppendAt(s: State, step: Step, k: bytes)
    requires s.job.Appending? && s.snap <= |s.logged| && s.base <= |s.writes| && (step.Append? || step.AppendUnsynced?)
    requires LogAgrees(s, k) && HistoryAgrees(s, k) && SnapAgrees(s, k)
    ensures LogAgrees(Next(s, step), k) && HistoryAgrees(Next(s, step), k) && SnapAgrees(Next(s, step), k)
  {
    var req := s.job.req;
    PrefixSnoc(s.logged, s.snap, req);
    PrefixSnoc(s.writes, s.base, req);
    UntimedRunSnoc(map[], s.logged, req);
    UntimedRunSnoc(map[], s.writes, req);
  }

  lemma AppendForm(s: State, step: Step)
    requires LogForm(s) && s.job.Appending? && WellFormed(s.job.req) && !s.stuck && (step.Append? || step.AppendUnsynced?)
    ensures LogForm(Next(s, step))
  {
    if step.Append? {
      AppendedForm(s, s.job.req, s.mode.Always? && !s.doubtful, s.doubtful);
    } else {
      AppendedForm(s, s.job.req, false, true);
    }
  }

  lemma AppendedForm(s: State, req: Value, synced: bool, doubtful: bool)
    requires LogForm(s) && WellFormed(req) && !s.stuck && (s.mode.Always? && !doubtful ==> synced)
    ensures LogForm(Appended(s, req, synced).(doubtful := doubtful))
  {
    EncodeAllConcat(s.logged, [req]);
    EncodeAllOne(req);
    WholeSeq(EncodeAll(s.logged));
    WholeSeq(s.file + Encode(req));
    GrownAlike(s.logged, s.snap, s.writes, s.base, req);
  }

  lemma GrownAlike(logged: seq<Value>, snap: nat, writes: seq<Value>, base: nat, req: Value)
    requires snap <= |logged| && base + (|logged| - snap) == |writes| && logged[snap..] == writes[base..|writes|]
    ensures (logged + [req])[snap..] == (writes + [req])[base..|writes| + 1]
  {
    SuffixSnoc(logged, snap, req);
    SuffixSnoc(writes, base, req);
    assert writes[base..|writes|] == writes[base..] && (writes + [req])[base..|writes| + 1] == (writes + [req])[base..];
  }

  /** A failed append costs the log every write from then on, and nothing before. */
  lemma AppendFailsKeeps(route: bytes -> nat, s: State, part: bytes)
    requires Inv(route, s) && Enabled(route, s, AppendFails(part))
    ensures Inv(route, Next(s, AppendFails(part)))
  {
    var t := Next(s, AppendFails(part));
    AppendFailsForm(s, part);
    forall k
      ensures KeyInv(route, t, k)
    {
      assert KeyInv(route, s, k);
      AppendFailsAt(s, part, k);
    }
  }

  lemma AppendFailsAt(s: State, part: bytes, k: bytes)
    requires s.job.Appending? && s.snap <= |s.logged| && s.base <= |s.writes| && HistoryAgrees(s, k) && SnapAgrees(s, k)
    ensures HistoryAgrees(Next(s, AppendFails(part)), k) && SnapAgrees(Next(s, AppendFails(part)), k)
  {
    assert (s.writes + [s.job.req])[..s.base] == s.writes[..s.base];
    UntimedRunSnoc(map[], s.writes, s.job.req);
  }

  lemma AppendFailsForm(s: State, part: bytes)
    requires LogForm(s) && s.job.Appending? && WellFormed(s.job.req) && part < Encode(s.job.req) && (s.stuck ==> part == [])
    ensures LogForm(Next(s, AppendFails(part)))
  {
    var t, n := Next(s, AppendFails(part)), s.base + (|s.logged| - s.snap);
    TornGrows(EncodeAll(s.logged), s.torn, part);
    assert t.torn == if s.stuck then s.torn else part;
    SliceKept(s.writes, s.base, n, s.job.req);
  }

  lemma SliceKept(writes: seq<Value>, base: nat, n: nat, req: Value)
    requires base <= n <= |writes|
    ensures (writes + [req])[base..n] == writes[base..n]
  {
  }

  lemma TornGrows(whole: bytes, torn: bytes, part: bytes)
    ensures (whole + torn) + part == whole + (torn + part) && torn + [] == torn && [] + part == part
  {
  }

  // ------------------------------------------------------------------ time, reads and evictions

  lemma TickView(s: State, t: Time, k: bytes)
    requires s.now <= t && k !in Due(s, t)
    ensures ViewAt(s.ks, t, k) == ViewAt(s.ks, s.now, k)
  {
  }

  lemma TickKeeps(route: bytes -> nat, s: State, t: Time)
    requires Inv(route, s) && s.now <= t
    ensures Inv(route, Next(s, Tick(t)))
  {
    var s' := Next(s, Tick(t));
    forall k
      ensures KeyInv(route, s', k)
    {
      assert KeyInv(route, s, k);
      if k !in Due(s, t) {
        TickView(s, t, k);
      }
    }
  }

  lemma EvictView(ks: Keyspace, now: Time, key: bytes, k: bytes)
    ensures ViewAt(Put(ks, key, Visible(Lookup(ks, key), now)), now, k) == ViewAt(ks, now, k)
  {
  }

  lemma EvictKeeps(route: bytes -> nat, s: State, key: bytes)
    requires Inv(route, s) && Enabled(route, s, EvictKey(key))
    ensures Inv(route, Next(s, EvictKey(key)))
  {
    var t := Next(s, EvictKey(key));
    forall k
      ensures KeyInv(route, t, k)
      ensures k in t.ks ==> Filled(t.ks[k].data)
    {
      assert KeyInv(route, s, k);
      EvictView(s.ks, s.now, key, k);
      assert Lookup(t.ks, k) == if k == key then None else Lookup(s.ks, k);
    }
  }

  lemma UnloggedKeeps(route: bytes -> nat, s: State, req: Value)
    requires Inv(route, s) && Enabled(route, s, Unlogged(req))
    ensures Next(s, Unlogged(req)) == s
  {
    var p := PlanOf(req);
    if p.On? {
      ActAllReads(s.ks, p.keys, p.op, s.now);
    }
  }

  // ------------------------------------------------------------------ compaction

  lemma StartKeeps(route: bytes -> nat, s: State)
    requires Inv(route, s) && Enabled(route, s, StartRewrite)
    ensures Inv(route, Next(s, StartRewrite))
  {
    var t := Next(s, StartRewrite);
    forall k
      ensures KeyInv(route, t, k)
    {
      assert KeyInv(route, s, k);
    }
  }

  lemma CopyForm(s: State, recs: seq<Record>)
    requires Form(s) && s.job.Copying? && AllCopies(recs, s.ks) && AllPaired(recs) && AllFit(recs)
    ensures AllPaired(s.job.records + recs) && AllFit(s.job.records + recs) && AllRecordsFilled(s.job.records + recs)
  {
    forall i | 0 <= i < |recs|
      ensures Filled(DataOf(recs[i].payload))
    {
      assert recs[i].key in s.ks && Copies(recs[i], s.ks[recs[i].key]);
    }
  }

  lemma CopyAt(route: bytes -> nat, s: State, recs: seq<Record>, k: bytes)
    requires Form(s) && s.job.Copying? && s.job.shard < SHARD_COUNT && ShardCopy(route, s, recs)
    requires CopyAgrees(route, s, k)
    ensures CopyAgrees(route, Next(s, CopyNext(recs)), k)
  {
    var records := s.job.records;
    KeysOfConcat(records, recs);
    RecordsImageConcat(records, recs, k);
    RecordsImageAt(recs, s.ks, k);
    RecordsImageKeys(records, k);
  }

  lemma CopyKeeps(route: bytes -> nat, s: State, recs: seq<Record>)
    requires Inv(route, s) && Enabled(route, s, CopyNext(recs))
    ensures Inv(route, Next(s, CopyNext(recs)))
  {
    var t := Next(s, CopyNext(recs));
    CopyForm(s, recs);
    assert KeysOf(s.job.records) !! KeysOf(recs) by {
      forall k | k in KeysOf(s.job.records)
        ensures k !in KeysOf(recs)
      {
        assert KeyInv(route, s, k);
      }
    }
    KeysOfConcat(s.job.records, recs);
    forall k
      ensures KeyInv(route, t, k)
    {
      assert KeyInv(route, s, k);
      CopyAt(route, s, recs, k);
    }
  }

  lemma StageAt(route: bytes -> nat, s: State, cmds: seq<Value>, k: bytes)
    requires s.job.Copying? && s.job.shard == SHARD_COUNT && AllPaired(s.job.records) && CopyAgrees(route, s, k)
    requires UntimedRun(map[], cmds) == RecordsImage(s.job.records)
    ensures CopyAgrees(route, s.(job := Staged(cmds, s.job.missed)), k)
  {
  }

  lemma StageKeeps(route: bytes -> nat, s: State, clock: nat -> Time)
    requires Inv(route, s) && Enabled(route, s, Stage(clock))
    ensures Inv(route, Next(s, Stage(clock)))
  {
    var cmds := SnapshotCmds(s.job.records, clock);
    SnapshotCmdsWellFormed(s.job.records, clock);
    SnapshotRebuilds(s.job.records, clock);
    forall k
      ensures Steady(cmds, k)
    {
      SnapshotSteady(s.job.records, clock, k);
    }
    StagedKeeps(route, s, cmds);
  }

  lemma SnapshotSteady(rs: seq<Record>, clock: nat -> Time, k: bytes)
    requires AllPaired(rs) && AllRecordsFilled(rs) && Distinct(rs)
    ensures Steady(SnapshotCmds(rs, clock), k)
  {
    var cmds := SnapshotCmds(rs, clock);
    SnapshotRebuilds(rs, clock);
    forall replay: nat -> Time
      ensures ShapeOf(Lookup(RunAt(map[], cmds, replay), k)) == Lookup(UntimedRun(map[], cmds), k)
    {
      SnapshotReplays(rs, clock, replay);
      RebuiltShapes(rs, clock, replay, k);
    }
  }

  lemma StagedKeeps(route: bytes -> nat, s: State, cmds: seq<Value>)
    requires Inv(route, s) && s.job.Copying? && s.job.shard == SHARD_COUNT && AllWellFormed(cmds) && forall k :: Steady(cmds, k)
    requires UntimedRun(map[], cmds) == RecordsImage(s.job.records)
    ensures Inv(route, s.(job := Staged(cmds, s.job.missed)))
  {
    var t := s.(job := Staged(cmds, s.job.missed));
    forall k
      ensures KeyInv(route, t, k)
    {
      assert KeyInv(route, s, k);
      StageAt(route, s, cmds, k);
    }
  }

  lemma SwapKeeps(route: bytes -> nat, s: State, step: Step)
    requires Inv(route, s) && Enabled(route, s, step) && (step.Swap? || step.SwapUnopened?)
    ensures Inv(route, Next(s, step))
  {
    var t := Next(s, step);
    assert t.logged[t.snap..] == [] && t.writes[t.base..t.base] == [] && t.file + [] == t.file;
    assert t.logged[..t.snap] == t.logged && t.writes[..t.base] == t.writes;
    EncodeNonEmpty(NullBulk);
    forall k
      ensures KeyInv(route, t, k)
    {
      assert KeyInv(route, s, k);
    }
  }

  lemma FsyncKeeps(route: bytes -> nat, s: State, step: Step)
    requires Inv(route, s) && (step.Fsync? || step.FsyncFails?)
    ensures Inv(route, Next(s, step))
  {
    var t := Next(s, step);
    assert t == s.(durable := t.durable, doubtful := t.doubtful);
    forall k
      ensures KeyInv(route, t, k)
    {
      assert KeyInv(route, s, k);
    }
  }

  /** Giving up a rewrite leaves the log's standing alone. */
  lemma AbandonKeeps(route: bytes -> nat, s: State)
    requires Inv(route, s) && Enabled(route, s, Abandon)
    ensures Inv(route, Next(s, Abandon))
  {
    forall k
      ensures KeyInv(route, Next(s, Abandon), k)
    {
      assert KeyInv(route, s, k);
    }
  }

  /** A state that differs only in its replicas, and in having shipped the write in hand. */
  predicate SameButFeeds(s: State, t: State) {
    && (t.job == s.job || (s.job.Shipping? && t.job.Idle?))
    && t == s.(job := t.job, feeds := t.feeds, registered := t.registered, nextId := t.nextId, panicked := t.panicked, sent := t.sent)
  }

  lemma FeedsKeep(route: bytes -> nat, s: State, t: State)
    requires Inv(route, s) && SameButFeeds(s, t)
    ensures Inv(route, t)
  {
    forall k
      ensures KeyInv(route, t, k)
    {
      assert KeyInv(route, s, k);
    }
  }

  // ------------------------------------------------------------------ every reachable state

  predicate IsWriteStep(step: Step) {
    step.Begin? || step.KeyStep? || step.Conclude? || step.Append? || step.AppendUnsynced? || step.AppendFails?
  }

  predicate IsCompactStep(step: Step) {
    step.StartRewrite? || step.CopyNext? || step.Stage? || step.Swap? || step.SwapUnopened? || step.Abandon?
  }

  lemma WriteStepKeeps(route: bytes -> nat, s: State, step: Step)
    requires Inv(route, s) && Enabled(route, s, step) && IsWriteStep(step)
    ensures Inv(route, Next(s, step))
  {
    if step.Begin? {
      BeginKeeps(route, s, step.req);
    } else if step.KeyStep? {
      KeyStepKeeps(route, s);
    } else if step.Conclude? {
      ConcludeKeeps(route, s);
    } else if step.AppendFails? {
      AppendFailsKeeps(route, s, step.part);
    } else {
      AppendKeeps(route, s, step);
    }
  }

  lemma CompactStepKeeps(route: bytes -> nat, s: State, step: Step)
    requires Inv(route, s) && Enabled(route, s, step) && IsCompactStep(step)
    ensures Inv(route, Next(s, step))
  {
    if step.StartRewrite? {
      StartKeeps(route, s);
    } else if step.CopyNext? {
      CopyKeeps(route, s, step.recs);
    } else if step.Stage? {
      StageKeeps(route, s, step.clock);
    } else if step.Abandon? {
      AbandonKeeps(route, s);
    } else {
      SwapKeeps(route, s, step);
    }
  }

  lemma OtherStepKeeps(route: bytes -> nat, s: State, step: Step)
    requires Inv(route, s) && Enabled(route, s, step) && !IsWriteStep(step) && !IsCompactStep(step)
    ensures Inv(route, Next(s, step))
  {
    if step.Unlogged? {
      UnloggedKeeps(route, s, step.req);
    } else if step.EvictKey? {
      EvictKeeps(route, s, step.key);
    } else if step.Tick? {
      TickKeeps(route, s, step.t);
    } else if step.Fsync? || step.FsyncFails? {
      FsyncKeeps(route, s, step);
    } else {
      FeedsKeep(route, s, Next(s, step));
    }
  }

  lemma StepKeeps(route: bytes -> nat, s: State, step: Step)
    requires Inv(route, s) && Enabled(route, s, step)
    ensures Inv(route, Next(s, step))
  {
    if IsWriteStep(step) {
      WriteStepKeeps(route, s, step);
    } else if IsCompactStep(step) {
      CompactStepKeeps(route, s, step);
    } else {
      OtherStepKeeps(route, s, step);
    }
  }

  lemma {:induction false} RunInv(route: bytes -> nat, states: seq<State>, steps: seq<Step>, i: nat)
    requires IsRun(route, states, steps) && Inv(route, states[0]) && i <= |steps|
    ensures Inv(route, states[i])
  {
    if i > 0 {
      RunInv(route, states, steps, i - 1);
      StepKeeps(route, states[i - 1], steps[i - 1]);
    }
  }

  /** The invariant holds in every state of every run. */
  lemma ReachableInv(route: bytes -> nat, b: Start, states: seq<State>, steps: seq<Step>, i: nat)
    requires CleanBoot(b) && IsRun(route, states, steps) && states[0] == Boot(b) && i <= |steps|
    ensures Inv(route, states[i])
  {
    BootInv(route, b);
    RunInv(route, states, steps, i);
  }

  /** Past dispatch and before append, or in between: the only times the log is behind the store. */
  predicate MidWrite(job: Job) {
    job.Writing? || job.Appending?
  }

  /** Whatever a failed append left at its end, the file reads back as the commands it holds whole. */
  lemma FileScans(s: State)
    requires LogForm(s)
    ensures Scan(s.file) == Scanned(s.logged, false)
  {
    if s.stuck {
      var all := s.logged + [s.lost];
      EncodeAllConcat(s.logged, [s.lost]);
      EncodeAllOne(s.lost);
      var k := TornTail(all, s.file);
      WholeFrames(s.logged, s.lost, s.torn, k);
      assert all[..|s.logged|] == s.logged;
    } else {
      assert s.file == EncodeAll(s.logged);
      ScanEncoded(s.logged);
    }
  }

  lemma WholeFrames(cmds: seq<Value>, lost: Value, torn: bytes, k: nat)
    requires torn < Encode(lost) && WhollyInside(cmds + [lost], |EncodeAll(cmds) + torn|, k)
    ensures k == |cmds|
  {
    var all, n := cmds + [lost], |cmds|;
    assert all[..n] == cmds && all[..n + 1] == all;
    EncodeAllConcat(cmds, [lost]);
    EncodeAllOne(lost);
    if k < n {
      EncodeAllGrows(all, k + 1, n);
    }
  }

  /**
   In every state of every run the file reads back without error. As long as appends
   succeed, take any key that is not stale and any replay that meets no deadline on
   it: clients of the restarted server see at instant end what clients of the running
   one see now, if and only if the restored deadline is still ahead. Between dispatch
   and append the file falls short by exactly the command in hand.
   */
  lemma LogEqualsStore(route: bytes -> nat, b: Start, states: seq<State>, steps: seq<Step>, i: nat,
                       replay: nat -> Time, end: Time, k: bytes)
    requires CleanBoot(b) && IsRun(route, states, steps) && states[0] == Boot(b) && i <= |steps|
    ensures var s := states[i];
            && !Scan(s.file).corrupt
            && (!s.stuck && k !in s.stale && !MidWrite(s.job) ==> SameAfter(s.file, replay, end, s, k))
            && (!s.stuck && k !in s.stale && s.job.Appending? ==> SameAfter(s.file + Encode(s.job.req), replay, end, s, k))
  {
    var s := states[i];
    ReachableInv(route, b, states, steps, i);
    FileScans(s);
    assert KeyInv(route, s, k);
    if !s.stuck && k !in s.stale && !MidWrite(s.job) {
      ReplayAgrees(s.file, replay, end, s, k);
    } else if !s.stuck && k !in s.stale && s.job.Appending? {
      AppendKeeps(route, s, Append);
      var t := Next(s, Append);
      FileScans(t);
      assert KeyInv(route, t, k);
      ReplayAgrees(t.file, replay, end, s, k);
    }
  }

  /** Unless it meets a deadline on k, replaying the file shows k as s does, exactly as long as the restored deadline is ahead. */
  ghost predicate SameAfter(file: bytes, replay: nat -> Time, end: Time, s: State, k: bytes) {
    Calm(file, replay, k) ==>
      (ViewAt(Recovered(file, replay), end, k) == ViewAt(s.ks, s.now, k) <==> NotExpiredAt(Recovered(file, replay), k, end))
  }

  lemma ReplayAgrees(file: bytes, replay: nat -> Time, end: Time, s: State, k: bytes)
    requires Lookup(UntimedRun(map[], Scan(file).cmds), k) == ViewAt(s.ks, s.now, k)
    ensures SameAfter(file, replay, end, s, k)
  {
    if Calm(file, replay, k) {
      CalmView(file, replay, end, k);
    }
  }

  /** With no deadline met by the store or by the replay, that is the whole keyspace. */
  lemma LogEqualsStoreQuiet(route: bytes -> nat, s: State, replay: nat -> Time, end: Time)
    requires Inv(route, s) && !s.stuck && s.stale == {} && !MidWrite(s.job)
    requires forall k :: Calm(s.file, replay, k)
    requires forall k :: NotExpiredAt(Recovered(s.file, replay), k, end)
    ensures View(Recovered(s.file, replay), end) == View(s.ks, s.now)
  {
    FileScans(s);
    var after := Recovered(s.file, replay);
    forall k
      ensures Lookup(View(after, end), k) == Lookup(View(s.ks, s.now), k)
    {
      assert KeyInv(route, s, k);
      CalmView(s.file, replay, end, k);
      ViewLookup(after, end, k);
      ViewLookup(s.ks, s.now, k);
    }
    MapsEqual(View(after, end), View(s.ks, s.now));
  }

  /**
   Time in the running server breaks the agreement on a key exactly when it reaches
   that key's deadline: expiry is not logged.
   */
  lemma TickBreaksIff(route: bytes -> nat, s: State, t: Time, replay: nat -> Time, end: Time, k: bytes)
    requires Inv(route, s) && !s.stuck && !MidWrite(s.job) && s.now <= t && k !in s.stale
    requires Calm(s.file, replay, k) && NotExpiredAt(Recovered(s.file, replay), k, end)
    ensures ViewAt(Recovered(s.file, replay), end, k) == ViewAt(s.ks, t, k) <==> k !in Due(s, t)
  {
    FileScans(s);
    assert KeyInv(route, s, k);
    CalmView(s.file, replay, end, k);
    if k !in Due(s, t) {
      TickView(s, t, k);
    }
  }

  /**
   Compaction: on every key that is not stale, any replay of the old file that meets
   no deadline and any replay of the new one, however slow, rebuild the same value and TTL flag.
   */
  lemma SwapPreservesMeaning(route: bytes -> nat, s: State, before: nat -> Time, after: nat -> Time, k: bytes)
    requires Inv(route, s) && Enabled(route, s, Swap) && !s.stuck && k !in s.stale && Calm(s.file, before, k)
    ensures ShapeOf(Lookup(Recovered(Next(s, Swap).file, after), k)) == ShapeOf(Lookup(Recovered(s.file, before), k))
  {
    FileScans(s);
    assert KeyInv(route, s, k);
    CalmUntimed(Scan(s.file).cmds, before, k);
    SwapHeals(route, s, after, k);
  }

  /**
   Compaction also heals: however slowly it is replayed, the new file rebuilds the live
   value and TTL flag of every key whose deadline did not arrive during the compaction,
   stale keys and writes lost to failed appends included.
   */
  lemma SwapHeals(route: bytes -> nat, s: State, replay: nat -> Time, k: bytes)
    requires Inv(route, s) && Enabled(route, s, Swap) && k !in s.job.missed
    ensures ShapeOf(Lookup(Recovered(Next(s, Swap).file, replay), k)) == ViewAt(s.ks, s.now, k)
  {
    var cmds := s.job.cmds;
    ScanEncoded(cmds);
    assert Steady(cmds, k) && KeyInv(route, s, k);
    assert RunAt(map[], cmds, replay) == Recovered(Next(s, Swap).file, replay);
  }

  /**
   Once appends miss the file, after a failed one or a failed reopen, they go on missing
   it until a compaction succeeds: every write in between is acknowledged, propagated
   and in no log.
   */
  lemma {:induction false} MissedUntilSwap(route: bytes -> nat, states: seq<State>, steps: seq<Step>, i: nat, j: nat)
    requires IsRun(route, states, steps) && i <= j <= |steps| && states[i].stuck
    requires forall n :: i <= n < j ==> !steps[n].Swap? && !steps[n].SwapUnopened?
    ensures states[j].stuck && states[j].file == states[i].file && states[i].writes <= states[j].writes
    decreases j
  {
    if i < j {
      MissedUntilSwap(route, states, steps, i, j - 1);
      HistoryGrows(route, states[j - 1], steps[j - 1]);
      MissedStep(route, states[j - 1], steps[j - 1]);
    }
  }

  lemma MissedStep(route: bytes -> nat, s: State, step: Step)
    requires Enabled(route, s, step) && s.stuck && !step.Swap? && !step.SwapUnopened?
    ensures Next(s, step).stuck && Next(s, step).file == s.file
  {
    assert s.file + [] == s.file;
  }

  // ------------------------------------------------------------------ power loss

  /**
   Power loss at any moment, keeping the synced bytes and any part of the rest, after
   any appends have failed: what is left reads back as the first j of the logged
   commands, which stand for the first n writes of the history, every synced one among
   them. With fsync always and no failed append, that is every write.
   */
  lemma SurvivingPrefix(route: bytes -> nat, s: State, p: bytes) returns (j: nat, n: nat)
    requires Inv(route, s) && Survives(s, p)
    ensures s.durable <= j <= |s.logged| && n == s.base + (j - s.snap) && Scan(p) == Scanned(s.logged[..j], false)
    ensures s.base + (s.durable - s.snap) <= n <= |s.writes|
    ensures s.mode.Always? && !s.stuck && !s.doubtful && |s.writes| > s.began ==> n == |s.writes|
  {
    j := SurvivingFrames(s, p);
    n := s.base + (j - s.snap);
  }

  /** Run on an empty store, the two logs leave k alike. */
  ghost predicate SameEffect(a: seq<Value>, b: seq<Value>, k: bytes) {
    Lookup(UntimedRun(map[], a), k) == Lookup(UntimedRun(map[], b), k)
  }

  /** On a key that never reached a deadline, those j commands and those n writes have the same effect. */
  lemma SurvivingEffect(route: bytes -> nat, s: State, j: nat, k: bytes)
    requires Inv(route, s) && s.snap <= j <= |s.logged| && k !in s.ever
    ensures SameEffect(s.logged[..j], s.writes[..s.base + (j - s.snap)], k)
  {
    SnapFacts(route, s, k);
    SurvivingKey(s.logged, s.snap, j, s.writes, s.base, k);
  }

  /** Log and history go on alike from points at which they had the same effect on k. */
  ghost predicate Shared(logged: seq<Value>, snap: nat, writes: seq<Value>, base: nat, k: bytes) {
    && snap <= |logged| && base + (|logged| - snap) <= |writes|
    && logged[snap..] == writes[base..base + (|logged| - snap)]
    && SameEffect(logged[..snap], writes[..base], k)
  }

  lemma SnapFacts(route: bytes -> nat, s: State, k: bytes)
    requires Inv(route, s) && k !in s.ever
    ensures Shared(s.logged, s.snap, s.writes, s.base, k)
  {
    assert KeyInv(route, s, k);
  }

  lemma SurvivingKey(logged: seq<Value>, snap: nat, j: nat, writes: seq<Value>, base: nat, k: bytes)
    requires Shared(logged, snap, writes, base, k) && snap <= j <= |logged|
    ensures SameEffect(logged[..j], writes[..base + (j - snap)], k)
  {
    SharedTail(logged, snap, j, writes, base);
    SameTail(logged[..snap], writes[..base], logged[snap..j], k);
  }

  lemma {:induction false} BeganAt(route: bytes -> nat, b: Start, states: seq<State>, steps: seq<Step>, i: nat)
    requires IsRun(route, states, steps) && states[0] == Boot(b) && i <= |steps|
    ensures states[i].began == |b.cmds|
  {
    if i > 0 {
      BeganAt(route, b, states, steps, i - 1);
      BeganStays(route, states[i - 1], steps[i - 1]);
    }
  }

  /** The moment of the run at which the history was n writes long. */
  lemma {:induction false} MomentOf(route: bytes -> nat, b: Start, states: seq<State>, steps: seq<Step>, i: nat, n: nat) returns (j: nat)
    requires IsRun(route, states, steps) && states[0] == Boot(b) && i <= |steps| && |b.cmds| <= n <= |states[i].writes|
    ensures j <= i && states[j].writes == states[i].writes[..n] && states[j].ever <= states[i].ever && !MidWrite(states[j].job)
  {
    if n == |states[i].writes| && !MidWrite(states[i].job) {
      j := i;
      assert states[i].writes[..n] == states[i].writes;
    } else {
      HistoryGrows(route, states[i - 1], steps[i - 1]);
      EverGrows(route, states[i - 1], steps[i - 1]);
      j := MomentOf(route, b, states, steps, i - 1, n);
      assert states[i - 1].writes[..n] == states[i].writes[..n];
    }
  }

  lemma HistoryGrows(route: bytes -> nat, s: State, step: Step)
    requires Enabled(route, s, step)
    ensures s.writes <= Next(s, step).writes
    ensures Next(s, step).writes == s.writes ||
            (|Next(s, step).writes| == |s.writes| + 1 && !MidWrite(Next(s, step).job))
  {
  }

  lemma EverGrows(route: bytes -> nat, s: State, step: Step)
    requires Enabled(route, s, step)
    ensures s.ever <= Next(s, step).ever
  {
  }

  lemma BeganStays(route: bytes -> nat, s: State, step: Step)
    requires Enabled(route, s, step)
    ensures s.began == Next(s, step).began
  {
  }

  /** Whatever the run started from is still how its history begins. */
  lemma {:induction false} BeginsWith(route: bytes -> nat, b: Start, states: seq<State>, steps: seq<Step>, i: nat)
    requires IsRun(route, states, steps) && states[0] == Boot(b) && i <= |steps|
    ensures b.cmds <= states[i].writes
  {
    if i > 0 {
      BeginsWith(route, b, states, steps, i - 1);
      HistoryGrows(route, states[i - 1], steps[i - 1]);
    }
  }

  /** After a restart on the bytes p, clients see of k what ks shows at instant now, for every calm replay and as long as its deadline is ahead. */
  ghost predicate ShowsAgain(p: bytes, ks: Keyspace, now: Time, k: bytes) {
    forall replay: nat -> Time, end :: Calm(p, replay, k) && NotExpiredAt(Recovered(p, replay), k, end) ==>
      ViewAt(Recovered(p, replay), end, k) == ViewAt(ks, now, k)
  }

  /**
   A power loss takes the server back to a state it really was in. Cut the file
   anywhere at or after its synced part, at any point of any run. What is left stands
   for the first n writes, every synced one among them. On every key that never reached
   a deadline, clients see after a restart what they saw at moment j of this run, when
   those n writes had been made; or, if even the log the run started from was cut, what
   its replay had built from the first n commands. With fsync always, and no failed
   fsync or append, nothing this run wrote is lost.
   */
  lemma PowerLossRollsBack(route: bytes -> nat, b: Start, states: seq<State>, steps: seq<Step>, i: nat, p: bytes) returns (n: nat, j: nat)
    requires CleanBoot(b) && IsRun(route, states, steps) && states[0] == Boot(b) && i <= |steps| && Survives(states[i], p)
    ensures !Scan(p).corrupt && states[i].base + (states[i].durable - states[i].snap) <= n <= |states[i].writes|
    ensures states[i].mode.Always? && !states[i].stuck && !states[i].doubtful && |states[i].writes| > |b.cmds| ==> n == |states[i].writes|
    ensures |b.cmds| <= n ==> j <= i && states[j].writes == states[i].writes[..n] && !MidWrite(states[j].job)
    ensures |b.cmds| <= n ==> forall k :: k !in states[i].ever ==> ShowsAgain(p, states[j].ks, states[j].now, k)
    ensures n < |b.cmds| ==>
              forall k, t :: k !in states[i].ever && CalmAt(b.cmds[..n], b.clock, k) && NotExpiredAt(RunAt(map[], b.cmds[..n], b.clock), k, t) ==>
                ShowsAgain(p, RunAt(map[], b.cmds[..n], b.clock), t, k)
  {
    ReachableInv(route, b, states, steps, i);
    BeganAt(route, b, states, steps, i);
    var m;
    m, n := SurvivingPrefix(route, states[i], p);
    j := i;
    if |b.cmds| <= n {
      j := MomentOf(route, b, states, steps, i, n);
      ReachableInv(route, b, states, steps, j);
      forall k | k !in states[i].ever
        ensures ShowsAgain(p, states[j].ks, states[j].now, k)
      {
        RollsBackTo(route, states[i], m, states[j], p, k);
      }
    } else {
      BeginsWith(route, b, states, steps, i);
      assert states[i].writes[..n] == b.cmds[..n];
      forall k, t | k !in states[i].ever && CalmAt(b.cmds[..n], b.clock, k) && NotExpiredAt(RunAt(map[], b.cmds[..n], b.clock), k, t)
        ensures ShowsAgain(p, RunAt(map[], b.cmds[..n], b.clock), t, k)
      {
        RollsBackInto(route, states[i], m, p, b.cmds[..n], b.clock, t, k);
      }
    }
  }

  lemma RollsBackTo(route: bytes -> nat, s: State, m: nat, t: State, p: bytes, k: bytes)
    requires Inv(route, s) && Inv(route, t) && s.snap <= m <= |s.logged| && Scan(p) == Scanned(s.logged[..m], false)
    requires !MidWrite(t.job) && t.ever <= s.ever && s.base + (m - s.snap) <= |s.writes|
    requires t.writes == s.writes[..s.base + (m - s.snap)] && k !in s.ever
    ensures ShowsAgain(p, t.ks, t.now, k)
  {
    SurvivingEffect(route, s, m, k);
    HistoryShows(route, t, k);
    ImageShows(p, t.ks, t.now, k);
  }

  lemma RollsBackInto(route: bytes -> nat, s: State, m: nat, p: bytes, cmds: seq<Value>, clock: nat -> Time, t: Time, k: bytes)
    requires Inv(route, s) && s.snap <= m <= |s.logged| && Scan(p) == Scanned(s.logged[..m], false)
    requires s.base + (m - s.snap) <= |s.writes| && cmds == s.writes[..s.base + (m - s.snap)] && k !in s.ever
    requires CalmAt(cmds, clock, k) && NotExpiredAt(RunAt(map[], cmds, clock), k, t)
    ensures ShowsAgain(p, RunAt(map[], cmds, clock), t, k)
  {
    SurvivingEffect(route, s, m, k);
    CalmUntimed(cmds, clock, k);
    SeenIsUnexpired(RunAt(map[], cmds, clock), t, k);
    ImageShows(p, RunAt(map[], cmds, clock), t, k);
  }

  lemma ImageShows(p: bytes, ks: Keyspace, now: Time, k: bytes)
    requires Lookup(UntimedRun(map[], Scan(p).cmds), k) == ViewAt(ks, now, k)
    ensures ShowsAgain(p, ks, now, k)
  {
    forall replay: nat -> Time, end | Calm(p, replay, k) && NotExpiredAt(Recovered(p, replay), k, end)
      ensures ViewAt(Recovered(p, replay), end, k) == ViewAt(ks, now, k)
    {
      CalmView(p, replay, end, k);
    }
  }

  lemma HistoryShows(route: bytes -> nat, t: State, k: bytes)
    requires Inv(route, t) && !MidWrite(t.job) && k !in t.ever
    ensures Lookup(UntimedRun(map[], t.writes), k) == ViewAt(t.ks, t.now, k)
  {
    assert KeyInv(route, t, k);
  }

  lemma SharedTail(logged: seq<Value>, snap: nat, j: nat, writes: seq<Value>, base: nat)
    requires snap <= j <= |logged| && base + (|logged| - snap) <= |writes|
    requires logged[snap..] == writes[base..base + (|logged| - snap)]
    ensures logged[..j] == logged[..snap] + logged[snap..j]
    ensures writes[..base + (j - snap)] == writes[..base] + logged[snap..j]
  {
    var n := base + (j - snap);
    assert logged[snap..j] == logged[snap..][..j - snap];
    assert writes[base..n] == writes[base..base + (|logged| - snap)][..j - snap];
  }

  lemma SameTail(a: seq<Value>, b: seq<Value>, tail: seq<Value>, k: bytes)
    requires SameEffect(a, b, k)
    ensures SameEffect(a + tail, b + tail, k)
  {
    UntimedRunConcat(map[], a, tail);
    UntimedRunConcat(map[], b, tail);
    UntimedRunLocal(UntimedRun(map[], a), UntimedRun(map[], b), tail, k);
  }

  /** How many of the logged commands a cut file still holds whole. */
  lemma SurvivingFrames(s: State, p: bytes) returns (j: nat)
    requires LogForm(s) && Survives(s, p)
    ensures s.durable <= j <= |s.logged| && Scan(p) == Scanned(s.logged[..j], false)
  {
    if p == s.file {
      FileScans(s);
      j := |s.logged|;
      assert s.logged[..j] == s.logged;
    } else if |p| <= |EncodeAll(s.logged)| {
      assert p <= EncodeAll(s.logged);
      j := PowerLossRecovery(s.logged, s.durable, p, (_: nat) => 0);
    } else {
      var t := s.(file := p, torn := p[|EncodeAll(s.logged)|..]);
      assert p == EncodeAll(s.logged) + t.torn && t.torn < s.torn;
      assert s.stuck;
      FileScans(t);
      j := |s.logged|;
      assert s.logged[..j] == s.logged;
    }
  }
}
