/**
 The append-only file as the operating system sees it: the file at the log's path,
 the temporary file beside it, and a handle that may be left on an unlinked file.
 Every operation is then shown to carry out a step of the state machine.
 */
module AofFile {
  import opened Bytes
  import opened Resp
  import RespIO
  import opened Keyspace
  import opened Snapshots
  import opened Rewrite
  import opened Aof
  import opened System
  import opened Log
  import opened LogSafety

  /** Where a rewrite can fail, in the order it gets there. */
  datatype Stage = Create | WriteOut | Flush | Sync | CloseTmp | Rename | Reopen

  /** A file's bytes and how many of them are known to be on the platter. */
  datatype Stored = Stored(data: bytes, synced: nat)

  /** What a crash at some instant would find: the file at the path, and the temporary one. */
  datatype Folder = Folder(path: Stored, tmp: Option<Stored>)

  /**
   How the log stands: the file at its path; whether the handle is still on that file;
   whether the writer is broken; whether an fsync of the file failed, after which no
   later one is trusted for it; and the fsync mode.
   */
  datatype Standing = Standing(path: Stored, linked: bool, broken: bool, doubtful: bool, mode: FsyncMode)

  /** Nothing is lost of a file that is wholly on the platter. */
  predicate Solid(f: Stored) {
    f.synced == |f.data|
  }

  /** How far a file is synced after an fsync that can, or cannot, be trusted for all of it. */
  function Advance(synced: nat, size: nat, trusted: bool): nat {
    if trusted then size else synced
  }

  /** What gets out of a frame when the write fails after so many bytes, if it does. */
  function PartOf(frame: bytes, fault: Option<nat>): bytes {
    if fault.Some? && fault.value <= |frame| then frame[..fault.value] else frame
  }

  /** An append: a broken writer takes nothing, and a stale handle takes it elsewhere. */
  function AfterAppend(v: Standing, frame: bytes, fault: Option<nat>, syncFails: bool): Standing {
    if v.broken then v
    else if !v.linked then v.(broken := fault.Some?)
    else
      var data := v.path.data + PartOf(frame, fault);
      var fails := fault == None && v.mode.Always? && syncFails;
      var trusted := fault == None && v.mode.Always? && !syncFails && !v.doubtful;
      v.(path := Stored(data, Advance(v.path.synced, |data|, trusted)), broken := fault.Some?, doubtful := v.doubtful || fails)
  }

  /** A tick of the once-a-second sync. */
  function AfterSync(v: Standing, fails: bool): Standing {
    if !v.linked then v
    else v.(path := Stored(v.path.data, Advance(v.path.synced, |v.path.data|, !fails && !v.doubtful)), doubtful := v.doubtful || fails)
  }

  /** A rewrite to the given log: before the rename nothing, after it all, and the handle is stale if the reopen fails. */
  function AfterRewrite(v: Standing, log: bytes, fault: Option<Stage>): Standing {
    match fault
    case None => Standing(Stored(log, |log|), true, false, false, v.mode)
    case Some(Reopen) => Standing(Stored(log, |log|), false, v.broken, false, v.mode)
    case Some(_) => v
  }

  class File {
    var folder: Folder
    var unlinked: Option<bytes>   // when Some, what the handle's own file holds: it is not at the path any more
    var broken: bool              // bufio.Writer keeps the first error it met
    var doubtful: bool
    const mode: FsyncMode
    var baseSize: nat
    ghost var atOpen: nat         // its size when it was opened
    ghost var evs: seq<Event>     // what was appended and rewritten since

    function Now(): Standing
      reads this
    {
      Standing(folder.path, unlinked.None?, broken, doubtful, mode)
    }

    /** What the handle's own file holds. */
    function OwnFile(): bytes
      reads this
    {
      if unlinked.Some? then unlinked.value else folder.path.data
    }

    ghost predicate Accounted()
      reads this
    {
      Tallied(atOpen, evs, |OwnFile()|, baseSize)
    }

    /** Opening continues an existing log and measures growth from its size. */
    constructor (existing: Option<bytes>, mode: FsyncMode)
      ensures Now() == Standing(Stored(if existing.Some? then existing.value else [], 0), true, false, false, mode)
      ensures folder.tmp == None && Accounted() && evs == []
    {
      var d := if existing.Some? then existing.value else [];
      folder, unlinked, broken, doubtful, baseSize := Folder(Stored(d, 0), None), None, false, false, |d|;
      atOpen, evs := |d|, [];
      this.mode := mode;
    }

    /**
     Append. A fault is how many bytes of the frame get out before a write fails; in the
     always mode the fsync may fail as well. A failed write leaves part of the frame behind
     and breaks the writer for good; a failed fsync leaves the whole frame there, in doubt.
     On a handle that was left on an unlinked file the append misses the log.
     */
    method Append(cmd: Value, fault: Option<nat>, syncFails: bool) returns (ok: bool)
      requires fault.Some? ==> fault.value < |Encode(cmd)|
      modifies this`folder, this`unlinked, this`broken, this`doubtful, this`evs
      ensures Now() == AfterAppend(old(Now()), Encode(cmd), fault, syncFails)
      ensures ok <==> !old(broken) && fault == None && !(mode.Always? && syncFails)
      ensures OwnFile() == old(OwnFile()) + if old(broken) then [] else PartOf(Encode(cmd), fault)
      ensures old(Accounted()) ==> Accounted()
    {
      if broken {
        assert OwnFile() + [] == OwnFile();
        return false;
      }
      var w := new RespIO.Writer();
      RespIO.Write(w, cmd);
      assert w.out == Encode(cmd);
      ok := fault == None && !(mode.Always? && syncFails);
      Note(|PartOf(w.out, fault)|, |OwnFile()|);
      Receive(w.out, fault, syncFails);
    }

    /** The tally learns of bytes about to be appended to a file of the given size. */
    ghost method Note(n: nat, size: nat)
      modifies this`evs
      ensures Tallied(atOpen, old(evs), size, baseSize) ==> Tallied(atOpen, evs, size + n, baseSize)
    {
      AppendTallied(atOpen, evs, size, baseSize, n);
      evs := evs + [Event.Appended(n)];
    }

    /** The frame, or the part of it that gets out, arrives in the handle's own file. */
    method Receive(frame: bytes, fault: Option<nat>, syncFails: bool)
      requires !broken
      modifies this`folder, this`unlinked, this`broken, this`doubtful
      ensures Now() == AfterAppend(old(Now()), frame, fault, syncFails)
      ensures OwnFile() == old(OwnFile()) + PartOf(frame, fault)
    {
      var out := PartOf(frame, fault);
      if unlinked.Some? {
        unlinked := Some(unlinked.value + out);
      } else {
        var data := folder.path.data + out;
        var trusted := fault == None && mode.Always? && !syncFails && !doubtful;
        folder := folder.(path := Stored(data, Advance(folder.path.synced, |data|, trusted)));
        doubtful := doubtful || (fault == None && mode.Always? && syncFails);
      }
      broken := fault.Some?;
    }

    /** The once-a-second ticker. It syncs the handle's own file, which may not be the log any more. */
    method SyncEverySec(fails: bool)
      requires mode.EverySec?
      modifies this`folder, this`doubtful
      ensures Now() == AfterSync(old(Now()), fails) && folder.tmp == old(folder.tmp)
      ensures OwnFile() == old(OwnFile()) && (old(Accounted()) ==> Accounted())
    {
      if unlinked == None {
        var size := |folder.path.data|;
        folder := folder.(path := Stored(folder.path.data, Advance(folder.path.synced, size, !fails && !doubtful)));
        doubtful := doubtful || fails;
      }
    }

    method ShouldRewrite() returns (b: bool)
      ensures b <==> Triggered(|OwnFile()|, baseSize)
    {
      var size := |OwnFile()|;
      b := size >= MIN_REWRITE_SIZE && size >= GROWTH_FACTOR * baseSize;
    }

    /**
     One tick of the compaction loop. Nothing happens below the trigger. A rewrite that
     fails, at whatever stage, leaves the trigger armed, so the next tick tries again.
     */
    method AutoRewrite(records: seq<Record>, clock: nat -> Time, fault: Option<Stage>, part: nat) returns (tried: bool, ok: bool)
      requires AllPaired(records)
      modifies this
      ensures tried <==> Triggered(|old(OwnFile())|, old(baseSize))
      ensures ok <==> tried && fault == None
      ensures Now() == if tried then AfterRewrite(old(Now()), EncodeAll(SnapshotCmds(records, clock)), fault) else old(Now())
      ensures ok ==> OwnFile() == folder.path.data && baseSize == |folder.path.data|
      ensures !ok ==> OwnFile() == old(OwnFile()) && baseSize == old(baseSize)
      ensures !tried ==> folder == old(folder)
      ensures tried && !ok ==> Triggered(|OwnFile()|, baseSize)
      ensures old(Accounted()) ==> Accounted()
    {
      ok := false;
      tried := ShouldRewrite();
      if tried {
        ghost var seen;
        ok, seen := Rewrite(records, clock, fault, part);
        if ok {
          RewriteTallied(atOpen, evs, |old(OwnFile())|, old(baseSize), baseSize);
          evs := evs + [Rewrote(baseSize)];
        }
      }
    }

    /**
     The first half of a rewrite: the snapshot goes to the temporary file and onto the
     platter. Whatever fails, the file at the path is not touched.
     */
    method WriteTmp(records: seq<Record>, clock: nat -> Time, fault: Option<Stage>, part: nat) returns (ok: bool, ghost seen: set<Folder>)
      requires AllPaired(records)
      modifies this`folder
      ensures AllAt(seen, {old(folder.path)}) && old(folder) in seen && folder in seen && folder.path == old(folder.path)
      ensures ok <==> fault == None || fault.value.Rename? || fault.value.Reopen?
      ensures ok ==> folder.tmp.Some? && folder.tmp.value.data == EncodeAll(SnapshotCmds(records, clock)) && Solid(folder.tmp.value)
      ensures !ok && fault != Some(Create) ==> folder.tmp == None
    {
      seen := {folder};
      if fault == Some(Create) { return false, seen; }
      folder := folder.(tmp := Some(Stored([], 0)));
      seen := seen + {folder};
      var w := new RespIO.Writer();
      WriteSnapshot(w, records, clock);
      folder := folder.(tmp := Some(Stored(if part <= |w.out| then w.out[..part] else w.out, 0)));
      seen := seen + {folder};
      ok := fault != Some(WriteOut) && fault != Some(Flush);
      if ok {
        folder := folder.(tmp := Some(Stored(w.out, 0)));
        seen := seen + {folder};
        ok := fault != Some(Sync);
      }
      if ok {
        folder := folder.(tmp := Some(Stored(w.out, |w.out|)));
        seen := seen + {folder};
        ok := fault != Some(CloseTmp);
      }
      if !ok {
        folder := folder.(tmp := None);
      }
      seen := seen + {folder};
    }

    /**
     Rewrite. fault is the stage that fails, if any; part is how much of the snapshot
     the buffer let through before Flush. seen is the folder after every action, so
     that a crash between any two of them finds one of its members: the whole old log
     with its synced part, or the whole new one, all of it synced.
     An error leaves the log, the handle and the trigger as they were, exactly when it
     comes no later than the rename; a failed reopen leaves the handle on the old file.
     */
    method Rewrite(records: seq<Record>, clock: nat -> Time, fault: Option<Stage>, part: nat) returns (ok: bool, ghost seen: set<Folder>)
      requires AllPaired(records)
      modifies this`folder, this`unlinked, this`broken, this`baseSize, this`doubtful
      ensures var log := EncodeAll(SnapshotCmds(records, clock));
              && Now() == AfterRewrite(old(Now()), log, fault)
              && AllAt(seen, {old(folder.path), Stored(log, |log|)}) && old(folder) in seen && folder in seen
      ensures ok <==> fault == None
      ensures ok ==> OwnFile() == folder.path.data && baseSize == |folder.path.data| && folder.tmp == None
      ensures !ok ==> OwnFile() == old(OwnFile()) && baseSize == old(baseSize)
    {
      ok, seen := WriteTmp(records, clock, fault, part);
      if !ok { return; }
      if fault == Some(Rename) {
        folder := folder.(tmp := None);
        seen := seen + {folder};
        return false, seen;
      }
      unlinked := Some(OwnFile());
      folder, doubtful := Folder(folder.tmp.value, None), false;
      seen := seen + {folder};
      if fault == Some(Reopen) { return false, seen; }
      unlinked, broken, baseSize := None, false, |folder.path.data|;
    }
  }

  /** At every one of these instants the path held one of the given files. */
  ghost predicate AllAt(seen: set<Folder>, paths: set<Stored>) {
    forall f :: f in seen ==> f.path in paths
  }

  // ------------------------------------------------------------------ sizes

  /** Size and base are as the tally has them, and every rewrite so far was triggered. */
  ghost predicate Tallied(atOpen: nat, evs: seq<Event>, size: nat, base: nat) {
    TallyOf(atOpen, evs).size == size && TallyOf(atOpen, evs).base == base && OnTrigger(atOpen, evs)
  }

  lemma AppendTallied(atOpen: nat, evs: seq<Event>, size: nat, base: nat, n: nat)
    ensures Tallied(atOpen, evs, size, base) ==> Tallied(atOpen, evs + [Event.Appended(n)], size + n, base)
  {
    if Tallied(atOpen, evs, size, base) {
      TallySnoc(atOpen, evs, Event.Appended(n));
    }
  }

  lemma RewriteTallied(atOpen: nat, evs: seq<Event>, size: nat, base: nat, n: nat)
    requires Triggered(size, base)
    ensures Tallied(atOpen, evs, size, base) ==> Tallied(atOpen, evs + [Rewrote(n)], n, n)
  {
    if Tallied(atOpen, evs, size, base) {
      TallySnoc(atOpen, evs, Rewrote(n));
    }
  }

  /** At any time the snapshots a file has been rewritten to, all but the latest, together are no larger than what was appended since the first. */
  lemma FileIsAmortised(f: File)
    requires f.Accounted()
    ensures var t := TallyOf(f.atOpen, f.evs);
            t.rewrites > 0 ==> f.baseSize <= t.total && t.total - f.baseSize + (|f.OwnFile()| - f.baseSize) <= t.since
  {
    CompactionIsAmortised(f.atOpen, f.evs);
  }

  // ------------------------------------------------------------------ the steps these operations carry out

  /** The file at the path is the log of the machine state s, and at least its durable commands are synced. */
  ghost predicate Matches(v: Standing, s: State) {
    && v.path.synced <= |v.path.data| && (!v.linked ==> Solid(v.path) && !v.doubtful)
    && LogForm(s) && v.path.data == s.file && v.mode == s.mode && v.doubtful == s.doubtful && (s.stuck <==> v.broken || !v.linked)
    && |EncodeAll(s.logged[..s.durable])| <= v.path.synced
  }

  /** A log just opened is that of the state the server starts in. */
  lemma OpenCarries(b: Start)
    requires CleanBoot(b) && b.synced == 0
    ensures Matches(Standing(Stored(EncodeAll(b.cmds), 0), true, false, false, b.mode), Boot(b))
  {
    var s := Boot(b);
    assert s.logged[..0] == [] && s.logged[0..] == s.writes[0..|s.writes|] && s.file + [] == s.file;
  }

  /** The step of the machine that an append carries out. */
  function AppendStep(s: State, frame: bytes, fault: Option<nat>, syncFails: bool): Step {
    if s.stuck then AppendFails([])
    else if fault.Some? then AppendFails(PartOf(frame, fault))
    else if s.mode.Always? && syncFails then AppendUnsynced
    else Step.Append
  }

  /** Whatever fails, an append is one of the machine's append steps, taken on the log it matches. */
  lemma AppendCarries(v: Standing, s: State, fault: Option<nat>, syncFails: bool)
    requires Matches(v, s) && s.job.Appending? && WellFormed(s.job.req)
    requires fault.Some? ==> fault.value < |Encode(s.job.req)|
    ensures var frame := Encode(s.job.req);
            var step := AppendStep(s, frame, fault, syncFails);
            && (step.AppendFails? ==> step.part < frame && (s.stuck ==> step.part == []))
            && Matches(AfterAppend(v, frame, fault, syncFails), Next(s, step))
  {
    if s.stuck {
      MissCarries(v, s, fault, syncFails);
    } else if fault.Some? {
      AppendFailsForm(s, PartOf(Encode(s.job.req), fault));
    } else {
      WholeCarries(v, s, syncFails);
    }
  }

  lemma MissCarries(v: Standing, s: State, fault: Option<nat>, syncFails: bool)
    requires Matches(v, s) && s.stuck && s.job.Appending? && WellFormed(s.job.req)
    ensures [] < Encode(s.job.req) && Matches(AfterAppend(v, Encode(s.job.req), fault, syncFails), Next(s, AppendFails([])))
  {
    EncodeNonEmpty(s.job.req);
    AppendFailsForm(s, []);
    WholeSeq(s.file);
  }

  lemma WholeCarries(v: Standing, s: State, syncFails: bool)
    requires Matches(v, s) && !s.stuck && s.job.Appending? && WellFormed(s.job.req)
    ensures Matches(AfterAppend(v, Encode(s.job.req), None, syncFails), Next(s, AppendStep(s, Encode(s.job.req), None, syncFails)))
  {
    var step := AppendStep(s, Encode(s.job.req), None, syncFails);
    var t := Next(s, step);
    AppendForm(s, step);
    PrefixSnoc(s.logged, s.durable, s.job.req);
    WholeSeq(t.logged);
    WholeSeq(EncodeAll(t.logged));
  }

  /** A tick of the sync is the machine's fsync step, or its failing one. */
  lemma SyncCarries(v: Standing, s: State, fails: bool)
    requires Matches(v, s)
    ensures Matches(AfterSync(v, fails), Next(s, if fails && v.linked then FsyncFails else Fsync))
  {
    WholeSeq(s.logged);
  }

  /** A rewrite is the swap, the swap whose reopen failed, or none, by where it failed. */
  function RewriteStep(fault: Option<Stage>): Step {
    match fault
    case None => Swap
    case Some(Reopen) => SwapUnopened
    case Some(_) => Abandon
  }

  lemma RewriteCarries(v: Standing, s: State, fault: Option<Stage>)
    requires Matches(v, s) && s.job.Staged? && AllWellFormed(s.job.cmds)
    ensures Matches(AfterRewrite(v, EncodeAll(s.job.cmds), fault), Next(s, RewriteStep(fault)))
  {
    match fault
    case None => SwapCarries(v, s);
    case Some(Reopen) => SwapUnopenedCarries(v, s);
    case Some(_) => AbandonCarries(v, s);
  }

  lemma SwapCarries(v: Standing, s: State)
    requires Matches(v, s) && s.job.Staged? && AllWellFormed(s.job.cmds)
    ensures Matches(AfterRewrite(v, EncodeAll(s.job.cmds), None), Next(s, Swap))
  {
    SwapForm(s);
    WholeSeq(s.job.cmds);
  }

  lemma SwapUnopenedCarries(v: Standing, s: State)
    requires Matches(v, s) && s.job.Staged? && AllWellFormed(s.job.cmds)
    ensures Matches(AfterRewrite(v, EncodeAll(s.job.cmds), Some(Reopen)), Next(s, SwapUnopened))
  {
    SwapForm(s);
    WholeSeq(s.job.cmds);
  }

  lemma AbandonCarries(v: Standing, s: State)
    requires Matches(v, s)
    ensures Matches(v, Next(s, Abandon))
  {
  }

  lemma SwapForm(s: State)
    requires LogForm(s) && s.job.Staged? && AllWellFormed(s.job.cmds)
    ensures LogForm(Next(s, Swap)) && LogForm(Next(s, SwapUnopened))
  {
    WholeSeq(s.job.cmds);
    WholeSeq(s.writes);
    WholeSeq(EncodeAll(s.job.cmds));
    EncodeNonEmpty(NullBulk);
  }

  /** Whatever a power loss leaves of the file beyond its synced bytes, the machine's theorems speak of it. */
  lemma SyncedSurvives(v: Standing, s: State, p: bytes)
    requires Matches(v, s) && p <= v.path.data && v.path.synced <= |p|
    ensures Survives(s, p)
  {
  }
}
