/**
 The append-only log as bytes: scanning it frame by frame, replaying it into an
 empty store, and what survives when a crash cuts it short.
 */
module Log {
  import opened Bytes
  import opened Resp
  import opened RespIO
  import opened Keyspace
  import opened Commands
  import opened Images

  /** The frames of a log up to its end, its torn tail, or the first corrupt byte. */
  datatype Scanned = Scanned(cmds: seq<Value>, corrupt: bool)

  function Scan(log: bytes): (s: Scanned)
    decreases |log|
  {
    match Decode(log)
    case Ok(v, rest) => Scanned([v] + Scan(rest).cmds, Scan(rest).corrupt)
    case Corrupt => Scanned([], true)
    case _ => Scanned([], false)
  }

  /** The store that a replay of the file builds, its i-th command dispatched at instant clock(i). */
  function Recovered(file: bytes, clock: nat -> Time): Keyspace {
    RunAt(map[], Scan(file).cmds, clock)
  }

  /** Since the log last resets k, or from the start, whenever that replay dispatches a command a deadline on k still lies ahead. */
  ghost predicate Calm(file: bytes, clock: nat -> Time, k: bytes) {
    CalmAt(Scan(file).cmds, clock, k)
  }

  /** What clients see of k at instant end, after a replay that was calm on it. */
  lemma CalmView(file: bytes, clock: nat -> Time, end: Time, k: bytes)
    requires Calm(file, clock, k)
    ensures var img := Lookup(UntimedRun(map[], Scan(file).cmds), k);
            if NotExpiredAt(Recovered(file, clock), k, end) then ViewAt(Recovered(file, clock), end, k) == img
            else ViewAt(Recovered(file, clock), end, k) == None && img.Some?
  {
    CalmUntimed(Scan(file).cmds, clock, k);
  }

  /** Replay: applies each frame as it is read. The file may be missing; clock gives each dispatch its instant. */
  method Replay(file: Option<bytes>, clock: nat -> Time) returns (ks: Keyspace, applied: nat, corrupt: bool)
    ensures file == None ==> ks == map[] && applied == 0 && !corrupt
    ensures file.Some? ==>
              var s := Scan(file.value);
              && applied == |s.cmds| && corrupt == s.corrupt
              && ks == Recovered(file.value, clock)
  {
    ks, applied, corrupt := map[], 0, false;
    if file == None { return; }
    var r := new Reader(file.value);
    ghost var all := Scan(file.value);
    ghost var done: seq<Value> := [];
    assert [] + all.cmds == all.cmds;
    while true
      invariant (all.cmds, all.corrupt) == (done + Scan(r.rest).cmds, Scan(r.rest).corrupt)
      invariant applied == |done| && !corrupt
      invariant ks == RunAt(map[], done, clock)
      decreases |r.rest|
    {
      ScanStep(done, r.rest);
      var frame := Next(r);
      match frame
      case CleanEof => return;
      case Torn => return;
      case Corrupt => corrupt := true; return;
      case Ok(cmd, _) =>
        assert (done + [cmd])[..applied] == done;
        ks := Dispatch(ks, cmd, clock(applied)).0;
        applied, done := applied + 1, done + [cmd];
    }
  }

  /** What the replay loop learns from one read. */
  lemma ScanStep(done: seq<Value>, log: bytes)
    ensures (done + Scan(log).cmds, Scan(log).corrupt) ==
            match Decode(log)
            case Ok(v, rest) => ((done + [v]) + Scan(rest).cmds, Scan(rest).corrupt)
            case Corrupt => (done, true)
            case _ => (done, false)
  {
    match Decode(log)
    case Ok(v, rest) => assert done + ([v] + Scan(rest).cmds) == (done + [v]) + Scan(rest).cmds;
    case _ => assert done + [] == done;
  }

  // ------------------------------------------------------------------ whole logs and torn ones

  lemma ScanCons(v: Value, rest: bytes)
    requires WellFormed(v)
    ensures Scan(Encode(v) + rest) == Scanned([v] + Scan(rest).cmds, Scan(rest).corrupt)
  {
    DecodeEncode(v, rest);
  }

  /** A log of appended commands reads back as exactly those commands. */
  lemma {:induction false} ScanEncoded(cmds: seq<Value>)
    requires AllWellFormed(cmds)
    ensures Scan(EncodeAll(cmds)) == Scanned(cmds, false)
  {
    if cmds == [] {
      assert Decode([]) == CleanEof;
    } else {
      ScanCons(cmds[0], EncodeAll(cmds[1..]));
      ScanEncoded(cmds[1..]);
      assert [cmds[0]] + cmds[1..] == cmds;
    }
  }

  /** k is the number of frames of cmds that lie wholly inside their first n bytes. */
  predicate WhollyInside(cmds: seq<Value>, n: nat, k: nat) {
    && k <= |cmds|
    && |EncodeAll(cmds[..k])| <= n
    && (k < |cmds| ==> n < |EncodeAll(cmds[..k + 1])|)
  }

  lemma EncodeAllPrefixCons(cmds: seq<Value>, k: nat)
    requires 0 < k <= |cmds|
    ensures EncodeAll(cmds[..k]) == Encode(cmds[0]) + EncodeAll(cmds[1..][..k - 1])
  {
    assert cmds[..k][1..] == cmds[1..][..k - 1];
  }

  /**
   Torn-tail recovery: cut the log at any byte, and replay still ends without an
   error, having applied exactly the commands whose frames survived whole.
   */
  lemma {:induction false} TornTail(cmds: seq<Value>, p: bytes) returns (k: nat)
    requires AllWellFormed(cmds) && p <= EncodeAll(cmds)
    ensures WhollyInside(cmds, |p|, k)
    ensures Scan(p) == Scanned(cmds[..k], false)
  {
    if cmds == [] {
      k := 0;
      assert Decode([]) == CleanEof;
    } else {
      var first := Encode(cmds[0]);
      if |p| < |first| {
        k := 0;
        assert p < first;
        DecodePrefix(cmds[0], p);
        EncodeAllPrefixCons(cmds, 1);
      } else {
        var q := p[|first|..];
        assert p == first + q && q <= EncodeAll(cmds[1..]);
        var j := TornTail(cmds[1..], q);
        k := j + 1;
        ScanCons(cmds[0], q);
        InsideCons(cmds, |q|, j);
        assert [cmds[0]] + cmds[1..][..j] == cmds[..k];
      }
    }
  }

  lemma InsideCons(cmds: seq<Value>, n: nat, j: nat)
    requires cmds != [] && WhollyInside(cmds[1..], n, j)
    ensures WhollyInside(cmds, |Encode(cmds[0])| + n, j + 1)
  {
    EncodeAllPrefixCons(cmds, j + 1);
    if j + 1 < |cmds| {
      EncodeAllPrefixCons(cmds, j + 2);
    }
  }

  lemma EncodeAllGrows(cmds: seq<Value>, i: nat, j: nat)
    requires i <= j <= |cmds|
    ensures |EncodeAll(cmds[..i])| <= |EncodeAll(cmds[..j])|
    ensures i < j ==> |EncodeAll(cmds[..i])| < |EncodeAll(cmds[..j])|
    decreases j
  {
    if i < j {
      EncodeAllGrows(cmds, i, j - 1);
      EncodeAllSnoc(cmds, j - 1);
      EncodeNonEmpty(cmds[j - 1]);
    }
  }

  lemma EncodeNonEmpty(v: Value)
    ensures |Encode(v)| > 0
  {
  }

  /**
   A power loss keeps at least the synced bytes. Whatever else it keeps, replay finds
   a prefix of the write history that holds every synced write, and rebuilds each key
   whose deadline it does not run into exactly as that prefix left it.
   */
  lemma PowerLossRecovery(history: seq<Value>, durable: nat, p: bytes, clock: nat -> Time) returns (k: nat)
    requires AllWellFormed(history) && durable <= |history|
    requires p <= EncodeAll(history) && |EncodeAll(history[..durable])| <= |p|
    ensures durable <= k <= |history| && Scan(p) == Scanned(history[..k], false)
    ensures forall key :: Calm(p, clock, key) ==>
              ShapeOf(Lookup(Recovered(p, clock), key)) == Lookup(UntimedRun(map[], history[..k]), key)
  {
    k := TornTail(history, p);
    assert durable <= k by {
      if k < durable {
        EncodeAllGrows(history, k + 1, durable);
      }
    }
    forall key | Calm(p, clock, key)
      ensures ShapeOf(Lookup(Recovered(p, clock), key)) == Lookup(UntimedRun(map[], history[..k]), key)
    {
      CalmUntimed(history[..k], clock, key);
    }
  }
}
