/**
 Replication: the primary's registry of bounded, non-blocking feeds, and the
 replica's loop over the frames that reach it.
 */
module Replication {
  import opened Bytes
  import opened Resp
  import opened RespIO
  import opened Keyspace
  import opened Commands
  import opened Images
  import opened Log

  const QUEUE_CAP: nat := 256

  /** A non-blocking send: enqueued if there is room, dropped if not. */
  function Offer<T>(queue: seq<T>, x: T): (r: seq<T>)
    ensures |queue| <= QUEUE_CAP ==> |r| <= QUEUE_CAP
  {
    if |queue| < QUEUE_CAP then queue + [x] else queue
  }

  // ------------------------------------------------------------------ the primary's registry

  class Replica {
    var ch: seq<bytes>
    var closed: bool

    constructor ()
      ensures ch == [] && !closed
    {
      ch, closed := [], false;
    }
  }

  class Replicas {
    var next: nat
    var reps: map<nat, Replica>

    /** No registered feed is closed or over its bound, ids are never reused, and no two ids share a feed. */
    ghost predicate Valid()
      reads this, reps.Values
    {
      && (forall id :: id in reps ==> id < next && !reps[id].closed && |reps[id].ch| <= QUEUE_CAP)
      && (forall i, j :: i in reps && j in reps && i != j ==> reps[i] != reps[j])
    }

    constructor ()
      ensures Valid() && reps == map[] && next == 0
    {
      next, reps := 0, map[];
    }

    method Add() returns (id: nat, rep: Replica)
      requires Valid()
      modifies this
      ensures Valid() && fresh(rep) && rep.ch == []
      ensures id == old(next) && next == id + 1 && id !in old(reps) && reps == old(reps)[id := rep]
    {
      rep := new Replica();
      id := next;
      next, reps := next + 1, reps[id := rep];
    }

    /** Unregister first, close second: from the first assignment on no Propagate can reach the feed. */
    method Remove(id: nat)
      requires Valid() && id in reps
      modifies this, reps[id]
      ensures Valid() && reps == old(reps) - {id} && next == old(next)
      ensures old(reps[id]).closed && old(reps[id]).ch == old(reps[id].ch)
    {
      var rep := reps[id];
      reps := reps - {id};
      rep.closed := true;
    }

    /** The command is encoded once and offered to every registered feed, in whatever order the map is ranged over. */
    method Propagate(cmd: Value)
      requires Valid()
      modifies reps.Values
      ensures Valid() && reps == old(reps) && next == old(next)
      ensures forall id :: id in reps ==> reps[id].ch == Offer(old(reps[id].ch), Encode(cmd))
    {
      var frame := Frame(cmd);
      var pending := reps.Keys;
      while pending != {}
        invariant pending <= reps.Keys && Valid() && reps == old(reps)
        invariant forall id :: id in reps ==>
                    reps[id].ch == if id in pending then old(reps[id].ch) else Offer(old(reps[id].ch), frame)
        decreases |pending|
      {
        var id :| id in pending;
        pending := pending - {id};
        SendTo(reps[id], frame);
      }
    }
  }

  /** The select with a default: a feed without room is passed over. */
  method SendTo(rep: Replica, frame: bytes)
    requires !rep.closed && |rep.ch| <= QUEUE_CAP
    modifies rep`ch
    ensures rep.ch == Offer(old(rep.ch), frame) && |rep.ch| <= QUEUE_CAP
  {
    if |rep.ch| < QUEUE_CAP {
      rep.ch := rep.ch + [frame];
    }
  }

  method Frame(cmd: Value) returns (frame: bytes)
    ensures frame == Encode(cmd)
  {
    var w := new Writer();
    Write(w, cmd);
    frame := w.out;
  }

  // ------------------------------------------------------------------ the replica's side

  function PingCommand(): Value {
    Array([Bulk(Ascii("PING"))])
  }

  /** isHeartbeat: strings.EqualFold of the first element with PING, on ASCII. */
  predicate IsHeartbeat(v: Value) {
    v.Array? && v.elems != [] && Upper(BulkOf(v.elems[0])) == Ascii("PING")
  }

  /** The frames a replica applies: all but the heartbeats, in order. */
  function Stripped(frames: seq<Value>): seq<Value> {
    if frames == [] then []
    else
      var front, last := frames[..|frames| - 1], frames[|frames| - 1];
      Stripped(front) + if IsHeartbeat(last) then [] else [last]
  }

  lemma StrippedSnoc(frames: seq<Value>, v: Value)
    ensures Stripped(frames + [v]) == if IsHeartbeat(v) then Stripped(frames) else Stripped(frames) + [v]
  {
    assert (frames + [v])[..|frames|] == frames;
    assert Stripped(frames) + [] == Stripped(frames);
  }

  /** Writes are never taken for heartbeats. */
  lemma WriteIsNoHeartbeat(v: Value)
    requires IsWrite(NameIn(v))
    ensures !IsHeartbeat(v)
  {
    NameOfPing();
    assert IsHeartbeat(v) ==> Upper(CommandName(v)) == Ascii("PING");
  }

  lemma PingIsHeartbeat()
    ensures IsHeartbeat(PingCommand()) && WellFormed(PingCommand())
  {
    assert Upper(Ascii("PING")) == Ascii("PING");
  }

  /** streamOnce after its handshake: ack heartbeats, apply the rest, until the stream ends. */
  method Follow(start: Keyspace, stream: bytes, clock: nat -> Time) returns (ks: Keyspace, acks: nat)
    ensures ks == RunAt(start, Stripped(Scan(stream).cmds), clock)
    ensures acks == |Scan(stream).cmds| - |Stripped(Scan(stream).cmds)|
  {
    ks, acks := start, 0;
    var r := new Reader(stream);
    ghost var all := Scan(stream);
    ghost var done: seq<Value> := [];
    var applied := 0;
    assert [] + all.cmds == all.cmds;
    while true
      invariant (all.cmds, all.corrupt) == (done + Scan(r.rest).cmds, Scan(r.rest).corrupt)
      invariant ks == RunAt(start, Stripped(done), clock)
      invariant applied == |Stripped(done)| && acks == |done| - applied
      decreases |r.rest|
    {
      ScanStep(done, r.rest);
      var frame := Next(r);
      match frame
      case CleanEof => return;
      case Torn => return;
      case Corrupt => return;
      case Ok(cmd, rest) =>
        StrippedSnoc(done, cmd);
        if IsHeartbeat(cmd) {
          acks := acks + 1;
        } else {
          RunAtSnoc(start, Stripped(done), cmd, clock);
          ks := Dispatch(ks, cmd, clock(applied)).0;
          applied := applied + 1;
        }
        done := done + [cmd];
    }
  }

  // ------------------------------------------------------------------ order

  /** a can be had from b by leaving elements out. */
  predicate Sub<T(==)>(a: seq<T>, b: seq<T>) {
    if a == [] then true
    else if b == [] then false
    else
      var m, n := |a| - 1, |b| - 1;
      (a[m] == b[n] && Sub(a[..m], b[..n])) || Sub(a, b[..n])
  }

  lemma SubSnoc<T>(a: seq<T>, b: seq<T>, x: T)
    requires Sub(a, b)
    ensures Sub(a, b + [x]) && Sub(a + [x], b + [x])
  {
    assert (b + [x])[..|b|] == b && (a + [x])[..|a|] == a;
  }
}
