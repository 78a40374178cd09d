/**
 What reaches a replica: in every run, its frames are the primary's writes since it
 registered, in order, with nothing missing unless its queue overflowed. From that,
 which keys a drained replica is bound to agree on.
 */
module FeedSafety {
  import opened Bytes
  import opened Resp
  import opened Keyspace
  import opened Images
  import opened Log
  import opened Replication
  import opened System
  import LogSafety

  /** The write frames a feed has delivered or still holds. */
  function Stream(f: Feed): seq<Value> {
    Stripped(f.delivered + f.queue)
  }

  /**
   The stream is a subsequence of the writes since the feed registered, and as long as
   nothing was dropped it is an unbroken run of them from the first.
   */
  ghost predicate FeedOk(sent: seq<Value>, f: Feed) {
    && f.start <= |sent| && |f.queue| <= QUEUE_CAP && AllWellFormed(f.delivered + f.queue)
    && Sub(Stream(f), sent[f.start..]) && (!f.lost ==> Stream(f) <= sent[f.start..])
  }

  /** If nothing was dropped the run is not over yet: the stream is all the writes since. */
  ghost predicate Complete(sent: seq<Value>, f: Feed) {
    f.start <= |sent| && (!f.lost ==> Stream(f) == sent[f.start..])
  }

  predicate Streamable(v: Value) {
    WellFormed(v) && !IsHeartbeat(v)
  }

  ghost predicate SentForm(s: State) {
    match s.job
    case Writing(req, _, _, _, _) => s.writes == s.sent && Streamable(req)
    case Appending(req) => s.writes == s.sent && Streamable(req)
    case Shipping(req) => s.writes == s.sent + [req] && Streamable(req)
    case _ => s.writes == s.sent
  }

  ghost predicate Inv(s: State) {
    !s.panicked && SentForm(s) && FeedsOk(s.sent, s.nextId, s.feeds, s.registered)
  }

  ghost predicate FeedsOk(sent: seq<Value>, nextId: nat, feeds: map<nat, Feed>, registered: set<nat>) {
    && registered <= feeds.Keys
    && (forall id :: id in feeds ==> id < nextId && FeedOk(sent, feeds[id]))
    && (forall id :: id in registered ==> !feeds[id].closed && Complete(sent, feeds[id]))
  }

  // ------------------------------------------------------------------ one feed, one send

  lemma StreamSend(f: Feed, v: Value)
    requires AllWellFormed(f.delivered + f.queue) && WellFormed(v)
    ensures AllWellFormed(Send(f, v).delivered + Send(f, v).queue)
    ensures Stream(Send(f, v)) == if |f.queue| < QUEUE_CAP && !IsHeartbeat(v) then Stream(f) + [v] else Stream(f)
  {
    if |f.queue| < QUEUE_CAP {
      assert f.delivered + (f.queue + [v]) == (f.delivered + f.queue) + [v];
      StrippedSnoc(f.delivered + f.queue, v);
    }
  }

  lemma SendWrite(sent: seq<Value>, f: Feed, v: Value)
    requires FeedOk(sent, f) && Complete(sent, f) && Streamable(v)
    ensures FeedOk(sent + [v], Send(f, v)) && Complete(sent + [v], Send(f, v))
  {
    StreamSend(f, v);
    SuffixSnoc(sent, f.start, v);
    SubSnoc(Stream(f), sent[f.start..], v);
  }

  lemma SkipWrite(sent: seq<Value>, f: Feed, v: Value)
    requires FeedOk(sent, f)
    ensures FeedOk(sent + [v], f)
  {
    SuffixSnoc(sent, f.start, v);
    SubSnoc(Stream(f), sent[f.start..], v);
  }

  lemma SendPing(sent: seq<Value>, f: Feed)
    requires FeedOk(sent, f) && Complete(sent, f)
    ensures FeedOk(sent, Send(f, PingCommand())) && Complete(sent, Send(f, PingCommand()))
  {
    PingIsHeartbeat();
    StreamSend(f, PingCommand());
  }

  // ------------------------------------------------------------------ steps

  lemma ShipKeeps(s: State)
    requires Inv(s) && s.job.Shipping?
    ensures Inv(Next(s, Ship))
  {
    var t, v := Next(s, Ship), s.job.req;
    forall id | id in t.feeds
      ensures id < t.nextId && FeedOk(t.sent, t.feeds[id])
      ensures id in t.registered ==> !t.feeds[id].closed && Complete(t.sent, t.feeds[id])
    {
      if id in s.registered {
        SendWrite(s.sent, s.feeds[id], v);
      } else {
        SkipWrite(s.sent, s.feeds[id], v);
      }
    }
  }

  lemma HeartbeatKeeps(s: State)
    requires Inv(s)
    ensures Inv(Next(s, Heartbeat))
  {
    var t := Next(s, Heartbeat);
    forall id | id in t.feeds
      ensures id < t.nextId && FeedOk(t.sent, t.feeds[id])
      ensures id in t.registered ==> !t.feeds[id].closed && Complete(t.sent, t.feeds[id])
    {
      if id in s.registered {
        SendPing(s.sent, s.feeds[id]);
      }
    }
  }

  lemma Repartition(f: Feed)
    requires f.queue != []
    ensures HandedOn(f).delivered + HandedOn(f).queue == f.delivered + f.queue
  {
  }

  /** How a feed's frames are split between socket and queue makes no difference. */
  lemma SplitAnyhow(sent: seq<Value>, f: Feed, g: Feed)
    requires FeedOk(sent, f) && g.delivered + g.queue == f.delivered + f.queue && |g.queue| <= |f.queue|
    requires g.start == f.start && g.lost == f.lost
    ensures FeedOk(sent, g) && (Complete(sent, f) ==> Complete(sent, g))
  {
  }

  lemma DeliverKeeps(s: State, id: nat)
    requires Inv(s) && id in s.feeds && s.feeds[id].queue != []
    ensures Inv(Next(s, Deliver(id)))
  {
    var feeds := Delivered(s.sent, s.nextId, s.feeds, s.registered, id);
    DeliverForm(s, id);
    FeedsMoved(s, Next(s, Deliver(id)), feeds);
  }

  lemma DeliverForm(s: State, id: nat)
    requires id in s.feeds && s.feeds[id].queue != []
    ensures Next(s, Deliver(id)) == s.(feeds := s.feeds[id := HandedOn(s.feeds[id])])
  {
  }

  lemma FeedsMoved(s: State, t: State, feeds: map<nat, Feed>)
    requires Inv(s) && FeedsOk(s.sent, s.nextId, feeds, s.registered) && t == s.(feeds := feeds)
    ensures Inv(t)
  {
  }

  lemma Delivered(sent: seq<Value>, nextId: nat, feeds: map<nat, Feed>, registered: set<nat>, id: nat) returns (after: map<nat, Feed>)
    requires FeedsOk(sent, nextId, feeds, registered) && id in feeds && feeds[id].queue != []
    ensures after == feeds[id := HandedOn(feeds[id])] && FeedsOk(sent, nextId, after, registered)
  {
    after := feeds[id := HandedOn(feeds[id])];
    Repartition(feeds[id]);
    SplitAnyhow(sent, feeds[id], HandedOn(feeds[id]));
    FeedReplaced(sent, nextId, feeds, registered, id, HandedOn(feeds[id]));
  }

  lemma FeedReplaced(sent: seq<Value>, nextId: nat, feeds: map<nat, Feed>, registered: set<nat>, id: nat, f: Feed)
    requires FeedsOk(sent, nextId, feeds, registered) && id < nextId && FeedOk(sent, f)
    requires id in registered ==> !f.closed && Complete(sent, f)
    ensures FeedsOk(sent, nextId, feeds[id := f], registered)
  {
  }

  lemma MembershipKeeps(route: bytes -> nat, s: State, step: Step)
    requires Inv(s) && Enabled(route, s, step) && (step.AddReplica? || step.Unregister? || step.Close?)
    ensures Inv(Next(s, step))
  {
    var t := Next(s, step);
    match step
    case AddReplica =>
      FeedReplaced(s.sent, t.nextId, s.feeds, s.registered, s.nextId, t.feeds[s.nextId]);
    case Close(id) =>
      FeedReplaced(s.sent, s.nextId, s.feeds, s.registered, id, t.feeds[id]);
    case _ =>
  }

  /** Every other step leaves feeds and sent alone. */
  lemma OthersKeep(route: bytes -> nat, s: State, step: Step)
    requires Inv(s) && Enabled(route, s, step)
    requires !step.Ship? && !step.Heartbeat? && !step.Deliver? && !step.AddReplica? && !step.Unregister? && !step.Close?
    ensures Inv(Next(s, step))
  {
    var t := Next(s, step);
    if step.Begin? {
      WriteIsNoHeartbeat(step.req);
    }
    assert SentForm(t);
  }

  lemma StepKeeps(route: bytes -> nat, s: State, step: Step)
    requires Inv(s) && Enabled(route, s, step)
    ensures Inv(Next(s, step))
  {
    match step
    case Ship => ShipKeeps(s);
    case Heartbeat => HeartbeatKeeps(s);
    case Deliver(id) => DeliverKeeps(s, id);
    case AddReplica => MembershipKeeps(route, s, step);
    case Unregister(_) => MembershipKeeps(route, s, step);
    case Close(_) => MembershipKeeps(route, s, step);
    case _ => OthersKeep(route, s, step);
  }

  /**
   In every state of every run no send ever met a closed queue, no queue holds more
   than 256 frames, and every feed's write frames, delivered and queued, are the
   writes propagated since it registered: in order, and all of them unless one was
   dropped for lack of room.
   */
  lemma {:induction false} FeedsInOrder(route: bytes -> nat, b: Start, states: seq<State>, steps: seq<Step>, i: nat)
    requires IsRun(route, states, steps) && states[0] == Boot(b) && i <= |steps|
    ensures Inv(states[i])
  {
    if i > 0 {
      FeedsInOrder(route, b, states, steps, i - 1);
      StepKeeps(route, states[i - 1], steps[i - 1]);
    }
  }

  // ------------------------------------------------------------------ convergence

  /** Primary and replica agreed on k when the stream started, or the stream has reset k since. */
  ghost predicate Settled(sent: seq<Value>, start: nat, img: Image, k: bytes)
    requires start <= |sent|
  {
    || Lookup(img, k) == Lookup(UntimedRun(map[], sent[..start]), k)
    || exists i :: start <= i < |sent| && Resets(sent[i], k)
  }

  lemma SettledAgrees(sent: seq<Value>, start: nat, img: Image, k: bytes)
    requires start <= |sent| && Settled(sent, start, img, k)
    ensures Lookup(UntimedRun(img, sent[start..]), k) == Lookup(UntimedRun(map[], sent), k)
  {
    Halves(sent, start);
    if Lookup(img, k) == Lookup(UntimedRun(map[], sent[..start]), k) {
      SettledByStart(sent[..start], sent[start..], img, k);
    } else {
      var i :| start <= i < |sent| && Resets(sent[i], k);
      SettledFrom(sent, start, i, sent[i], img, k);
    }
  }

  lemma Halves(sent: seq<Value>, start: nat)
    requires start <= |sent|
    ensures sent == sent[..start] + sent[start..]
  {
  }

  lemma Around(sent: seq<Value>, start: nat, i: nat)
    requires start <= i < |sent|
    ensures sent[start..] == sent[start..i] + [sent[i]] + sent[i + 1..]
  {
  }

  lemma SettledFrom(sent: seq<Value>, start: nat, i: nat, reset: Value, img: Image, k: bytes)
    requires start <= i < |sent| && sent[i] == reset && Resets(reset, k)
    ensures Lookup(UntimedRun(img, sent[start..]), k) == Lookup(UntimedRun(map[], sent), k)
  {
    Halves(sent, start);
    Around(sent, start, i);
    SettledByReset(sent[..start], sent[start..i], reset, sent[i + 1..], img, k);
  }

  lemma SettledByStart(before: seq<Value>, stream: seq<Value>, img: Image, k: bytes)
    requires Lookup(img, k) == Lookup(UntimedRun(map[], before), k)
    ensures Lookup(UntimedRun(img, stream), k) == Lookup(UntimedRun(map[], before + stream), k)
  {
    UntimedRunConcat(map[], before, stream);
    UntimedRunLocal(img, UntimedRun(map[], before), stream, k);
  }

  lemma SettledByReset(before: seq<Value>, a: seq<Value>, reset: Value, b: seq<Value>, img: Image, k: bytes)
    requires Resets(reset, k)
    ensures Lookup(UntimedRun(img, a + [reset] + b), k) == Lookup(UntimedRun(map[], before + (a + [reset] + b)), k)
  {
    UntimedRunConcat(map[], before, a + [reset] + b);
    UntimedRunForgets(img, UntimedRun(map[], before), a, reset, b, k);
  }

  /**
   Per-key convergence. A replica that has followed a complete, drained feed shows on
   every settled key what the primary shows, as long as neither side ran into a
   deadline on it and the primary is not in the middle of a write.
   */
  lemma ReplicaConverges(route: bytes -> nat, s: State, id: nat, replica: Keyspace, clock: nat -> Time, k: bytes)
    requires LogSafety.Inv(route, s) && Inv(s)
    requires id in s.registered && !s.feeds[id].lost && s.feeds[id].queue == []
    requires !LogSafety.MidWrite(s.job) && !s.job.Shipping? && k !in s.ever
    requires Settled(s.sent, s.feeds[id].start, ImageOf(replica), k)
    requires QuietAt(replica, Stream(s.feeds[id]), clock, k)
    ensures var frames := Scan(EncodeAll(s.feeds[id].delivered)).cmds;
            ShapeOf(Lookup(RunAt(replica, Stripped(frames), clock), k)) == ViewAt(s.ks, s.now, k)
  {
    var f := s.feeds[id];
    DrainedStream(s, f);
    ImageLookup(replica, k);
    RunAtUntimed(replica, Stream(f), clock, ImageOf(replica), k);
    SettledAgrees(s.sent, f.start, ImageOf(replica), k);
    assert LogSafety.KeyInv(route, s, k);
  }

  /** What a replica decodes from a drained, complete feed. */
  lemma DrainedStream(s: State, f: Feed)
    requires FeedOk(s.sent, f) && Complete(s.sent, f) && !f.lost && f.queue == []
    ensures Stripped(Scan(EncodeAll(f.delivered)).cmds) == Stream(f) == s.sent[f.start..]
  {
    assert f.delivered + f.queue == f.delivered;
    ScanEncoded(f.delivered);
  }
}
