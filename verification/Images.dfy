/**
 The keyspace without its clock. An image keeps every value and whether it carries
 a TTL, but not when the TTL runs out. As long as no deadline is reached, commands
 act on images alone, which is what lets a log written at one time be replayed at another.
 */
module Images {
  import opened Bytes
  import opened Resp
  import opened Keyspace
  import opened Commands

  datatype Shape = Shape(data: Data, ttl: bool)

  type Image = map<bytes, Shape>

  function ShapeOf(e: Option<Entry>): Option<Shape> {
    match e
    case None => None
    case Some(x) => Some(Shape(x.data, x.expireAt.Some?))
  }

  function ImageOf(ks: Keyspace): Image {
    map k | k in ks :: Shape(ks[k].data, ks[k].expireAt.Some?)
  }

  /** Some entry of the given shape that is live at instant 0. */
  function Sample(s: Option<Shape>): (e: Option<Entry>)
    ensures ShapeOf(e) == s && (e.Some? ==> !Expired(e.value, 0))
  {
    match s
    case None => None
    case Some(x) => Some(Entry(x.data, if x.ttl then Some(1) else None))
  }

  /** An operation on a shape: what it does to a sample of it. */
  function Untimed(op: Op, s: Option<Shape>): Option<Shape>
  {
    ShapeOf(Run(op, Sample(s), 0).0)
  }

  predicate UntimedFails(op: Op, s: Option<Shape>)
  {
    Run(op, Sample(s), 0).1.WrongType?
  }

  /** The choice of sample does not matter: every live entry of the shape is changed alike. */
  lemma RunUntimed(op: Op, e: Option<Entry>, now: Time)
    requires (e.Some? ==> !Expired(e.value, now))
    ensures ShapeOf(Run(op, e, now).0) == Untimed(op, ShapeOf(e))
    ensures Run(op, e, now).1.WrongType? <==> UntimedFails(op, ShapeOf(e))
  {
    match e
    case None =>
    case Some(Entry(StrData(_), _)) => RunUntimedString(op, e.value, now);
    case Some(Entry(ListData(_), _)) => RunUntimedList(op, e.value, now);
    case Some(Entry(HashData(_), _)) => RunUntimedHash(op, e.value, now);
    case Some(Entry(SetData(_), _)) => RunUntimedSet(op, e.value, now);
  }

  lemma RunUntimedString(op: Op, e: Entry, now: Time)
    requires e.data.StrData? && !Expired(e, now)
    ensures ShapeOf(Run(op, Some(e), now).0) == Untimed(op, ShapeOf(Some(e)))
    ensures Run(op, Some(e), now).1.WrongType? <==> UntimedFails(op, ShapeOf(Some(e)))
  {
  }

  lemma RunUntimedList(op: Op, e: Entry, now: Time)
    requires e.data.ListData? && !Expired(e, now)
    ensures ShapeOf(Run(op, Some(e), now).0) == Untimed(op, ShapeOf(Some(e)))
    ensures Run(op, Some(e), now).1.WrongType? <==> UntimedFails(op, ShapeOf(Some(e)))
  {
  }

  lemma RunUntimedHash(op: Op, e: Entry, now: Time)
    requires e.data.HashData? && !Expired(e, now)
    ensures ShapeOf(Run(op, Some(e), now).0) == Untimed(op, ShapeOf(Some(e)))
    ensures Run(op, Some(e), now).1.WrongType? <==> UntimedFails(op, ShapeOf(Some(e)))
  {
  }

  lemma RunUntimedSet(op: Op, e: Entry, now: Time)
    requires e.data.SetData? && !Expired(e, now)
    ensures ShapeOf(Run(op, Some(e), now).0) == Untimed(op, ShapeOf(Some(e)))
    ensures Run(op, Some(e), now).1.WrongType? <==> UntimedFails(op, ShapeOf(Some(e)))
  {
  }

  function UntimedAll(img: Image, keys: seq<bytes>, op: Op): Image
  {
    if keys == [] then img
    else
      var before := UntimedAll(img, keys[..|keys| - 1], op);
      var k := keys[|keys| - 1];
      Put(before, k, Untimed(op, Lookup(before, k)))
  }

  function UntimedDispatch(img: Image, req: Value): Image {
    match PlanOf(req)
    case On(keys, op) => UntimedAll(img, keys, op)
    case _ => img
  }

  lemma PlanImage(img: Image, req: Value, keys: seq<bytes>, op: Op)
    requires PlanOf(req) == On(keys, op)
    ensures UntimedDispatch(img, req) == UntimedAll(img, keys, op)
  {
  }

  function UntimedRun(img: Image, reqs: seq<Value>): Image {
    if reqs == [] then img
    else UntimedDispatch(UntimedRun(img, reqs[..|reqs| - 1]), reqs[|reqs| - 1])
  }

  lemma {:induction false} UntimedRunConcat(img: Image, a: seq<Value>, b: seq<Value>)
    ensures UntimedRun(img, a + b) == UntimedRun(UntimedRun(img, a), b)
  {
    if b == [] {
      assert a + b == a;
    } else {
      var front := b[..|b| - 1];
      assert (a + b)[..|a + b| - 1] == a + front;
      UntimedRunConcat(img, a, front);
    }
  }

  lemma UntimedRunSnoc(img: Image, reqs: seq<Value>, req: Value)
    ensures UntimedRun(img, reqs + [req]) == UntimedDispatch(UntimedRun(img, reqs), req)
  {
    assert (reqs + [req])[..|reqs|] == reqs;
  }

  lemma UntimedRunOne(img: Image, req: Value)
    ensures UntimedRun(img, [req]) == UntimedDispatch(img, req)
  {
    assert [req][..0] == [];
  }

  // ------------------------------------------------------------------ what a client can see of a timed keyspace

  lemma ImageLookup(ks: Keyspace, k: bytes)
    ensures Lookup(ImageOf(ks), k) == ShapeOf(Lookup(ks, k))
  {
  }

  function ViewAt(ks: Keyspace, now: Time, k: bytes): Option<Shape> {
    ShapeOf(Visible(Lookup(ks, k), now))
  }

  function View(ks: Keyspace, now: Time): Image {
    map k | k in ks && !Expired(ks[k], now) :: Shape(ks[k].data, ks[k].expireAt.Some?)
  }

  lemma ViewLookup(ks: Keyspace, now: Time, k: bytes)
    ensures Lookup(View(ks, now), k) == ViewAt(ks, now, k)
  {
  }

  /** Only time can change the view of a key behind the commands' back. */
  lemma ActView(ks: Keyspace, key: bytes, op: Op, now: Time, k: bytes)
    ensures ViewAt(Act(ks, key, op, now).0, now, k) ==
            if k == key then Untimed(op, ViewAt(ks, now, k)) else ViewAt(ks, now, k)
    ensures Act(ks, key, op, now).1.WrongType? <==> UntimedFails(op, ViewAt(ks, now, key))
  {
    var e := Visible(Lookup(ks, key), now);
    RunUntimed(op, e, now);
    RunKeeps(op, e, now);
  }

  lemma {:induction false} ActAllView(ks: Keyspace, keys: seq<bytes>, op: Op, now: Time, img: Image, k: bytes)
    requires Lookup(img, k) == ViewAt(ks, now, k)
    ensures Lookup(UntimedAll(img, keys, op), k) == ViewAt(ActAll(ks, keys, op, now).0, now, k)
  {
    if keys != [] {
      var front := keys[..|keys| - 1];
      ActAllView(ks, front, op, now, img, k);
      ActView(ActAll(ks, front, op, now).0, keys[|keys| - 1], op, now, k);
    }
  }

  lemma DispatchView(ks: Keyspace, req: Value, now: Time, img: Image, k: bytes)
    requires Lookup(img, k) == ViewAt(ks, now, k)
    ensures Lookup(UntimedDispatch(img, req), k) == ViewAt(Dispatch(ks, req, now).0, now, k)
  {
    var p := PlanOf(req);
    if p.On? {
      ActAllView(ks, p.keys, p.op, now, img, k);
    }
  }

  /** Requests dispatched one after another, the i-th at instant clock(i). */
  function RunAt(ks: Keyspace, reqs: seq<Value>, clock: nat -> Time): Keyspace {
    if reqs == [] then ks
    else
      var n := |reqs| - 1;
      Dispatch(RunAt(ks, reqs[..n], clock), reqs[n], clock(n)).0
  }

  lemma RunAtSnoc(ks: Keyspace, reqs: seq<Value>, req: Value, clock: nat -> Time)
    ensures RunAt(ks, reqs + [req], clock) == Dispatch(RunAt(ks, reqs, clock), req, clock(|reqs|)).0
  {
    assert (reqs + [req])[..|reqs|] == reqs;
  }

  /** Whenever one of the requests runs, a deadline on k still lies ahead. */
  ghost predicate QuietAt(ks: Keyspace, reqs: seq<Value>, clock: nat -> Time, k: bytes) {
    forall i :: 0 <= i < |reqs| ==> NotExpiredAt(RunAt(ks, reqs[..i], clock), k, clock(i))
  }

  /** While no deadline on k is reached, when the requests ran makes no difference to k. */
  lemma {:induction false} RunAtUntimed(ks: Keyspace, reqs: seq<Value>, clock: nat -> Time, img: Image, k: bytes)
    requires QuietAt(ks, reqs, clock, k)
    requires ShapeOf(Lookup(ks, k)) == Lookup(img, k)
    ensures ShapeOf(Lookup(RunAt(ks, reqs, clock), k)) == Lookup(UntimedRun(img, reqs), k)
  {
    if reqs != [] {
      var n := |reqs| - 1;
      forall i | 0 <= i < n
        ensures NotExpiredAt(RunAt(ks, reqs[..n][..i], clock), k, clock(i))
      {
        assert reqs[..n][..i] == reqs[..i];
      }
      RunAtUntimed(ks, reqs[..n], clock, img, k);
      RunAtUntimedStep(RunAt(ks, reqs[..n], clock), reqs[n], clock(n), UntimedRun(img, reqs[..n]), k);
    }
  }

  lemma RunAtUntimedStep(ks: Keyspace, req: Value, now: Time, img: Image, k: bytes)
    requires NotExpiredAt(ks, k, now) && ShapeOf(Lookup(ks, k)) == Lookup(img, k)
    ensures ShapeOf(Lookup(Dispatch(ks, req, now).0, k)) == Lookup(UntimedDispatch(img, req), k)
  {
    DispatchView(ks, req, now, img, k);
    DispatchKeepsLive(ks, req, now, k);
  }

  lemma DispatchKeepsLive(ks: Keyspace, req: Value, now: Time, k: bytes)
    requires NotExpiredAt(ks, k, now)
    ensures NotExpiredAt(Dispatch(ks, req, now).0, k, now)
  {
    var p := PlanOf(req);
    if p.On? {
      ActAllKeepsLive(ks, p.keys, p.op, now, k);
    }
  }

  lemma ActKeepsLive(ks: Keyspace, key: bytes, op: Op, now: Time, k: bytes)
    requires NotExpiredAt(ks, k, now)
    ensures NotExpiredAt(Act(ks, key, op, now).0, k, now)
  {
    RunKeeps(op, Visible(Lookup(ks, key), now), now);
    assert Lookup(Act(ks, key, op, now).0, k) == if k == key then Step(op, Lookup(ks, k), now).0 else Lookup(ks, k);
  }

  lemma {:induction false} ActAllKeepsLive(ks: Keyspace, keys: seq<bytes>, op: Op, now: Time, k: bytes)
    requires NotExpiredAt(ks, k, now)
    ensures NotExpiredAt(ActAll(ks, keys, op, now).0, k, now)
  {
    if keys != [] {
      var front := keys[..|keys| - 1];
      ActAllKeepsLive(ks, front, op, now, k);
      ActKeepsLive(ActAll(ks, front, op, now).0, keys[|keys| - 1], op, now, k);
    }
  }

  // ------------------------------------------------------------------ replays that are calm from a reset on

  /** Whenever one of the requests from the r-th up to the n-th runs, a deadline on k still lies ahead. */
  ghost predicate QuietBetween(reqs: seq<Value>, clock: nat -> Time, k: bytes, r: nat, n: nat)
    requires n <= |reqs|
  {
    forall i :: r <= i < n ==> AliveAt(reqs, clock, k, i)
  }

  /** When the i-th request runs, a deadline on k still lies ahead. */
  ghost predicate AliveAt(reqs: seq<Value>, clock: nat -> Time, k: bytes, i: nat)
    requires i <= |reqs|
  {
    NotExpiredAt(RunAt(map[], reqs[..i], clock), k, clock(i))
  }

  ghost predicate QuietFrom(reqs: seq<Value>, clock: nat -> Time, k: bytes, r: nat) {
    QuietBetween(reqs, clock, k, r, |reqs|)
  }

  /** The r-th request is the first, or the one before it resets k. */
  predicate Anchored(reqs: seq<Value>, k: bytes, r: nat) {
    r <= |reqs| && (r == 0 || Resets(reqs[r - 1], k))
  }

  /** What happened to k before it was last reset does not matter: from there on, or from the start, the run is quiet. */
  ghost predicate CalmAt(reqs: seq<Value>, clock: nat -> Time, k: bytes) {
    exists r :: Anchored(reqs, k, r) && QuietFrom(reqs, clock, k, r)
  }

  lemma QuietIsCalm(reqs: seq<Value>, clock: nat -> Time, k: bytes)
    requires QuietAt(map[], reqs, clock, k)
    ensures CalmAt(reqs, clock, k)
  {
    forall i | 0 <= i < |reqs|
      ensures AliveAt(reqs, clock, k, i)
    {
    }
    assert Anchored(reqs, k, 0) && QuietFrom(reqs, clock, k, 0);
  }

  /** A write leaves none of its keys expired. */
  lemma {:induction false} ActAllUnexpired(ks: Keyspace, keys: seq<bytes>, op: Op, now: Time, k: bytes)
    requires Mutates(op) && k in keys
    ensures NotExpiredAt(ActAll(ks, keys, op, now).0, k, now)
  {
    var front, last := keys[..|keys| - 1], keys[|keys| - 1];
    var before := ActAll(ks, front, op, now).0;
    if k == last {
      RunKeeps(op, Visible(Lookup(before, k), now), now);
      assert Lookup(Act(before, k, op, now).0, k) == Step(op, Lookup(before, k), now).0;
    } else {
      assert k in front;
      ActAllUnexpired(ks, front, op, now, k);
      ActKeepsLive(before, last, op, now, k);
    }
  }

  /** A reset leaves k as the log says, whatever state the reset found it in. */
  lemma ResetRestores(ks: Keyspace, req: Value, now: Time, img: Image, k: bytes)
    requires Resets(req, k)
    ensures ShapeOf(Lookup(Dispatch(ks, req, now).0, k)) == Lookup(UntimedDispatch(img, req), k)
  {
    var p := PlanOf(req);
    ViewLookup(ks, now, k);
    DispatchView(ks, req, now, View(ks, now), k);
    ResetForgets(View(ks, now), img, req, k);
    ActAllUnexpired(ks, p.keys, p.op, now, k);
  }

  lemma QuietFromFront(reqs: seq<Value>, clock: nat -> Time, k: bytes, r: nat, n: nat)
    requires n <= |reqs| && QuietBetween(reqs, clock, k, r, n)
    ensures QuietFrom(reqs[..n], clock, k, r)
  {
    forall i | r <= i < n
      ensures AliveAt(reqs[..n], clock, k, i)
    {
      assert AliveAt(reqs, clock, k, i);
      assert reqs[..n][..i] == reqs[..i];
    }
  }

  /** From an anchor on, a quiet run leaves k as the log says. */
  lemma {:induction false} FromUntimed(reqs: seq<Value>, clock: nat -> Time, k: bytes, r: nat)
    requires Anchored(reqs, k, r) && QuietFrom(reqs, clock, k, r)
    ensures ShapeOf(Lookup(RunAt(map[], reqs, clock), k)) == Lookup(UntimedRun(map[], reqs), k)
  {
    if reqs != [] {
      var n := |reqs| - 1;
      var before, img := RunAt(map[], reqs[..n], clock), UntimedRun(map[], reqs[..n]);
      if r == |reqs| {
        ResetRestores(before, reqs[n], clock(n), img, k);
      } else {
        QuietFromFront(reqs, clock, k, r, n);
        FromUntimed(reqs[..n], clock, k, r);
        assert AliveAt(reqs, clock, k, n);
        RunAtUntimedStep(before, reqs[n], clock(n), img, k);
      }
    }
  }

  lemma CalmUntimed(reqs: seq<Value>, clock: nat -> Time, k: bytes)
    requires CalmAt(reqs, clock, k)
    ensures ShapeOf(Lookup(RunAt(map[], reqs, clock), k)) == Lookup(UntimedRun(map[], reqs), k)
  {
    var r :| Anchored(reqs, k, r) && QuietFrom(reqs, clock, k, r);
    FromUntimed(reqs, clock, k, r);
  }

  /** At the instant the i-th request runs, clients see of k what the log says. */
  ghost predicate OnTrack(reqs: seq<Value>, clock: nat -> Time, k: bytes, i: nat)
    requires i < |reqs|
  {
    ViewAt(RunAt(map[], reqs[..i], clock), clock(i), k) == Lookup(UntimedRun(map[], reqs[..i]), k)
  }

  /**
   Exactly when a replay stays on track: from the start of the log, or from any reset
   of k on, clients see what the log says at every instant a command is replayed, if
   and only if no deadline on k has passed at any of those instants.
   */
  lemma ReplayOnTrackIff(reqs: seq<Value>, clock: nat -> Time, k: bytes, r: nat)
    requires Anchored(reqs, k, r)
    ensures (forall i :: r <= i < |reqs| ==> OnTrack(reqs, clock, k, i)) <==> QuietFrom(reqs, clock, k, r)
  {
    forall i | r <= i < |reqs| && QuietBetween(reqs, clock, k, r, i)
      ensures OnLog(reqs, clock, k, i)
    {
      QuietFromFront(reqs, clock, k, r, i);
      FromUntimed(reqs[..i], clock, k, r);
    }
    if QuietFrom(reqs, clock, k, r) {
      forall i | r <= i < |reqs|
        ensures OnTrack(reqs, clock, k, i)
      {
        assert QuietBetween(reqs, clock, k, r, i) && AliveAt(reqs, clock, k, i);
        OnTrackOnLog(reqs, clock, k, i);
      }
    }
    if forall i :: r <= i < |reqs| ==> OnTrack(reqs, clock, k, i) {
      OnTrackQuiet(reqs, clock, k, r, |reqs|);
    }
  }

  /** The first i requests leave k as the log says. */
  ghost predicate OnLog(reqs: seq<Value>, clock: nat -> Time, k: bytes, i: nat)
    requires i <= |reqs|
  {
    ShapeOf(Lookup(RunAt(map[], reqs[..i], clock), k)) == Lookup(UntimedRun(map[], reqs[..i]), k)
  }

  lemma OnTrackOnLog(reqs: seq<Value>, clock: nat -> Time, k: bytes, i: nat)
    requires i < |reqs| && OnLog(reqs, clock, k, i)
    ensures OnTrack(reqs, clock, k, i) <==> AliveAt(reqs, clock, k, i)
  {
    SeenIsUnexpired(RunAt(map[], reqs[..i], clock), clock(i), k);
  }

  lemma OnTrackQuiet(reqs: seq<Value>, clock: nat -> Time, k: bytes, r: nat, n: nat)
    requires n <= |reqs| && forall i :: r <= i < |reqs| && QuietBetween(reqs, clock, k, r, i) ==> OnLog(reqs, clock, k, i)
    requires forall i :: r <= i < n ==> OnTrack(reqs, clock, k, i)
    ensures QuietBetween(reqs, clock, k, r, n)
  {
    var alive := (i: nat) => i < |reqs| && AliveAt(reqs, clock, k, i);
    forall i | r <= i < n && forall j: nat :: r <= j < i ==> alive(j)
      ensures alive(i)
    {
      forall j | r <= j < i
        ensures AliveAt(reqs, clock, k, j)
      {
        assert alive(j);
      }
      assert QuietBetween(reqs, clock, k, r, i);
      assert OnLog(reqs, clock, k, i) && OnTrack(reqs, clock, k, i);
      OnTrackOnLog(reqs, clock, k, i);
    }
    forall i | r <= i < n
      ensures AliveAt(reqs, clock, k, i)
    {
      OneByOne(alive, r, n, i);
    }
  }

  lemma {:induction false} OneByOne(p: nat -> bool, r: nat, n: nat, i: nat)
    requires forall i: nat :: r <= i < n && (forall j: nat :: r <= j < i ==> p(j)) ==> p(i)
    requires r <= i < n
    ensures p(i)
  {
    forall j: nat | r <= j < i
      ensures p(j)
    {
      OneByOne(p, r, n, j);
    }
  }

  lemma SeenIsUnexpired(ks: Keyspace, now: Time, k: bytes)
    ensures ViewAt(ks, now, k) == ShapeOf(Lookup(ks, k)) <==> NotExpiredAt(ks, k, now)
  {
  }

  // ------------------------------------------------------------------ replays that are quick enough

  /** The time to live that the plan gives k if k is live; 0 when it gives none. */
  function Given(p: Plan, k: bytes): int {
    if p.On? && k in p.keys && p.op.Expire? && p.op.d > 0 then p.op.d else 0
  }

  function Plans(reqs: seq<Value>): (ps: seq<Plan>)
    ensures |ps| == |reqs|
  {
    seq(|reqs|, i requires 0 <= i < |reqs| => PlanOf(reqs[i]))
  }

  function CarryAll(ks: Keyspace, ps: seq<Plan>, clock: nat -> Time): Keyspace {
    if ps == [] then ks
    else
      var n := |ps| - 1;
      Carry(CarryAll(ks, ps[..n], clock), ps[n], clock(n)).0
  }

  lemma CarryAllSnoc(ks: Keyspace, ps: seq<Plan>, p: Plan, clock: nat -> Time)
    ensures CarryAll(ks, ps + [p], clock) == Carry(CarryAll(ks, ps, clock), p, clock(|ps|)).0
  {
    assert (ps + [p])[..|ps|] == ps;
  }

  lemma {:induction false} RunAtPlans(ks: Keyspace, reqs: seq<Value>, clock: nat -> Time)
    ensures RunAt(ks, reqs, clock) == CarryAll(ks, Plans(reqs), clock)
  {
    if reqs != [] {
      var n := |reqs| - 1;
      RunAtPlans(ks, reqs[..n], clock);
      assert Plans(reqs)[..n] == Plans(reqs[..n]);
    }
  }

  /** At instant t, no time that one of the plans gave k has run out. */
  ghost predicate Outlasts(ps: seq<Plan>, clock: nat -> Time, k: bytes, t: Time) {
    forall i :: 0 <= i < |ps| && Given(ps[i], k) > 0 ==> t < clock(i) + Given(ps[i], k)
  }

  function Deadline(ks: Keyspace, k: bytes): Option<Time> {
    if k in ks then ks[k].expireAt else None
  }

  lemma ActDeadline(ks: Keyspace, key: bytes, op: Op, now: Time, k: bytes)
    ensures var t := Deadline(Act(ks, key, op, now).0, k);
            t == None || t == Deadline(ks, k) || (op.Expire? && op.d > 0 && k == key && t == Some(now + op.d))
  {
    if k == key {
      RunDeadline(op, Visible(Lookup(ks, k), now), now);
    } else {
      assert Lookup(Act(ks, key, op, now).0, k) == Lookup(ks, k);
    }
  }

  lemma RunDeadline(op: Op, e: Option<Entry>, now: Time)
    requires e.Some? ==> !Expired(e.value, now)
    ensures var (x, _) := Run(op, e, now);
            x.None? || x.value.expireAt == None || (e.Some? && x.value.expireAt == e.value.expireAt)
            || (op.Expire? && op.d > 0 && x.value.expireAt == Some(now + op.d))
  {
  }

  lemma {:induction false} ActAllDeadline(ks: Keyspace, keys: seq<bytes>, op: Op, now: Time, k: bytes)
    ensures var t := Deadline(ActAll(ks, keys, op, now).0, k);
            t == None || t == Deadline(ks, k) || (op.Expire? && op.d > 0 && k in keys && t == Some(now + op.d))
  {
    if keys != [] {
      var front := keys[..|keys| - 1];
      ActAllDeadline(ks, front, op, now, k);
      ActDeadline(ActAll(ks, front, op, now).0, keys[|keys| - 1], op, now, k);
    }
  }

  lemma CarryDeadline(ks: Keyspace, p: Plan, now: Time, k: bytes)
    ensures var t := Deadline(Carry(ks, p, now).0, k);
            t == None || t == Deadline(ks, k) || (Given(p, k) > 0 && t == Some(now + Given(p, k)))
  {
    if p.On? {
      ActAllDeadline(ks, p.keys, p.op, now, k);
    }
  }

  /** A deadline that the plans leave on k was given by one of them. */
  lemma {:induction false} DeadlineOrigin(ps: seq<Plan>, clock: nat -> Time, k: bytes) returns (i: nat)
    requires Deadline(CarryAll(map[], ps, clock), k).Some?
    ensures i < |ps| && Given(ps[i], k) > 0
    ensures Deadline(CarryAll(map[], ps, clock), k) == Some(clock(i) + Given(ps[i], k))
  {
    var n := |ps| - 1;
    var before := CarryAll(map[], ps[..n], clock);
    CarryDeadline(before, ps[n], clock(n), k);
    if Deadline(CarryAll(map[], ps, clock), k) == Deadline(before, k) {
      i := DeadlineOrigin(ps[..n], clock, k);
    } else {
      i := n;
    }
  }

  lemma OutlastsUnexpired(ps: seq<Plan>, clock: nat -> Time, k: bytes, t: Time)
    requires Outlasts(ps, clock, k, t)
    ensures NotExpiredAt(CarryAll(map[], ps, clock), k, t)
  {
    if Deadline(CarryAll(map[], ps, clock), k).Some? {
      var i := DeadlineOrigin(ps, clock, k);
    }
  }

  /**
   A replay quick enough meets no deadline: it suffices that no time given to k runs
   out while the later requests run, which can be read off the log and the clock.
   */
  lemma SwiftIsQuiet(reqs: seq<Value>, clock: nat -> Time, k: bytes)
    requires forall j :: 0 <= j < |reqs| ==> Outlasts(Plans(reqs[..j]), clock, k, clock(j))
    ensures QuietAt(map[], reqs, clock, k) && CalmAt(reqs, clock, k)
  {
    forall j | 0 <= j < |reqs|
      ensures NotExpiredAt(RunAt(map[], reqs[..j], clock), k, clock(j))
    {
      RunAtPlans(map[], reqs[..j], clock);
      OutlastsUnexpired(Plans(reqs[..j]), clock, k, clock(j));
    }
    QuietIsCalm(reqs, clock, k);
  }

  // ------------------------------------------------------------------ one key at a time

  /** A request's effect on a key depends on nothing but that key's own shape. */
  lemma UntimedLocal(a: Image, b: Image, req: Value, k: bytes)
    requires Lookup(a, k) == Lookup(b, k)
    ensures Lookup(UntimedDispatch(a, req), k) == Lookup(UntimedDispatch(b, req), k)
  {
    var p := PlanOf(req);
    if p.On? {
      UntimedAllLocal(a, b, p.keys, p.op, k);
    }
  }

  lemma {:induction false} UntimedAllLocal(a: Image, b: Image, keys: seq<bytes>, op: Op, k: bytes)
    requires Lookup(a, k) == Lookup(b, k)
    ensures Lookup(UntimedAll(a, keys, op), k) == Lookup(UntimedAll(b, keys, op), k)
  {
    if keys != [] {
      UntimedAllLocal(a, b, keys[..|keys| - 1], op, k);
    }
  }

  /** SET, DEL and an EXPIRE that deletes: what they leave at a key does not depend on what was there. */
  predicate Forgets(op: Op) {
    op.Set? || op.Del? || (op.Expire? && op.d <= 0)
  }

  predicate Resets(req: Value, k: bytes) {
    var p := PlanOf(req);
    p.On? && k in p.keys && Forgets(p.op)
  }

  lemma ResetForgets(a: Image, b: Image, req: Value, k: bytes)
    requires Resets(req, k)
    ensures Lookup(UntimedDispatch(a, req), k) == Lookup(UntimedDispatch(b, req), k)
  {
    var p := PlanOf(req);
    ResetAllForgets(a, b, p.keys, p.op, k);
  }

  lemma {:induction false} ResetAllForgets(a: Image, b: Image, keys: seq<bytes>, op: Op, k: bytes)
    requires Forgets(op) && k in keys
    ensures Lookup(UntimedAll(a, keys, op), k) == Lookup(UntimedAll(b, keys, op), k)
  {
    var front := keys[..|keys| - 1];
    if k != keys[|keys| - 1] {
      assert k in front;
      ResetAllForgets(a, b, front, op, k);
    }
  }

  lemma {:induction false} UntimedRunLocal(a: Image, b: Image, reqs: seq<Value>, k: bytes)
    requires Lookup(a, k) == Lookup(b, k)
    ensures Lookup(UntimedRun(a, reqs), k) == Lookup(UntimedRun(b, reqs), k)
  {
    if reqs != [] {
      var n := |reqs| - 1;
      UntimedRunLocal(a, b, reqs[..n], k);
      UntimedLocal(UntimedRun(a, reqs[..n]), UntimedRun(b, reqs[..n]), reqs[n], k);
    }
  }

  lemma UntimedRunReset(a: Image, b: Image, before: seq<Value>, reset: Value, k: bytes)
    requires Resets(reset, k)
    ensures Lookup(UntimedRun(a, before + [reset]), k) == Lookup(UntimedRun(b, before + [reset]), k)
  {
    assert (before + [reset])[..|before|] == before;
    ResetForgets(UntimedRun(a, before), UntimedRun(b, before), reset, k);
  }

  /** Once a reset of k has been run, two images agree on k however much they differed before. */
  lemma UntimedRunForgets(a: Image, b: Image, before: seq<Value>, reset: Value, after: seq<Value>, k: bytes)
    requires Resets(reset, k)
    ensures Lookup(UntimedRun(a, before + [reset] + after), k) == Lookup(UntimedRun(b, before + [reset] + after), k)
  {
    var front := before + [reset];
    UntimedRunReset(a, b, before, reset, k);
    UntimedRunConcat(a, front, after);
    UntimedRunConcat(b, front, after);
    UntimedRunLocal(UntimedRun(a, front), UntimedRun(b, front), after, k);
  }
}
