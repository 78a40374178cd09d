/**
 Expiry: lazy eviction cannot be told from merely hiding expired keys, and the
 active reaper's sampling pass and drain loop.
 */
module Expiry {
  import opened Bytes
  import opened Keyspace
  import opened Store

  // ------------------------------------------------------------------ runs at the grain of one lock hold

  /**
   What can happen under one shard lock: a client operation, or an eviction attempt
   by GET's second half or the reaper. GET is a Hold of op Get and, at any later
   moment, perhaps an Evict; anything may come between the two.
   */
  datatype Event = Hold(key: bytes, op: Op, t: Time) | Evict(key: bytes, t: Time)

  function Apply(ks: Keyspace, ev: Event): Keyspace {
    match ev
    case Hold(k, op, t) => Act(ks, k, op, t).0
    case Evict(k, t) => Put(ks, k, Visible(Lookup(ks, k), t))
  }

  function ReplyTo(ks: Keyspace, ev: Event): Option<Outcome> {
    match ev
    case Hold(k, op, t) => Some(Act(ks, k, op, t).1)
    case Evict(_, _) => None
  }

  /** The reference: nothing is ever evicted, and an operation that changes nothing visible stores nothing. */
  function RefApply(ref: Keyspace, ev: Event): Keyspace {
    match ev
    case Hold(k, op, t) =>
      var seen := Visible(Lookup(ref, k), t);
      var after := Run(op, seen, t).0;
      if after == seen then ref else Put(ref, k, after)
    case Evict(_, _) => ref
  }

  function RefReplyTo(ref: Keyspace, ev: Event): Option<Outcome> {
    match ev
    case Hold(k, op, t) => Some(Run(op, Visible(Lookup(ref, k), t), t).1)
    case Evict(_, _) => None
  }

  function RunEvents(ks: Keyspace, evs: seq<Event>): Keyspace {
    if evs == [] then ks else Apply(RunEvents(ks, evs[..|evs| - 1]), evs[|evs| - 1])
  }

  function Replies(ks: Keyspace, evs: seq<Event>): seq<Option<Outcome>> {
    if evs == [] then []
    else
      var front := evs[..|evs| - 1];
      Replies(ks, front) + [ReplyTo(RunEvents(ks, front), evs[|evs| - 1])]
  }

  function RefRun(ref: Keyspace, evs: seq<Event>): Keyspace {
    if evs == [] then ref else RefApply(RefRun(ref, evs[..|evs| - 1]), evs[|evs| - 1])
  }

  function RefReplies(ref: Keyspace, evs: seq<Event>): seq<Option<Outcome>> {
    if evs == [] then []
    else
      var front := evs[..|evs| - 1];
      RefReplies(ref, front) + [RefReplyTo(RefRun(ref, front), evs[|evs| - 1])]
  }

  /**
   A client's operation reads the clock under its lock, after everything that came
   before. An eviction may carry an earlier instant: a reaper pass reads the clock once.
   */
  predicate Monotone(evs: seq<Event>) {
    forall i, j :: 0 <= i < j < |evs| && evs[j].Hold? ==> evs[i].t <= evs[j].t
  }

  /** The latest instant any of the events carries. */
  function Latest(evs: seq<Event>): Time
    requires evs != []
  {
    var t := evs[|evs| - 1].t;
    if |evs| == 1 || Latest(evs[..|evs| - 1]) < t then t else Latest(evs[..|evs| - 1])
  }

  lemma {:induction false} LatestBounds(evs: seq<Event>, i: nat)
    requires i < |evs|
    ensures evs[i].t <= Latest(evs) && exists j :: 0 <= j < |evs| && evs[j].t == Latest(evs)
  {
    var n := |evs| - 1;
    if n > 0 {
      LatestBounds(evs[..n], if i < n then i else 0);
      var j :| 0 <= j < n && evs[..n][j].t == Latest(evs[..n]);
      assert evs[j].t == Latest(evs[..n]);
    }
    assert evs[n].t == Latest(evs) || n > 0;
  }

  /** Two keyspaces no client can tell apart from instant t on. */
  ghost predicate Same(a: Keyspace, b: Keyspace, t: Time) {
    forall k :: Visible(Lookup(a, k), t) == Visible(Lookup(b, k), t)
  }

  lemma SameLater(a: Keyspace, b: Keyspace, t: Time, u: Time)
    requires Same(a, b, t) && t <= u
    ensures Same(a, b, u)
  {
    forall k
      ensures Visible(Lookup(a, k), u) == Visible(Lookup(b, k), u)
    {
      assert Visible(Lookup(a, k), t) == Visible(Lookup(b, k), t);
    }
  }

  /** An eviction at any instant that has come already goes unnoticed. */
  lemma SameEvict(a: Keyspace, b: Keyspace, k: bytes, t: Time, now: Time)
    requires Same(a, b, now) && t <= now
    ensures Same(Apply(a, Evict(k, t)), b, now)
  {
    forall j
      ensures Visible(Lookup(Apply(a, Evict(k, t)), j), now) == Visible(Lookup(b, j), now)
    {
      assert Visible(Lookup(a, j), now) == Visible(Lookup(b, j), now);
    }
  }

  lemma SameStep(a: Keyspace, b: Keyspace, ev: Event)
    requires Same(a, b, ev.t)
    ensures Same(Apply(a, ev), RefApply(b, ev), ev.t)
    ensures ReplyTo(a, ev) == RefReplyTo(b, ev)
  {
    var t := ev.t;
    var e := Visible(Lookup(a, ev.key), t);
    assert e == Visible(Lookup(b, ev.key), t);
    if ev.Hold? {
      RunKeeps(ev.op, e, t);
    }
    forall k
      ensures Visible(Lookup(Apply(a, ev), k), t) == Visible(Lookup(RefApply(b, ev), k), t)
    {
      assert Visible(Lookup(a, k), t) == Visible(Lookup(b, k), t);
    }
  }

  /**
   Expiry is unobservable except through time: whatever the interleaving of client
   operations and evictions, every client gets the replies of the reference that only
   hides expired keys, and the two stay indistinguishable.
   */
  lemma {:induction false} ExpiryUnobservable(ks: Keyspace, evs: seq<Event>)
    requires Monotone(evs)
    ensures Replies(ks, evs) == RefReplies(ks, evs)
    ensures evs != [] ==> Same(RunEvents(ks, evs), RefRun(ks, evs), Latest(evs))
  {
    if evs != [] {
      var n := |evs| - 1;
      var front, ev := evs[..n], evs[n];
      ExpiryUnobservable(ks, front);
      if n > 0 {
        LatestBounds(front, 0);
        NextUnobservable(RunEvents(ks, front), RefRun(ks, front), ev, Latest(front), Latest(evs));
      } else {
        SameStep(ks, ks, ev);
      }
    }
  }

  lemma NextUnobservable(a: Keyspace, b: Keyspace, ev: Event, before: Time, after: Time)
    requires Same(a, b, before) && after == (if before < ev.t then ev.t else before) && (ev.Hold? ==> before <= ev.t)
    ensures Same(Apply(a, ev), RefApply(b, ev), after) && ReplyTo(a, ev) == RefReplyTo(b, ev)
  {
    SameLater(a, b, before, after);
    if ev.Hold? {
      SameStep(a, b, ev);
    } else {
      SameEvict(a, b, ev.key, ev.t, after);
    }
  }

  /** An eviction removes nothing that is live when it happens, whatever landed since GET looked. */
  lemma EvictSparesLive(ks: Keyspace, k: bytes, t: Time)
    ensures Same(Apply(ks, Evict(k, t)), ks, t)
    ensures forall j :: NotExpiredAt(ks, j, t) ==> Lookup(Apply(ks, Evict(k, t)), j) == Lookup(ks, j)
  {
  }

  // ------------------------------------------------------------------ the active reaper

  const SAMPLE: nat := 20

  /** rest is m without those sampled keys that had expired at now; only keys with a TTL were sampled. */
  ghost predicate Reaped(m: Keyspace, rest: Keyspace, seen: set<bytes>, now: Time) {
    && seen <= m.Keys && rest.Keys <= m.Keys
    && (forall k :: k in seen ==> m[k].expireAt.Some?)
    && (forall k :: k in rest ==> rest[k] == m[k])
    && (forall k :: k in m ==> (k !in rest <==> k in seen && Expired(m[k], now)))
  }

  predicate Clean(m: Keyspace, now: Time) {
    forall k :: k in m ==> !Expired(m[k], now)
  }

  /** One shard under its lock: sample keys that carry a TTL, in any order, until the budget is spent. */
  method ReapShard(m: Keyspace, now: Time, budget: nat)
    returns (rest: Keyspace, sampled: nat, expired: nat, ghost seen: set<bytes>)
    ensures Reaped(m, rest, seen, now) && |seen| == sampled && |rest| + expired == |m|
    ensures expired <= sampled <= budget
    ensures sampled < budget ==> Clean(rest, now)
  {
    rest, sampled, expired, seen := m, 0, 0, {};
    var pending := m.Keys;
    while pending != {} && sampled < budget
      invariant pending <= rest.Keys && pending !! seen
      invariant Reaped(m, rest, seen, now) && |seen| == sampled && |rest| + expired == |m|
      invariant expired <= sampled <= budget
      invariant forall k :: k in rest && Expired(rest[k], now) ==> k in pending
      decreases |pending|
    {
      var k :| k in pending;
      pending := pending - {k};
      if rest[k].expireAt.Some? {
        sampled, seen := sampled + 1, seen + {k};
        if Expired(rest[k], now) {
          ShrinkByOne(rest, k);
          rest := rest - {k};
          expired := expired + 1;
        }
      }
    }
  }

  lemma ShrinkByOne(m: Keyspace, k: bytes)
    requires k in m
    ensures |m - {k}| == |m| - 1
  {
    assert (m - {k}).Keys == m.Keys - {k};
  }

  // ------------------------------------------------------------------ from one shard to the whole store

  lemma ReapedUnion(route: bytes -> nat, all: Keyspace, ss: seq<Keyspace>, seen: set<bytes>,
                    x: nat, rest: Keyspace, more: set<bytes>, now: Time)
    requires Routed(route, ss) && x < |ss|
    requires Reaped(all, Flatten(ss), seen, now) && Reaped(ss[x], rest, more, now)
    ensures Routed(route, ss[x := rest])
    ensures Reaped(all, Flatten(ss[x := rest]), seen + more, now)
  {
    var after := Flatten(ss[x := rest]);
    forall k
      ensures Lookup(after, k) == if Index(route, k) == x then Lookup(rest, k) else Lookup(Flatten(ss), k)
      ensures Index(route, k) == x ==> Lookup(Flatten(ss), k) == Lookup(ss[x], k)
    {
      FlattenAt(route, ss, k);
      FlattenAt(route, ss[x := rest], k);
    }
    forall k
      ensures k in after ==> k in all && after[k] == all[k]
      ensures k in seen + more ==> k in all && all[k].expireAt.Some?
      ensures k in all ==> (k !in after <==> k in seen + more && Expired(all[k], now))
    {
      assert Lookup(after, k) == if Index(route, k) == x then Lookup(rest, k) else Lookup(Flatten(ss), k);
      assert k in ss[x] ==> Lookup(Flatten(ss), k) == Lookup(ss[x], k);
    }
  }

  lemma {:induction false} SizesUpdate(ss: seq<Keyspace>, x: nat, m: Keyspace)
    requires x < |ss|
    ensures Sizes(ss[x := m]) == Sizes(ss) - |ss[x]| + |m|
  {
    var n := |ss| - 1;
    if x == n {
      assert ss[x := m][..n] == ss[..n];
    } else {
      assert ss[x := m][..n] == ss[..n][x := m];
      SizesUpdate(ss[..n], x, m);
    }
  }

  lemma SizeUpdate(route: bytes -> nat, ss: seq<Keyspace>, x: nat, m: Keyspace)
    requires x < |ss| && Routed(route, ss) && Routed(route, ss[x := m])
    ensures |Flatten(ss[x := m])| == |Flatten(ss)| - |ss[x]| + |m|
  {
    FlattenSize(route, ss);
    FlattenSize(route, ss[x := m]);
    SizesUpdate(ss, x, m);
  }

  lemma AllClean(route: bytes -> nat, ss: seq<Keyspace>, now: Time)
    requires |ss| == SHARD_COUNT && Routed(route, ss)
    requires forall x :: 0 <= x < |ss| ==> Clean(ss[x], now)
    ensures Clean(Flatten(ss), now)
  {
    forall k | k in Flatten(ss)
      ensures !Expired(Flatten(ss)[k], now)
    {
      FlattenAt(route, ss, k);
      assert Clean(ss[Index(route, k)], now);
    }
  }

  function Nth(start: nat, i: nat): nat {
    (start + i) % SHARD_COUNT
  }

  lemma NthCovers(start: nat, x: nat) returns (i: nat)
    requires start < SHARD_COUNT && x < SHARD_COUNT
    ensures i < SHARD_COUNT && Nth(start, i) == x
  {
    i := if start <= x then x - start else x + SHARD_COUNT - start;
  }

  lemma NthDistinct(start: nat, i: nat, j: nat)
    requires start < SHARD_COUNT && i < j < SHARD_COUNT
    ensures Nth(start, i) != Nth(start, j)
  {
  }

  /** The state of a pass after its first i shards. */
  ghost predicate Progress(route: bytes -> nat, all: Keyspace, ss: seq<Keyspace>, seen: set<bytes>,
                           sampled: int, expired: int, start: nat, i: nat, now: Time) {
    && |ss| == SHARD_COUNT && Routed(route, ss) && i <= SHARD_COUNT
    && Reaped(all, Flatten(ss), seen, now)
    && |seen| == sampled && |Flatten(ss)| + expired == |all| && 0 <= expired <= sampled <= SAMPLE
    && UnseenFrom(ss, seen, start, i)
    && (sampled < SAMPLE ==> CleanUpTo(ss, start, i, now))
  }

  ghost predicate UnseenFrom(ss: seq<Keyspace>, seen: set<bytes>, start: nat, i: nat)
    requires |ss| == SHARD_COUNT
  {
    forall j :: i <= j < SHARD_COUNT ==> seen !! ss[Nth(start, j)].Keys
  }

  ghost predicate CleanUpTo(ss: seq<Keyspace>, start: nat, i: nat, now: Time)
    requires |ss| == SHARD_COUNT
  {
    forall j :: 0 <= j < i ==> Clean(ss[Nth(start, j)], now)
  }

  lemma UnseenStep(route: bytes -> nat, ss: seq<Keyspace>, seen: set<bytes>, start: nat, i: nat, rest: Keyspace, more: set<bytes>)
    requires |ss| == SHARD_COUNT && Routed(route, ss) && start < SHARD_COUNT && i < SHARD_COUNT
    requires UnseenFrom(ss, seen, start, i) && more <= ss[Nth(start, i)].Keys
    ensures seen !! more && UnseenFrom(ss[Nth(start, i) := rest], seen + more, start, i + 1)
  {
    var x := Nth(start, i);
    forall j | i + 1 <= j < SHARD_COUNT
      ensures (seen + more) !! ss[x := rest][Nth(start, j)].Keys
    {
      NthDistinct(start, i, j);
      ShardsDisjoint(route, ss, x, Nth(start, j));
    }
  }

  lemma ShardsDisjoint(route: bytes -> nat, ss: seq<Keyspace>, x: nat, y: nat)
    requires Routed(route, ss) && x < |ss| && y < |ss| && x != y
    ensures ss[x].Keys !! ss[y].Keys
  {
    forall k | k in ss[x]
      ensures k !in ss[y]
    {
      assert Index(route, k) == x;
    }
  }

  lemma CleanStep(ss: seq<Keyspace>, start: nat, i: nat, rest: Keyspace, now: Time)
    requires |ss| == SHARD_COUNT && start < SHARD_COUNT && i < SHARD_COUNT
    requires CleanUpTo(ss, start, i, now) && Clean(rest, now)
    ensures CleanUpTo(ss[Nth(start, i) := rest], start, i + 1, now)
  {
    forall j | 0 <= j < i
      ensures Nth(start, j) != Nth(start, i)
    {
      NthDistinct(start, j, i);
    }
  }

  lemma ProgressStep(route: bytes -> nat, all: Keyspace, ss: seq<Keyspace>, seen: set<bytes>,
                     sampled: int, expired: int, start: nat, i: nat, now: Time,
                     rest: Keyspace, more: set<bytes>, s: nat, e: nat)
    requires Progress(route, all, ss, seen, sampled, expired, start, i, now)
    requires start < SHARD_COUNT && i < SHARD_COUNT && sampled < SAMPLE
    requires Reaped(ss[Nth(start, i)], rest, more, now) && |more| == s && |rest| + e == |ss[Nth(start, i)]|
    requires e <= s <= SAMPLE - sampled && (s < SAMPLE - sampled ==> Clean(rest, now))
    ensures Progress(route, all, ss[Nth(start, i) := rest], seen + more, sampled + s, expired + e, start, i + 1, now)
  {
    ReapedUnion(route, all, ss, seen, Nth(start, i), rest, more, now);
    SizeUpdate(route, ss, Nth(start, i), rest);
    UnseenStep(route, ss, seen, start, i, rest, more);
    if sampled + s < SAMPLE {
      CleanStep(ss, start, i, rest, now);
    }
  }

  lemma ProgressEnd(route: bytes -> nat, all: Keyspace, ss: seq<Keyspace>, seen: set<bytes>,
                    sampled: int, expired: int, start: nat, now: Time)
    requires start < SHARD_COUNT && sampled < SAMPLE
    requires Progress(route, all, ss, seen, sampled, expired, start, SHARD_COUNT, now)
    ensures Clean(Flatten(ss), now)
  {
    forall x | 0 <= x < SHARD_COUNT
      ensures Clean(ss[x], now)
    {
      var j := NthCovers(start, x);
    }
    AllClean(route, ss, now);
  }

  /**
   activeExpiryPass from a random start shard. A pass that is not hot has either
   sampled its full 20 keys and found at most 5 of them expired, or left no key
   expired at now anywhere in the store.
   */
  method Pass(db: DB, start: nat, now: Time) returns (hot: bool, sampled: nat, expired: nat, ghost seen: set<bytes>)
    requires db.Valid() && start < SHARD_COUNT
    modifies db.shards
    ensures db.Valid() && Reaped(old(db.Contents()), db.Contents(), seen, now)
    ensures |seen| == sampled && |db.Contents()| + expired == |old(db.Contents())|
    ensures expired <= sampled <= SAMPLE && (hot <==> 4 * expired > sampled)
    ensures !hot ==> Clean(db.Contents(), now) || (sampled == SAMPLE && expired <= 5)
  {
    ghost var all := db.Contents();
    sampled, expired, seen := 0, 0, {};
    var i := 0;
    while i < SHARD_COUNT && sampled < SAMPLE
      invariant Progress(db.route, all, db.shards[..], seen, sampled, expired, start, i, now)
    {
      var x := Nth(start, i);
      ghost var ss := db.shards[..];
      ghost var more;
      var rest, s, e;
      rest, s, e, more := ReapShard(db.shards[x], now, SAMPLE - sampled);
      ProgressStep(db.route, all, ss, seen, sampled, expired, start, i, now, rest, more, s, e);
      db.shards[x] := rest;
      assert db.shards[..] == ss[x := rest];
      sampled, expired, seen, i := sampled + s, expired + e, seen + more, i + 1;
    }
    if sampled < SAMPLE {
      ProgressEnd(db.route, all, db.shards[..], seen, sampled, expired, start, now);
    }
    hot := sampled > 0 && 4 * expired > sampled;
  }

  /**
   The drain inside one tick. It ends on any store, because a hot pass removes at
   least one key, and it ends only as Pass says a pass may be cold. Nothing it removes
   was live at the last pass.
   */
  method Drain(db: DB, starts: nat -> nat, clock: nat -> Time) returns (passes: nat, sampled: nat, expired: nat)
    requires db.Valid()
    requires forall i :: starts(i) < SHARD_COUNT
    requires forall i, j :: i <= j ==> clock(i) <= clock(j)
    modifies db.shards
    ensures db.Valid() && passes > 0
    ensures Clean(db.Contents(), clock(passes - 1)) || (sampled == SAMPLE && expired <= 5)
    ensures Same(db.Contents(), old(db.Contents()), clock(passes - 1))
  {
    passes := 0;
    var hot := true;
    sampled, expired := 0, 0;
    while hot
      invariant db.Valid() && (hot || passes > 0)
      invariant passes > 0 ==> Same(db.Contents(), old(db.Contents()), clock(passes - 1))
      invariant passes == 0 ==> db.Contents() == old(db.Contents())
      invariant !hot ==> Clean(db.Contents(), clock(passes - 1)) || (sampled == SAMPLE && expired <= 5)
      decreases |db.Contents()|, hot
    {
      ghost var before := db.Contents();
      ghost var seen;
      hot, sampled, expired, seen := Pass(db, starts(passes), clock(passes));
      if passes > 0 {
        SameLater(before, old(db.Contents()), clock(passes - 1), clock(passes));
      }
      ReapedSame(before, db.Contents(), seen, clock(passes));
      passes := passes + 1;
    }
  }

  lemma ReapedSame(m: Keyspace, rest: Keyspace, seen: set<bytes>, now: Time)
    requires Reaped(m, rest, seen, now)
    ensures Same(rest, m, now)
  {
  }
}
