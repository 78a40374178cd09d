/**
 Laws of the flat keyspace operations: what DEL and EXISTS count, and lists as
 plain double-ended sequences.
 */
module KeyspaceLaws {
  import opened Bytes
  import opened Keyspace

  // ------------------------------------------------------------------ DEL and EXISTS

  /** DEL of any list of keys removes exactly those keys. */
  lemma {:induction false} DelRemoves(ks: Keyspace, keys: seq<bytes>, now: Time, k: bytes)
    ensures Lookup(ActAll(ks, keys, Del, now).0, k) == if k in AsSet(keys) then None else Lookup(ks, k)
  {
    if keys != [] {
      DelRemoves(ks, keys[..|keys| - 1], now, k);
    }
  }

  /** DEL counts each listed live key once, however often it is listed. */
  lemma DelCounts(ks: Keyspace, keys: seq<bytes>, now: Time)
    ensures Total(ActAll(ks, keys, Del, now).1) == |AsSet(keys) * Live(ks, now).Keys|
  {
    DelCountsFirsts(ks, keys, now);
    FirstsSize(keys, Live(ks, now).Keys);
  }

  /** How many listed keys are live and listed for the first time. */
  function Firsts(keys: seq<bytes>, live: set<bytes>): nat {
    if keys == [] then 0
    else
      var front, k := keys[..|keys| - 1], keys[|keys| - 1];
      Firsts(front, live) + if k in live && k !in AsSet(front) then 1 else 0
  }

  lemma {:induction false} FirstsSize(keys: seq<bytes>, live: set<bytes>)
    ensures Firsts(keys, live) == |AsSet(keys) * live|
  {
    if keys == [] {
      assert AsSet(keys) * live == {};
    } else {
      var front, k := keys[..|keys| - 1], keys[|keys| - 1];
      FirstsSize(front, live);
      MeetGrows(AsSet(front), k, live);
      assert AsSet(keys) == AsSet(front) + {k};
    }
  }

  lemma {:induction false} DelCountsFirsts(ks: Keyspace, keys: seq<bytes>, now: Time)
    ensures Total(ActAll(ks, keys, Del, now).1) == Firsts(keys, Live(ks, now).Keys)
  {
    if keys != [] {
      var front, k := keys[..|keys| - 1], keys[|keys| - 1];
      DelCountsFirsts(ks, front, now);
      DelRemoves(ks, front, now, k);
      var r := ActAll(ks, front, Del, now);
      var o := DelOutcome(ks, r.0, AsSet(front), k, now);
      TotalSnoc(r.1, o);
    }
  }

  lemma DelOutcome(ks: Keyspace, before: Keyspace, gone: set<bytes>, k: bytes, now: Time) returns (o: Outcome)
    requires Lookup(before, k) == if k in gone then None else Lookup(ks, k)
    ensures o == Act(before, k, Del, now).1 == Count(if k in Live(ks, now).Keys && k !in gone then 1 else 0)
  {
    o := Act(before, k, Del, now).1;
  }

  /** The positions of a list of keys that hold a live key. */
  function LivePositions(keys: seq<bytes>, live: set<bytes>): set<int> {
    set i | 0 <= i < |keys| && keys[i] in live
  }

  lemma PositionsGrow(front: seq<bytes>, k: bytes, live: set<bytes>)
    ensures |LivePositions(front + [k], live)| == |LivePositions(front, live)| + if k in live then 1 else 0
  {
    if k in live {
      assert LivePositions(front + [k], live) == LivePositions(front, live) + {|front|};
    } else {
      assert LivePositions(front + [k], live) == LivePositions(front, live);
    }
  }

  /** EXISTS changes nothing and counts a key once for every time it is listed. */
  lemma {:induction false} ExistsCounts(ks: Keyspace, keys: seq<bytes>, now: Time)
    ensures ActAll(ks, keys, Exists, now).0 == ks
    ensures Total(ActAll(ks, keys, Exists, now).1) == |LivePositions(keys, Live(ks, now).Keys)|
  {
    ActAllReads(ks, keys, Exists, now);
    if keys == [] {
      assert LivePositions(keys, Live(ks, now).Keys) == {};
    } else {
      var n := |keys| - 1;
      var front := keys[..n];
      ExistsCounts(ks, front, now);
      TotalSnoc(ActAll(ks, front, Exists, now).1, Act(ks, keys[n], Exists, now).1);
      PositionsGrow(front, keys[n], Live(ks, now).Keys);
      assert front + [keys[n]] == keys;
    }
  }

  // ------------------------------------------------------------------ lists, hashes and sets, one element at a time

  lemma {:induction false} ReversedSnoc(s: seq<bytes>, x: bytes)
    ensures Reversed(s + [x]) == [x] + Reversed(s)
  {
    if s == [] {
      assert [x][1..] == [];
    } else {
      assert (s + [x])[1..] == s[1..] + [x];
      ReversedSnoc(s[1..], x);
    }
  }

  /** A multi-value push is the single pushes it lists, at either end. */
  lemma PushOneByOne(vs: seq<bytes>, v: bytes, e: Option<Entry>, now: Time)
    requires vs != [] && (e.Some? ==> !Expired(e.value, now))
    ensures Run(LPush(vs + [v]), e, now) == Run(LPush([v]), Run(LPush(vs), e, now).0, now)
    ensures Run(RPush(vs + [v]), e, now) == Run(RPush([v]), Run(RPush(vs), e, now).0, now)
  {
    ReversedSnoc(vs, v);
    ReversedSnoc([], v);
    assert [] + [v] == [v] && [v] + Reversed([]) == [v];
    ReversedLength(vs);
    if e.Some? && e.value.data.ListData? {
      var l := e.value.data.list;
      assert [v] + (Reversed(vs) + l) == ([v] + Reversed(vs)) + l;
      assert (l + vs) + [v] == l + (vs + [v]);
    }
  }

  /** A push and then a pop at the same end gives the value back and the key its old list and deadline. */
  lemma PopUndoesPush(v: bytes, e: Option<Entry>, now: Time)
    requires e.None? || (!Expired(e.value, now) && e.value.data.ListData? && Filled(e.value.data))
    ensures Run(LPop, Run(LPush([v]), e, now).0, now) == (e, Payload(v))
    ensures Run(RPop, Run(RPush([v]), e, now).0, now) == (e, Payload(v))
  {
    ReversedSnoc([], v);
    assert [] + [v] == [v] && [v] + Reversed([]) == [v];
    if e.Some? {
      var l := e.value.data.list;
      assert ([v] + l)[1..] == l && (l + [v])[..|l|] == l;
    }
  }

  function Resolve(i: int, n: nat): int {
    if i < 0 then i + n else i
  }

  predicate Between(i: int, start: int, stop: int, n: nat) {
    Resolve(start, n) <= i <= Resolve(stop, n)
  }

  /** LRANGE, for all bounds: the elements whose index lies between the resolved bounds, and no others. */
  lemma SliceSelects(l: seq<bytes>, start: int, stop: int) returns (lo: nat)
    ensures lo + |Slice(l, start, stop)| <= |l|
    ensures Slice(l, start, stop) == l[lo..lo + |Slice(l, start, stop)|]
    ensures forall i :: 0 <= i < |l| ==>
              (lo <= i < lo + |Slice(l, start, stop)| <==> Between(i, start, stop, |l|))
  {
    var range := NormalizeRange(start, stop, |l|);
    lo := if range.Some? then range.value.0 else 0;
    var hi := if range.Some? then range.value.1 + 1 else 0;
    assert |Slice(l, start, stop)| == hi - lo;
    forall i | 0 <= i < |l|
      ensures lo <= i < hi <==> Between(i, start, stop, |l|)
    {
    }
  }

  // ------------------------------------------------------------------ lists as plain sequences

  predicate IsListOp(op: Op) {
    op.LPush? || op.RPush? || op.LPop? || op.RPop?
  }

  /** Values put in front one after another. */
  function PushFront(l: seq<bytes>, vs: seq<bytes>): seq<bytes>
    decreases |vs|
  {
    if vs == [] then l else PushFront([vs[0]] + l, vs[1..])
  }

  /** The reference: a plain sequence that is never absent, only empty. */
  function Plain(l: seq<bytes>, op: Op): seq<bytes>
    requires IsListOp(op)
  {
    match op
    case LPush(vs) => PushFront(l, vs)
    case RPush(vs) => l + vs
    case LPop => if l == [] then [] else l[1..]
    case RPop => if l == [] then [] else l[..|l| - 1]
  }

  predicate AllListOps(ops: seq<Op>) {
    forall i :: 0 <= i < |ops| ==> IsListOp(ops[i]) && Sane(ops[i])
  }

  function PlainRun(ops: seq<Op>): seq<bytes>
    requires AllListOps(ops)
  {
    if ops == [] then [] else Plain(PlainRun(ops[..|ops| - 1]), ops[|ops| - 1])
  }

  /** The same operations on a key that starts absent. */
  function KeyRun(ops: seq<Op>, now: Time): (e: Option<Entry>)
    ensures e.Some? ==> !Expired(e.value, now)
  {
    if ops == [] then None
    else
      var e := KeyRun(ops[..|ops| - 1], now);
      RunKeeps(ops[|ops| - 1], e, now);
      Run(ops[|ops| - 1], e, now).0
  }

  function AsKey(l: seq<bytes>): Option<Entry> {
    if l == [] then None else Some(Entry(ListData(l), None))
  }

  lemma {:induction false} PushFrontReverses(l: seq<bytes>, vs: seq<bytes>)
    ensures PushFront(l, vs) == Reversed(vs) + l
    decreases |vs|
  {
    if vs == [] {
      assert Reversed(vs) + l == l;
    } else {
      PushFrontReverses([vs[0]] + l, vs[1..]);
      assert Reversed(vs[1..]) + ([vs[0]] + l) == (Reversed(vs[1..]) + [vs[0]]) + l;
    }
  }

  lemma PlainStep(op: Op, l: seq<bytes>, now: Time)
    requires IsListOp(op) && Sane(op)
    ensures Run(op, AsKey(l), now).0 == AsKey(Plain(l, op))
  {
    match op
    case LPush(vs) =>
      PushFrontReverses(l, vs);
      ReversedLength(vs);
      assert Reversed(vs) + [] == Reversed(vs);
    case RPush(vs) => assert [] + vs == vs;
    case _ =>
  }

  lemma {:induction false} KeyRunIsPlain(ops: seq<Op>, now: Time)
    requires AllListOps(ops)
    ensures KeyRun(ops, now) == AsKey(PlainRun(ops))
  {
    if ops != [] {
      var n := |ops| - 1;
      KeyRunIsPlain(ops[..n], now);
      PlainStep(ops[n], PlainRun(ops[..n]), now);
    }
  }

  /** What a push or a pop on the plain sequence answers: the new length, or the element taken. */
  function PlainReply(l: seq<bytes>, op: Op): Outcome
    requires IsListOp(op)
  {
    if op.LPush? || op.RPush? then Count(|Plain(l, op)|)
    else if l == [] then Nil
    else Payload(if op.LPop? then l[0] else l[|l| - 1])
  }

  lemma PlainReplies(op: Op, l: seq<bytes>, now: Time)
    requires IsListOp(op) && Sane(op)
    ensures Run(op, AsKey(l), now).1 == PlainReply(l, op)
  {
    if op.LPush? {
      PushFrontReverses(l, op.values);
      ReversedLength(op.values);
    }
  }

  /**
   A list key is a plain double-ended sequence: after any pushes and pops it holds
   what the sequence holds and is absent exactly when the sequence is empty. The next
   push or pop answers as the sequence does, and LRANGE selects from it.
   */
  lemma ListIsDeque(ops: seq<Op>, now: Time, next: Op, start: int, stop: int)
    requires AllListOps(ops) && IsListOp(next) && Sane(next)
    ensures KeyRun(ops, now) == AsKey(PlainRun(ops))
    ensures Run(next, KeyRun(ops, now), now).1 == PlainReply(PlainRun(ops), next)
    ensures Run(LRange(start, stop), KeyRun(ops, now), now).1 == Items(Slice(PlainRun(ops), start, stop))
  {
    KeyRunIsPlain(ops, now);
    PlainReplies(next, PlainRun(ops), now);
  }

  // ------------------------------------------------------------------ hashes, sets and deadlines: what undoes what

  /** SREM of members that SADD newly added puts the key back as it was, and counts them all. */
  lemma SRemUndoesSAdd(ms: seq<bytes>, e: Option<Entry>, now: Time)
    requires e.None? || (!Expired(e.value, now) && e.value.data.SetData? && Filled(e.value.data) && e.value.data.members !! AsSet(ms))
    ensures Run(SRem(ms), Run(SAdd(ms), e, now).0, now) == (e, Count(|AsSet(ms)|))
    ensures Run(SAdd(ms), e, now).1 == Count(|AsSet(ms)|)
  {
    var start := if e.Some? then e.value.data.members else {};
    assert (start + AsSet(ms)) - AsSet(ms) == start && (start + AsSet(ms)) * AsSet(ms) == AsSet(ms);
    assert AsSet(ms) - start == AsSet(ms);
  }

  /** HDEL of fields that HSET newly added puts the key back as it was, and counts them all. */
  lemma HDelUndoesHSet(ps: seq<(bytes, bytes)>, fs: seq<bytes>, e: Option<Entry>, now: Time)
    requires AsSet(fs) == Assigned(ps).Keys
    requires e.None? || (!Expired(e.value, now) && e.value.data.HashData? && Filled(e.value.data) && e.value.data.hash.Keys !! AsSet(fs))
    ensures Run(HDel(fs), Run(HSet(ps), e, now).0, now) == (e, Count(|Assigned(ps)|))
    ensures Run(HSet(ps), e, now).1 == Count(|Assigned(ps)|)
  {
    var start: map<bytes, bytes> := if e.Some? then e.value.data.hash else map[];
    MergeThenDrop(start, Assigned(ps), AsSet(fs));
    MergeThenDrop(map[], Assigned(ps), AsSet(fs));
  }

  lemma MergeThenDrop(start: map<bytes, bytes>, h: map<bytes, bytes>, gone: set<bytes>)
    requires h.Keys == gone && start.Keys !! gone
    ensures (start + h) - gone == start && (start + h).Keys * gone == h.Keys && h.Keys - start.Keys == h.Keys
    ensures start == map[] ==> start + h == h
  {
  }

  /**
   PERSIST takes back what a positive EXPIRE did. In between, TTL and PTTL should show
   the time rounded to the nearest unit, and do exactly when half a unit more still fits
   in 64 bits; past that the sum wraps and the reply is negative.
   */
  lemma PersistUndoesExpire(d: int64, data: Data, t: Option<Time>, unit: Unit, now: Time)
    requires d > 0 && !Expired(Entry(data, t), now) && unit <= MAX_INT64
    ensures var timed := Run(Expire(d), Some(Entry(data, t)), now).0;
            && Run(Persist, timed, now) == (Some(Entry(data, None)), Count(1))
            && Run(Ttl(unit), timed, now).1.Count?
            && var shown := Run(Ttl(unit), timed, now).1.n;
               && (2 * d - unit <= 2 * (shown * unit) <= 2 * d + unit <==> d + unit / 2 <= MAX_INT64)
               && (d + unit / 2 > MAX_INT64 ==> shown <= 0)
  {
    if d + unit / 2 <= MAX_INT64 {
      RoundsToNearest(d, unit);
    } else {
      WrapsNegative(d, unit);
    }
  }

  lemma RoundsToNearest(r: int64, unit: Unit)
    requires r > 0 && r + unit / 2 <= MAX_INT64
    ensures 2 * r - unit <= 2 * (TtlCount(r, unit) * unit) <= 2 * r + unit
  {
    var q := TtlCount(r, unit);
    assert r + unit / 2 == q * unit + (r + unit / 2) % unit;
  }

  lemma WrapsNegative(r: int64, unit: Unit)
    requires r > 0 && r + unit / 2 > MAX_INT64 && unit <= MAX_INT64
    ensures TtlCount(r, unit) <= 0 && !(2 * r - unit <= 2 * (TtlCount(r, unit) * unit))
  {
    WrapsOnce(r + unit / 2);
    var y: int := Wrap64(r + unit / 2);
    QuoOfNegative(y, unit);
    NonPositive(TtlCount(r, unit), unit);
  }

  lemma WrapsOnce(x: int)
    requires MAX_INT64 < x <= 2 * MAX_INT64
    ensures Wrap64(x) < 0
  {
  }

  lemma QuoOfNegative(y: int, unit: Unit)
    requires y < 0
    ensures Quo(y, unit) <= 0
  {
  }

  lemma NonPositive(a: int, b: int)
    requires a <= 0 < b
    ensures a * b <= 0
  {
  }
}
