/**
 The flat keyspace: typed entries with optional deadlines, and what each keyed
 operation of the store does to the one entry it touches.
 */
module Keyspace {
  import opened Bytes

  /** Nanoseconds. */
  type Time = int

  datatype Data =
    | StrData(str: bytes)
    | ListData(list: seq<bytes>)
    | HashData(hash: map<bytes, bytes>)
    | SetData(members: set<bytes>)

  datatype Entry = Entry(data: Data, expireAt: Option<Time>)

  type Keyspace = map<bytes, Entry>

  /** The boundary is inclusive: an entry is expired the instant t reaches its deadline. */
  predicate Expired(e: Entry, t: Time) {
    e.expireAt.Some? && e.expireAt.value <= t
  }

  function Lookup<K, V>(m: map<K, V>, k: K): Option<V> {
    if k in m then Some(m[k]) else None
  }

  function Put<K(!new), V>(m: map<K, V>, k: K, v: Option<V>): (r: map<K, V>)
    ensures Lookup(r, k) == v
    ensures forall j :: j != k ==> Lookup(r, j) == Lookup(m, j)
  {
    match v
    case Some(x) => m[k := x]
    case None => map j | j in m && j != k :: m[j]
  }

  /** What a lookup sees: an expired entry is absent whether or not it was evicted. */
  function Visible(e: Option<Entry>, now: Time): Option<Entry> {
    if e.Some? && Expired(e.value, now) then None else e
  }

  /** The keyspace as any client can observe it at an instant. */
  function Live(ks: Keyspace, now: Time): Keyspace {
    map k | k in ks && !Expired(ks[k], now) :: ks[k]
  }

  predicate NotExpiredAt(ks: Keyspace, k: bytes, now: Time) {
    k in ks ==> !Expired(ks[k], now)
  }

  type Unit = u: int | u > 0 witness 1

  datatype Op =
    | Get | Set(value: bytes) | Del | Exists
    | LPush(values: seq<bytes>) | RPush(values: seq<bytes>) | LPop | RPop | LLen | LRange(start: int, stop: int)
    | HSet(pairs: seq<(bytes, bytes)>) | HGet(field: bytes) | HDel(fields: seq<bytes>)
    | HGetAll | HKeys | HVals | HLen
    | SAdd(items: seq<bytes>) | SRem(items: seq<bytes>) | SIsMember(item: bytes) | SMembers | SCard
    | Expire(d: int64) | Ttl(unit: Unit) | Persist

  /** A reply, up to the order Go gives to a map it ranges over. */
  datatype Outcome =
    | Done
    | Nil
    | Count(n: int)
    | Payload(b: bytes)
    | Items(items: seq<bytes>)
    | Unordered(names: set<bytes>)
    | FieldsOf(hash: map<bytes, bytes>)
    | ValuesOf(hash: map<bytes, bytes>)
    | WrongType

  // ------------------------------------------------------------------ pieces of the typed values

  function Reversed(s: seq<bytes>): seq<bytes> {
    if s == [] then [] else Reversed(s[1..]) + [s[0]]
  }

  function AsSet(s: seq<bytes>): set<bytes> {
    set x | x in s
  }

  /** Field/value pairs assigned left to right: a repeated field keeps its last value. */
  function Assigned(ps: seq<(bytes, bytes)>): map<bytes, bytes> {
    if ps == [] then map[] else Assigned(ps[..|ps| - 1])[ps[|ps| - 1].0 := ps[|ps| - 1].1]
  }

  /** normalizeRange: inclusive bounds resolved against a list of length n, or None when empty. */
  function NormalizeRange(start: int, stop: int, n: nat): (r: Option<(nat, nat)>)
    ensures r.Some? ==> r.value.0 <= r.value.1 < n
  {
    var start := if start < 0 then start + n else start;
    var stop := if stop < 0 then stop + n else stop;
    var start := if start < 0 then 0 else start;
    var stop := if stop >= n then n - 1 else stop;
    if n == 0 || start > stop || start >= n then None else Some((start, stop))
  }

  /** time.Until: the difference, held within 64 bits. */
  function Until(deadline: Time, now: Time): int64 {
    var d := deadline - now;
    if d > MAX_INT64 then MAX_INT64 else if d < MIN_INT64 then MIN_INT64 else d
  }

  /** Go's integer division, which truncates toward zero. */
  function Quo(x: int, unit: Unit): int {
    if x >= 0 then x / unit else -((-x) / unit)
  }

  /** ttlReply for a live key: half a unit is added in 64 bits before the division. */
  function TtlCount(remaining: int, unit: Unit): int {
    Quo(Wrap64(remaining + unit / 2), unit)
  }

  /** The TTL commands' reply for the entry that was seen, with the remaining time read off the clock at an instant. */
  function TtlReply(e: Option<Entry>, unit: Unit, at: Time): Outcome {
    match e
    case None => Count(-2)
    case Some(Entry(_, None)) => Count(-1)
    case Some(Entry(_, Some(t))) => Count(TtlCount(Until(t, at), unit))
  }

  /**
   One operation on the entry its key can see, under the shard's lock at instant now:
   the entry afterwards and the reply. A failed operation returns the entry it was given.
   */
  function Run(op: Op, e: Option<Entry>, now: Time): (Option<Entry>, Outcome)
    requires e.Some? ==> !Expired(e.value, now)
  {
    match op
    case Get => (
      match e
      case None => (e, Nil)
      case Some(Entry(StrData(s), _)) => (e, Payload(s))
      case _ => (e, WrongType))
    case Set(v) => (Some(Entry(StrData(v), None)), Done)
    case Del => (None, Count(if e.Some? then 1 else 0))
    case Exists => (e, Count(if e.Some? then 1 else 0))
    case LPush(vs) => (
      match e
      case None => (Some(Entry(ListData(Reversed(vs)), None)), Count(|vs|))
      case Some(Entry(ListData(l), t)) => (Some(Entry(ListData(Reversed(vs) + l), t)), Count(|vs| + |l|))
      case _ => (e, WrongType))
    case RPush(vs) => (
      match e
      case None => (Some(Entry(ListData(vs), None)), Count(|vs|))
      case Some(Entry(ListData(l), t)) => (Some(Entry(ListData(l + vs), t)), Count(|l| + |vs|))
      case _ => (e, WrongType))
    case LPop => (
      match e
      case None => (e, Nil)
      case Some(Entry(ListData(l), t)) =>
        if l == [] then (e, Nil) else (KeepList(l[1..], t), Payload(l[0]))
      case _ => (e, WrongType))
    case RPop => (
      match e
      case None => (e, Nil)
      case Some(Entry(ListData(l), t)) =>
        if l == [] then (e, Nil) else (KeepList(l[..|l| - 1], t), Payload(l[|l| - 1]))
      case _ => (e, WrongType))
    case LLen => (
      match e
      case None => (e, Count(0))
      case Some(Entry(ListData(l), _)) => (e, Count(|l|))
      case _ => (e, WrongType))
    case LRange(start, stop) => (
      match e
      case None => (e, Items([]))
      case Some(Entry(ListData(l), _)) => (e, Items(Slice(l, start, stop)))
      case _ => (e, WrongType))
    case HSet(ps) => (
      match e
      case None => (Some(Entry(HashData(Assigned(ps)), None)), Count(|Assigned(ps)|))
      case Some(Entry(HashData(h), t)) =>
        (Some(Entry(HashData(h + Assigned(ps)), t)), Count(|Assigned(ps).Keys - h.Keys|))
      case _ => (e, WrongType))
    case HGet(f) => (
      match e
      case None => (e, Nil)
      case Some(Entry(HashData(h), _)) => (e, if f in h then Payload(h[f]) else Nil)
      case _ => (e, WrongType))
    case HDel(fs) => (
      match e
      case None => (e, Count(0))
      case Some(Entry(HashData(h), t)) =>
        var left := h - AsSet(fs);
        (if |left| == 0 then None else Some(Entry(HashData(left), t)), Count(|h.Keys * AsSet(fs)|))
      case _ => (e, WrongType))
    case HGetAll => (
      match e
      case None => (e, FieldsOf(map[]))
      case Some(Entry(HashData(h), _)) => (e, FieldsOf(h))
      case _ => (e, WrongType))
    case HKeys => (
      match e
      case None => (e, Unordered({}))
      case Some(Entry(HashData(h), _)) => (e, Unordered(h.Keys))
      case _ => (e, WrongType))
    case HVals => (
      match e
      case None => (e, ValuesOf(map[]))
      case Some(Entry(HashData(h), _)) => (e, ValuesOf(h))
      case _ => (e, WrongType))
    case HLen => (
      match e
      case None => (e, Count(0))
      case Some(Entry(HashData(h), _)) => (e, Count(|h|))
      case _ => (e, WrongType))
    case SAdd(ms) => (
      match e
      case None => (Some(Entry(SetData(AsSet(ms)), None)), Count(|AsSet(ms)|))
      case Some(Entry(SetData(s), t)) => (Some(Entry(SetData(s + AsSet(ms)), t)), Count(|AsSet(ms) - s|))
      case _ => (e, WrongType))
    case SRem(ms) => (
      match e
      case None => (e, Count(0))
      case Some(Entry(SetData(s), t)) =>
        var left := s - AsSet(ms);
        (if |left| == 0 then None else Some(Entry(SetData(left), t)), Count(|s * AsSet(ms)|))
      case _ => (e, WrongType))
    case SIsMember(m) => (
      match e
      case None => (e, Count(0))
      case Some(Entry(SetData(s), _)) => (e, Count(if m in s then 1 else 0))
      case _ => (e, WrongType))
    case SMembers => (
      match e
      case None => (e, Unordered({}))
      case Some(Entry(SetData(s), _)) => (e, Unordered(s))
      case _ => (e, WrongType))
    case SCard => (
      match e
      case None => (e, Count(0))
      case Some(Entry(SetData(s), _)) => (e, Count(|s|))
      case _ => (e, WrongType))
    case Expire(d) => (
      match e
      case None => (e, Count(0))
      case Some(x) => (if d <= 0 then None else Some(x.(expireAt := Some(now + d))), Count(1)))
    case Ttl(unit) => (e, TtlReply(e, unit, now))
    case Persist => (
      match e
      case None => (e, Count(0))
      case Some(Entry(_, None)) => (e, Count(0))
      case Some(Entry(x, Some(_))) => (Some(Entry(x, None)), Count(1)))
  }

  /** A popped list, dropped once it is empty. */
  function KeepList(l: seq<bytes>, t: Option<Time>): Option<Entry> {
    if l == [] then None else Some(Entry(ListData(l), t))
  }

  function Slice(l: seq<bytes>, start: int, stop: int): seq<bytes> {
    match NormalizeRange(start, stop, |l|)
    case Some((lo, hi)) => l[lo..hi + 1]
    case None => []
  }

  /** The operations the store runs under a shard's write lock, and so through liveEntry. */
  predicate Mutates(op: Op) {
    op.Set? || op.Del? || op.LPush? || op.RPush? || op.LPop? || op.RPop? || op.HSet? || op.HDel?
    || op.SAdd? || op.SRem? || op.Expire? || op.Persist?
  }

  /** An operation whose arguments passed the handler's arity check. */
  predicate Sane(op: Op) {
    match op
    case LPush(vs) => vs != []
    case RPush(vs) => vs != []
    case HSet(ps) => ps != []
    case SAdd(ms) => ms != []
    case _ => true
  }

  /** An operation on the entry as stored: writers evict an expired entry, readers only hide it. */
  function Step(op: Op, e: Option<Entry>, now: Time): (Option<Entry>, Outcome)
  {
    var (after, o) := Run(op, Visible(e, now), now);
    (if Mutates(op) then after else e, o)
  }

  function Act(ks: Keyspace, k: bytes, op: Op, now: Time): (Keyspace, Outcome)
  {
    var (e, o) := Step(op, Lookup(ks, k), now);
    (Put(ks, k, e), o)
  }

  /** The same operation on each key in turn, as DEL and EXISTS do. */
  function ActAll(ks: Keyspace, keys: seq<bytes>, op: Op, now: Time): (Keyspace, seq<Outcome>)
  {
    if keys == [] then (ks, [])
    else
      var (before, os) := ActAll(ks, keys[..|keys| - 1], op, now);
      var (after, o) := Act(before, keys[|keys| - 1], op, now);
      (after, os + [o])
  }

  /** The same, the i-th key under its own lock at instant clock(i). */
  function ActEach(ks: Keyspace, keys: seq<bytes>, op: Op, clock: nat -> Time): (Keyspace, seq<Outcome>)
  {
    if keys == [] then (ks, [])
    else
      var n := |keys| - 1;
      var (before, os) := ActEach(ks, keys[..n], op, clock);
      var (after, o) := Act(before, keys[n], op, clock(n));
      (after, os + [o])
  }

  lemma {:induction false} ActEachAtOnce(ks: Keyspace, keys: seq<bytes>, op: Op, now: Time)
    ensures ActEach(ks, keys, op, (_: nat) => now) == ActAll(ks, keys, op, now)
  {
    if keys != [] {
      ActEachAtOnce(ks, keys[..|keys| - 1], op, now);
    }
  }

  lemma ActAllOne(ks: Keyspace, k: bytes, op: Op, now: Time)
    ensures ActAll(ks, [k], op, now) == (Act(ks, k, op, now).0, [Act(ks, k, op, now).1])
  {
    assert [k][..0] == [] && ActAll(ks, [], op, now) == (ks, []);
    assert [] + [Act(ks, k, op, now).1] == [Act(ks, k, op, now).1];
  }

  lemma ActAllLength(ks: Keyspace, keys: seq<bytes>, op: Op, now: Time)
    ensures |ActAll(ks, keys, op, now).1| == |keys|
  {
  }

  /** The reply to an operation on several keys is the sum of its counts. */
  function Total(os: seq<Outcome>): int {
    if os == [] then 0
    else Total(os[..|os| - 1]) + if os[|os| - 1].Count? then os[|os| - 1].n else 0
  }

  function Summary(os: seq<Outcome>): Outcome {
    if |os| == 1 then os[0] else Count(Total(os))
  }

  lemma TotalSnoc(os: seq<Outcome>, o: Outcome)
    ensures Total(os + [o]) == Total(os) + if o.Count? then o.n else 0
  {
    assert (os + [o])[..|os|] == os;
  }

  lemma MeetGrows<T>(a: set<T>, x: T, b: set<T>)
    ensures |(a + {x}) * b| == |a * b| + if x in b && x !in a then 1 else 0
  {
    if x in b && x !in a {
      assert (a + {x}) * b == a * b + {x};
    } else {
      assert (a + {x}) * b == a * b;
    }
  }

  // ------------------------------------------------------------------ what every operation keeps

  /** A reader, and any operation that fails on the kind of value, changes nothing visible. */
  lemma RunKeeps(op: Op, e: Option<Entry>, now: Time)
    requires (e.Some? ==> !Expired(e.value, now))
    ensures !Mutates(op) || Run(op, e, now).1.WrongType? ==> Run(op, e, now).0 == e
    ensures Run(op, e, now).0.Some? ==> !Expired(Run(op, e, now).0.value, now)
  {
  }

  /** Lists, hashes and sets are never empty. */
  predicate Filled(d: Data) {
    match d
    case StrData(_) => true
    case ListData(l) => l != []
    case HashData(h) => |h| > 0
    case SetData(s) => |s| > 0
  }

  predicate AllFilled(ks: Keyspace) {
    forall k :: k in ks ==> Filled(ks[k].data)
  }

  lemma RunFills(op: Op, e: Option<Entry>, now: Time)
    requires Sane(op) && (e.Some? ==> !Expired(e.value, now) && Filled(e.value.data))
    ensures Run(op, e, now).0.Some? ==> Filled(Run(op, e, now).0.value.data)
  {
    match op
    case LPush(vs) => ReversedLength(vs);
    case HSet(ps) =>
      assert ps[|ps| - 1].0 in Assigned(ps);
      if e.Some? && e.value.data.HashData? {
        assert ps[|ps| - 1].0 in e.value.data.hash + Assigned(ps);
      }
    case SAdd(ms) =>
      assert ms[0] in AsSet(ms);
      if e.Some? && e.value.data.SetData? {
        assert ms[0] in e.value.data.members + AsSet(ms);
      }
    case _ =>
  }

  lemma ReversedLength(s: seq<bytes>)
    ensures |Reversed(s)| == |s|
  {
  }

  lemma ActFills(ks: Keyspace, k: bytes, op: Op, now: Time)
    requires Sane(op) && AllFilled(ks)
    ensures AllFilled(Act(ks, k, op, now).0)
  {
    RunFills(op, Visible(Lookup(ks, k), now), now);
    var after := Act(ks, k, op, now).0;
    forall j | j in after
      ensures Filled(after[j].data)
    {
      assert Lookup(after, j) == if j == k then Step(op, Lookup(ks, k), now).0 else Lookup(ks, j);
    }
  }

  lemma {:induction false} ActAllFills(ks: Keyspace, keys: seq<bytes>, op: Op, now: Time)
    requires Sane(op) && AllFilled(ks)
    ensures AllFilled(ActAll(ks, keys, op, now).0)
  {
    if keys != [] {
      var front := keys[..|keys| - 1];
      ActAllFills(ks, front, op, now);
      ActFills(ActAll(ks, front, op, now).0, keys[|keys| - 1], op, now);
    }
  }

  lemma MapsEqual<K(!new), V>(a: map<K, V>, b: map<K, V>)
    requires forall k :: Lookup(a, k) == Lookup(b, k)
    ensures a == b
  {
    forall k
      ensures k in a <==> k in b
    {
      assert Lookup(a, k) == Lookup(b, k);
    }
    forall k | k in a
      ensures a[k] == b[k]
    {
      assert Lookup(a, k) == Lookup(b, k);
    }
  }

  lemma WholeSeq<T>(a: seq<T>)
    ensures a[|a|..] == [] && a[|a|..|a|] == [] && a[..|a|] == a && a + [] == a
  {
  }

  lemma PrefixSnoc<T>(a: seq<T>, i: nat, x: T)
    requires i <= |a|
    ensures (a + [x])[..i] == a[..i]
  {
  }

  lemma SuffixSnoc<T>(a: seq<T>, i: nat, x: T)
    requires i <= |a|
    ensures (a + [x])[i..] == a[i..] + [x]
  {
  }

  lemma LiveLookup(ks: Keyspace, k: bytes, now: Time)
    ensures Lookup(Live(ks, now), k) == Visible(Lookup(ks, k), now)
  {
  }

  /** The live view after an operation is the operation on the live view. */
  lemma ActOnLive(ks: Keyspace, k: bytes, op: Op, now: Time)
    ensures Live(Act(ks, k, op, now).0, now) == Act(Live(ks, now), k, op, now).0
    ensures Act(ks, k, op, now).1 == Act(Live(ks, now), k, op, now).1
  {
    var after := Act(ks, k, op, now).0;
    LiveLookup(ks, k, now);
    StepOnVisible(op, Lookup(ks, k), now);
    forall j
      ensures Lookup(Live(after, now), j) == Lookup(Act(Live(ks, now), k, op, now).0, j)
    {
      LiveLookup(after, j, now);
      LiveLookup(ks, j, now);
    }
    MapsEqual(Live(after, now), Act(Live(ks, now), k, op, now).0);
  }

  lemma StepOnVisible(op: Op, e: Option<Entry>, now: Time)
    ensures Visible(Step(op, e, now).0, now) == Step(op, Visible(e, now), now).0
    ensures Step(op, e, now).1 == Step(op, Visible(e, now), now).1
  {
    RunKeeps(op, Visible(e, now), now);
  }

  /** A reader on any number of keys leaves the stored keyspace as it is. */
  lemma {:induction false} ActAllReads(ks: Keyspace, keys: seq<bytes>, op: Op, now: Time)
    requires !Mutates(op)
    ensures ActAll(ks, keys, op, now).0 == ks
  {
    if keys != [] {
      ActAllReads(ks, keys[..|keys| - 1], op, now);
      MapsEqual(Act(ks, keys[|keys| - 1], op, now).0, ks);
    }
  }
}
