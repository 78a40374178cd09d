/**
 The sharded store: 32 maps, each key held only by the shard it hashes to. Every
 operation is proved to do to the union of the shards what Keyspace says it does
 to one flat map. An operation runs at one instant, under its shard's lock.
 */
module Store {
  import opened Bytes
  import opened Resp
  import opened Keyspace
  import opened Commands

  const SHARD_COUNT: nat := 32

  /** The shard number of a key, for whatever hash the store routes by. */
  function Index(route: bytes -> nat, k: bytes): nat {
    route(k) % SHARD_COUNT
  }

  /** Each shard holds only keys that hash to it, so no key is in two shards. */
  ghost predicate Routed(route: bytes -> nat, ss: seq<Keyspace>) {
    forall i, k :: 0 <= i < |ss| && k in ss[i] ==> Index(route, k) == i
  }

  function Flatten(ss: seq<Keyspace>): Keyspace {
    if ss == [] then map[] else Flatten(ss[..|ss| - 1]) + ss[|ss| - 1]
  }

  lemma {:induction false} FlattenAt(route: bytes -> nat, ss: seq<Keyspace>, k: bytes)
    requires Routed(route, ss)
    ensures Lookup(Flatten(ss), k) == if Index(route, k) < |ss| then Lookup(ss[Index(route, k)], k) else None
  {
    if ss != [] {
      FlattenAt(route, ss[..|ss| - 1], k);
    }
  }

  /** Writing one shard writes the flat map at that key and nowhere else. */
  lemma FlattenPut(route: bytes -> nat, ss: seq<Keyspace>, k: bytes, e: Option<Entry>)
    requires Routed(route, ss) && Index(route, k) < |ss|
    ensures var i := Index(route, k);
            var after := ss[i := Put(ss[i], k, e)];
            Routed(route, after) && Flatten(after) == Put(Flatten(ss), k, e)
  {
    var i := Index(route, k);
    var after := ss[i := Put(ss[i], k, e)];
    forall j, x | 0 <= j < |after| && x in after[j]
      ensures Index(route, x) == j
    {
      assert Lookup(after[j], x).Some?;
    }
    forall x
      ensures Lookup(Flatten(after), x) == Lookup(Put(Flatten(ss), k, e), x)
    {
      FlattenAt(route, after, x);
      FlattenAt(route, ss, x);
    }
    MapsEqual(Flatten(after), Put(Flatten(ss), k, e));
  }

  lemma PutPut(ks: Keyspace, k: bytes, a: Option<Entry>, b: Option<Entry>)
    ensures Put(Put(ks, k, a), k, b) == Put(ks, k, b)
  {
    MapsEqual(Put(Put(ks, k, a), k, b), Put(ks, k, b));
  }

  function Sizes(ss: seq<Keyspace>): nat {
    if ss == [] then 0 else Sizes(ss[..|ss| - 1]) + |ss[|ss| - 1]|
  }

  lemma {:induction false} FlattenSize(route: bytes -> nat, ss: seq<Keyspace>)
    requires Routed(route, ss)
    ensures |Flatten(ss)| == Sizes(ss)
  {
    if ss != [] {
      var front, last := ss[..|ss| - 1], ss[|ss| - 1];
      FlattenSize(route, front);
      forall k | k in last
        ensures k !in Flatten(front)
      {
        FlattenAt(route, front, k);
      }
      assert (Flatten(front) + last).Keys == Flatten(front).Keys + last.Keys;
      assert Flatten(front).Keys !! last.Keys;
    }
  }

  /** What a handler sends: a reply the specification fixes, or an array of bulk strings in some order. */
  datatype Answer = Plain(o: Outcome) | Listing(items: seq<bytes>)

  /** The answer is the outcome, whatever order a map was ranged over in. */
  ghost predicate Shows(a: Answer, o: Outcome) {
    match o
    case Items(l) => a == Listing(l)
    case Unordered(names) => a.Listing? && |a.items| == |names| && AsSet(a.items) == names
    case FieldsOf(h) => a.Listing? && |a.items| == 2 * |h| && Assigned(Pairs(a.items)) == h
    case ValuesOf(h) => a.Listing? && |a.items| == |h| && exists fields | |fields| == |a.items| :: Assigned(Zip(fields, a.items)) == h
    case _ => a == Plain(o)
  }

  /** b is a without some of the keys that are expired at t. */
  ghost predicate Faded(a: Keyspace, b: Keyspace, t: Time) {
    forall k :: Lookup(b, k) == Lookup(a, k) || (Lookup(b, k) == None && k in a && Expired(a[k], t))
  }

  class DB {
    const route: bytes -> nat
    const shards: array<Keyspace>

    ghost predicate Valid()
      reads shards
    {
      shards.Length == SHARD_COUNT && Routed(route, shards[..])
    }

    /** The store as one flat map. */
    ghost function Contents(): Keyspace
      reads shards
    {
      Flatten(shards[..])
    }

    constructor (route: bytes -> nat)
      ensures Valid() && fresh(shards) && Contents() == map[] && this.route == route
    {
      this.route := route;
      shards := new Keyspace[SHARD_COUNT](_ => map[]);
      new;
      forall k
        ensures Lookup(Contents(), k) == None
      {
        FlattenAt(route, shards[..], k);
      }
      MapsEqual(Contents(), map[]);
    }

    // ---------------------------------------------------------------- lookups

    method ShardFor(key: bytes) returns (i: nat)
      requires Valid()
      ensures i == Index(route, key) && i < shards.Length
      ensures Lookup(Contents(), key) == Lookup(shards[i], key)
    {
      i := route(key) % SHARD_COUNT;
      FlattenAt(route, shards[..], key);
    }

    /** Reads hide an expired entry and leave it in place. */
    method Peek(key: bytes, now: Time) returns (e: Option<Entry>)
      requires Valid()
      ensures e == Visible(Lookup(Contents(), key), now)
    {
      var i := ShardFor(key);
      if key !in shards[i] { return None; }
      e := if Expired(shards[i][key], now) then None else Some(shards[i][key]);
    }

    method Assign(key: bytes, e: Option<Entry>)
      requires Valid()
      modifies shards
      ensures Valid() && Contents() == Put(old(Contents()), key, e)
    {
      var i := ShardFor(key);
      FlattenPut(route, shards[..], key, e);
      shards[i] := Put(shards[i], key, e);
      assert shards[..] == old(shards[..])[i := Put(old(shards[i]), key, e)];
    }

    /** Writes evict an expired entry before they look at it. */
    method LiveEntry(key: bytes, now: Time) returns (e: Option<Entry>)
      requires Valid()
      modifies shards
      ensures Valid() && e == Visible(Lookup(old(Contents()), key), now)
      ensures Contents() == Put(old(Contents()), key, e)
    {
      var i := ShardFor(key);
      if key in shards[i] && Expired(shards[i][key], now) {
        Assign(key, None);
        return None;
      }
      e := if key in shards[i] then Some(shards[i][key]) else None;
      MapsEqual(Contents(), Put(Contents(), key, e));
    }

    /** The tail of every write: what liveEntry found is replaced by what the command makes of it. */
    method Finish(key: bytes, ghost op: Op, ghost before: Keyspace, ghost now: Time, e: Option<Entry>)
      requires Valid() && Mutates(op)
      requires Contents() == Put(before, key, Visible(Lookup(before, key), now))
      requires e == Run(op, Visible(Lookup(before, key), now), now).0
      modifies shards
      ensures Valid() && Contents() == Act(before, key, op, now).0
    {
      Assign(key, e);
      PutPut(before, key, Visible(Lookup(before, key), now), e);
    }

    // ---------------------------------------------------------------- strings and keys

    /** GET's read half: the reply. Evicting an expired key is ExpireIfNeeded, under a lock of its own. */
    method Get(key: bytes, now: Time) returns (o: Outcome, expired: bool)
      requires Valid()
      ensures o == Act(Contents(), key, Op.Get, now).1
      ensures expired <==> key in Contents() && Expired(Contents()[key], now)
    {
      var i := ShardFor(key);
      if key !in shards[i] { return Nil, false; }
      var e := shards[i][key];
      if Expired(e, now) { return Nil, true; }
      if !e.data.StrData? { return WrongType, false; }
      return Payload(e.data.str), false;
    }

    /** GET's write half, which looks again: it removes the key only if it is expired now. */
    method ExpireIfNeeded(key: bytes, now: Time) returns (deleted: bool)
      requires Valid()
      modifies shards
      ensures Valid() && (deleted <==> key in old(Contents()) && Expired(old(Contents())[key], now))
      ensures Contents() == Put(old(Contents()), key, Visible(Lookup(old(Contents()), key), now))
    {
      var i := ShardFor(key);
      if key in shards[i] && Expired(shards[i][key], now) {
        Assign(key, None);
        return true;
      }
      MapsEqual(Contents(), Put(Contents(), key, Visible(Lookup(Contents(), key), now)));
      deleted := false;
    }

    method Set(key: bytes, value: bytes, now: Time) returns (o: Outcome)
      requires Valid()
      modifies shards
      ensures Valid() && (Contents(), o) == Act(old(Contents()), key, Op.Set(value), now)
    {
      Assign(key, Some(Entry(StrData(value), None)));
      o := Done;
    }

    /** Every key under a lock of its own, the i-th at instant clock(i). */
    method Del(keys: seq<bytes>, clock: nat -> Time) returns (removed: nat)
      requires Valid()
      modifies shards
      ensures Valid() && Contents() == ActEach(old(Contents()), keys, Op.Del, clock).0
      ensures removed == Total(ActEach(old(Contents()), keys, Op.Del, clock).1)
    {
      removed := 0;
      for n := 0 to |keys|
        invariant Valid() && Contents() == ActEach(old(Contents()), keys[..n], Op.Del, clock).0
        invariant removed == Total(ActEach(old(Contents()), keys[..n], Op.Del, clock).1)
      {
        ghost var before := Contents();
        var e := LiveEntry(keys[n], clock(n));
        Finish(keys[n], Op.Del, before, clock(n), None);
        if e.Some? {
          removed := removed + 1;
        }
        ActEachSnoc(old(Contents()), keys, n, Op.Del, clock);
      }
      assert keys[..|keys|] == keys;
    }

    method Exists(keys: seq<bytes>, clock: nat -> Time) returns (count: nat)
      requires Valid()
      ensures count == Total(ActEach(Contents(), keys, Op.Exists, clock).1)
    {
      count := 0;
      for n := 0 to |keys|
        invariant count == Total(ActEach(Contents(), keys[..n], Op.Exists, clock).1)
      {
        var e := Peek(keys[n], clock(n));
        if e.Some? {
          count := count + 1;
        }
        ActEachReads(Contents(), keys[..n], Op.Exists, clock);
        ActEachSnoc(Contents(), keys, n, Op.Exists, clock);
      }
      assert keys[..|keys|] == keys;
    }

    method KeyCount() returns (n: nat)
      requires Valid()
      ensures n == |Contents()|
    {
      n := 0;
      for i := 0 to SHARD_COUNT
        invariant n == Sizes(shards[..i])
      {
        assert shards[..i + 1][..i] == shards[..i];
        n := n + |shards[i]|;
      }
      assert shards[..SHARD_COUNT] == shards[..];
      FlattenSize(route, shards[..]);
    }

    // ---------------------------------------------------------------- lists

    method LPush(key: bytes, values: seq<bytes>, now: Time) returns (o: Outcome)
      requires Valid()
      modifies shards
      ensures Valid() && (Contents(), o) == Act(old(Contents()), key, Op.LPush(values), now)
    {
      var e := LiveEntry(key, now);
      if e.Some? && !e.value.data.ListData? { return WrongType; }
      var after;
      after, o := LPushTo(e, values, now);
      Finish(key, Op.LPush(values), old(Contents()), now, after);
    }

    method RPush(key: bytes, values: seq<bytes>, now: Time) returns (o: Outcome)
      requires Valid()
      modifies shards
      ensures Valid() && (Contents(), o) == Act(old(Contents()), key, Op.RPush(values), now)
    {
      var e := LiveEntry(key, now);
      if e.Some? && !e.value.data.ListData? { return WrongType; }
      var list := AppendEach(if e.Some? then e.value.data.list else [], values);
      assert [] + values == values;
      var deadline := if e.Some? then e.value.expireAt else None;
      Finish(key, Op.RPush(values), old(Contents()), now, Some(Entry(ListData(list), deadline)));
      o := Count(|list|);
    }

    method LPop(key: bytes, now: Time) returns (o: Outcome)
      requires Valid()
      modifies shards
      ensures Valid() && (Contents(), o) == Act(old(Contents()), key, Op.LPop, now)
    {
      var e := LiveEntry(key, now);
      if e == None { return Nil; }
      if !e.value.data.ListData? { return WrongType; }
      var list := e.value.data.list;
      if list == [] { return Nil; }
      var rest := list[1..];
      Finish(key, Op.LPop, old(Contents()), now, if rest == [] then None else Some(Entry(ListData(rest), e.value.expireAt)));
      o := Payload(list[0]);
    }

    method RPop(key: bytes, now: Time) returns (o: Outcome)
      requires Valid()
      modifies shards
      ensures Valid() && (Contents(), o) == Act(old(Contents()), key, Op.RPop, now)
    {
      var e := LiveEntry(key, now);
      if e == None { return Nil; }
      if !e.value.data.ListData? { return WrongType; }
      var list := e.value.data.list;
      if list == [] { return Nil; }
      var n := |list|;
      var rest := list[..n - 1];
      Finish(key, Op.RPop, old(Contents()), now, if rest == [] then None else Some(Entry(ListData(rest), e.value.expireAt)));
      o := Payload(list[n - 1]);
    }

    method LLen(key: bytes, now: Time) returns (a: Answer)
      requires Valid()
      ensures Shows(a, Act(Contents(), key, Op.LLen, now).1)
    {
      var e := Peek(key, now);
      if e == None { return Plain(Count(0)); }
      if !e.value.data.ListData? { return Plain(WrongType); }
      a := Plain(Count(|e.value.data.list|));
    }

    method LRange(key: bytes, start: int, stop: int, now: Time) returns (a: Answer)
      requires Valid()
      ensures Shows(a, Act(Contents(), key, Op.LRange(start, stop), now).1)
    {
      var e := Peek(key, now);
      if e == None { return Listing([]); }
      if !e.value.data.ListData? { return Plain(WrongType); }
      var list := e.value.data.list;
      var bounds := NormalizeRange(start, stop, |list|);
      if bounds == None { return Listing([]); }
      var (lo, hi) := bounds.value;
      var out: seq<bytes> := [];
      for i := lo to hi + 1
        invariant out == list[lo..i]
      {
        out := out + [list[i]];
      }
      a := Listing(out);
    }

    // ---------------------------------------------------------------- hashes

    method HGet(key: bytes, field: bytes, now: Time) returns (a: Answer)
      requires Valid()
      ensures Shows(a, Act(Contents(), key, Op.HGet(field), now).1)
    {
      var e := Peek(key, now);
      if e == None { return Plain(Nil); }
      if !e.value.data.HashData? { return Plain(WrongType); }
      var hash := e.value.data.hash;
      a := Plain(if field in hash then Payload(hash[field]) else Nil);
    }

    /** The flat array of the reply: each field followed by its value. */
    method HGetAll(key: bytes, now: Time) returns (a: Answer)
      requires Valid()
      ensures Shows(a, Act(Contents(), key, Op.HGetAll, now).1)
    {
      var e := Peek(key, now);
      if e == None { return Listing([]); }
      if !e.value.data.HashData? { return Plain(WrongType); }
      var fields, values := ListHash(e.value.data.hash);
      var out := Alternate(fields, values);
      a := Listing(out);
    }

    method HKeys(key: bytes, now: Time) returns (a: Answer)
      requires Valid()
      ensures Shows(a, Act(Contents(), key, Op.HKeys, now).1)
    {
      var e := Peek(key, now);
      if e == None { return Listing([]); }
      if !e.value.data.HashData? { return Plain(WrongType); }
      var keys := ListSet(e.value.data.hash.Keys);
      a := Listing(keys);
    }

    method HVals(key: bytes, now: Time) returns (a: Answer)
      requires Valid()
      ensures Shows(a, Act(Contents(), key, Op.HVals, now).1)
    {
      var e := Peek(key, now);
      if e == None {
        assert Assigned(Zip([], [])) == map[];
        return Listing([]);
      }
      if !e.value.data.HashData? { return Plain(WrongType); }
      var fields, values := ListHash(e.value.data.hash);
      a := Listing(values);
    }

    method HLen(key: bytes, now: Time) returns (a: Answer)
      requires Valid()
      ensures Shows(a, Act(Contents(), key, Op.HLen, now).1)
    {
      var e := Peek(key, now);
      if e == None { return Plain(Count(0)); }
      if !e.value.data.HashData? { return Plain(WrongType); }
      a := Plain(Count(|e.value.data.hash|));
    }

    method HSet(key: bytes, fields: seq<bytes>, values: seq<bytes>, now: Time) returns (o: Outcome)
      requires Valid() && |fields| == |values|
      modifies shards
      ensures Valid() && (Contents(), o) == Act(old(Contents()), key, Op.HSet(Zip(fields, values)), now)
    {
      var e := LiveEntry(key, now);
      if e.Some? && !e.value.data.HashData? { return WrongType; }
      var hash, added := SetFields(if e.Some? then e.value.data.hash else map[], fields, values);
      HashFresh(Assigned(Zip(fields, values)));
      var deadline := if e.Some? then e.value.expireAt else None;
      Finish(key, Op.HSet(Zip(fields, values)), old(Contents()), now, Some(Entry(HashData(hash), deadline)));
      o := Count(added);
    }

    method HDel(key: bytes, fields: seq<bytes>, now: Time) returns (o: Outcome)
      requires Valid()
      modifies shards
      ensures Valid() && (Contents(), o) == Act(old(Contents()), key, Op.HDel(fields), now)
    {
      var e := LiveEntry(key, now);
      if e == None { return Count(0); }
      if !e.value.data.HashData? { return WrongType; }
      var hash, removed := RemoveFields(e.value.data.hash, fields);
      Finish(key, Op.HDel(fields), old(Contents()), now,
             if |hash| == 0 then None else Some(Entry(HashData(hash), e.value.expireAt)));
      o := Count(removed);
    }

    // ---------------------------------------------------------------- sets

    method SIsMember(key: bytes, member: bytes, now: Time) returns (a: Answer)
      requires Valid()
      ensures Shows(a, Act(Contents(), key, Op.SIsMember(member), now).1)
    {
      var e := Peek(key, now);
      if e == None { return Plain(Count(0)); }
      if !e.value.data.SetData? { return Plain(WrongType); }
      a := Plain(Count(if member in e.value.data.members then 1 else 0));
    }

    method SMembers(key: bytes, now: Time) returns (a: Answer)
      requires Valid()
      ensures Shows(a, Act(Contents(), key, Op.SMembers, now).1)
    {
      var e := Peek(key, now);
      if e == None { return Listing([]); }
      if !e.value.data.SetData? { return Plain(WrongType); }
      var members := ListSet(e.value.data.members);
      a := Listing(members);
    }

    method SCard(key: bytes, now: Time) returns (a: Answer)
      requires Valid()
      ensures Shows(a, Act(Contents(), key, Op.SCard, now).1)
    {
      var e := Peek(key, now);
      if e == None { return Plain(Count(0)); }
      if !e.value.data.SetData? { return Plain(WrongType); }
      a := Plain(Count(|e.value.data.members|));
    }

    method SAdd(key: bytes, members: seq<bytes>, now: Time) returns (o: Outcome)
      requires Valid()
      modifies shards
      ensures Valid() && (Contents(), o) == Act(old(Contents()), key, Op.SAdd(members), now)
    {
      var e := LiveEntry(key, now);
      var after;
      after, o := SAddTo(e, members, now);
      if o == WrongType { return; }
      Finish(key, Op.SAdd(members), old(Contents()), now, after);
    }

    method SRem(key: bytes, members: seq<bytes>, now: Time) returns (o: Outcome)
      requires Valid()
      modifies shards
      ensures Valid() && (Contents(), o) == Act(old(Contents()), key, Op.SRem(members), now)
    {
      var e := LiveEntry(key, now);
      if e == None { return Count(0); }
      if !e.value.data.SetData? { return WrongType; }
      var items, removed := RemoveMembers(e.value.data.members, members);
      assert members[..|members|] == members;
      Finish(key, Op.SRem(members), old(Contents()), now,
             if |items| == 0 then None else Some(Entry(SetData(items), e.value.expireAt)));
      o := Count(removed);
    }

    // ---------------------------------------------------------------- deadlines

    method Expire(key: bytes, d: int64, now: Time) returns (o: Outcome)
      requires Valid()
      modifies shards
      ensures Valid() && (Contents(), o) == Act(old(Contents()), key, Op.Expire(d), now)
    {
      var e := LiveEntry(key, now);
      if e == None { return Count(0); }
      Finish(key, Op.Expire(d), old(Contents()), now,
             if d <= 0 then None else Some(e.value.(expireAt := Some(now + d))));
      o := Count(1);
    }

    /** TTL and PTTL: the entry is looked up at instant now, and the time left is read off the clock again. */
    method Ttl(key: bytes, unit: Unit, now: Time, later: Time) returns (a: Answer)
      requires Valid()
      ensures Shows(a, TtlReply(Visible(Lookup(Contents(), key), now), unit, later))
    {
      var e := Peek(key, now);
      if e == None { return Plain(Count(-2)); }
      if e.value.expireAt == None { return Plain(Count(-1)); }
      var remaining: int := Until(e.value.expireAt.value, later);
      a := Plain(Count(Quo(Wrap64(remaining + unit / 2), unit)));
    }

    method Persist(key: bytes, now: Time) returns (o: Outcome)
      requires Valid()
      modifies shards
      ensures Valid() && (Contents(), o) == Act(old(Contents()), key, Op.Persist, now)
    {
      var e := LiveEntry(key, now);
      if e == None || e.value.expireAt == None { return Count(0); }
      Finish(key, Op.Persist, old(Contents()), now, Some(e.value.(expireAt := None)));
      o := Count(1);
    }
  }

  // ------------------------------------------------------------------ requests

  /** Dispatch's answer: an error before the store is reached, one that needs no key, or a handler's. */
  datatype Response = Denied | Immediate | Sent(answer: Answer)

  ghost predicate Responds(r: Response, reply: Reply) {
    match reply
    case Refused => r.Denied?
    case Answered => r.Immediate?
    case Replied(o) => r.Sent? && Shows(r.answer, o)
  }

  /**
   Dispatch: the handler for a request, run on the sharded store. GET alone may go on to
   evict its key, if that is expired at the later instant it looks again.
   */
  method Execute(db: DB, req: Value, now: Time, later: Time) returns (r: Response)
    requires db.Valid()
    modifies db.shards
    ensures db.Valid() && Faded(Dispatch(old(db.Contents()), req, now).0, db.Contents(), later)
    ensures NameIn(req) != GET ==> db.Contents() == Dispatch(old(db.Contents()), req, now).0
    ensures Responds(r, Dispatch(old(db.Contents()), req, now).1)
  {
    var p := PlanOf(req);
    OnlyGetGets(req);
    if p.On? && p.op.HSet? {
      HSetArgs(req);
      var fields, values := SplitPairs(BulkArgs(req.elems[1..])[1..]);
      assert Zip(fields, values) == p.op.pairs;
      r := ExecuteHSet(db, p, fields, values, now);
    } else {
      r := ExecutePlan(db, p, now, later);
    }
  }

  method ExecuteHSet(db: DB, p: Plan, fields: seq<bytes>, values: seq<bytes>, now: Time) returns (r: Response)
    requires db.Valid() && |fields| == |values| && p.On? && p.op == Op.HSet(Zip(fields, values)) && |p.keys| == 1
    modifies db.shards
    ensures db.Valid() && db.Contents() == Carry(old(db.Contents()), p, now).0
    ensures Responds(r, Carry(old(db.Contents()), p, now).1)
  {
    assert p.keys == [p.keys[0]];
    ActAllOne(db.Contents(), p.keys[0], p.op, now);
    var o := db.HSet(p.keys[0], fields, values, now);
    r := Sent(Plain(o));
  }

  method ExecutePlan(db: DB, p: Plan, now: Time, later: Time) returns (r: Response)
    requires db.Valid() && (p.On? ==> p.keys != [] && !p.op.HSet? && (|p.keys| == 1 || p.op.Del? || p.op.Exists?))
    modifies db.shards
    ensures db.Valid() && Faded(Carry(old(db.Contents()), p, now).0, db.Contents(), later)
    ensures !(p.On? && p.op.Get?) ==> db.Contents() == Carry(old(db.Contents()), p, now).0
    ensures Responds(r, Carry(old(db.Contents()), p, now).1)
  {
    if p.Reject? { return Denied; }
    if p.Local? { return Immediate; }
    var keys, op := p.keys, p.op;
    ghost var before := db.Contents();
    if op.Del? {
      ActEachAtOnce(before, keys, op, now);
      var n := db.Del(keys, (_: nat) => now);
      CountsSummary(before, keys, op, now);
      return Sent(Plain(Count(n)));
    }
    if op.Exists? {
      ActEachAtOnce(before, keys, op, now);
      var n := db.Exists(keys, (_: nat) => now);
      CountsSummary(before, keys, op, now);
      ActAllReads(before, keys, op, now);
      return Sent(Plain(Count(n)));
    }
    assert keys == [keys[0]];
    ActAllOne(before, keys[0], op, now);
    var a := ExecuteOne(db, keys[0], op, now, later);
    r := Sent(a);
  }

  method ExecuteOne(db: DB, key: bytes, op: Op, now: Time, later: Time) returns (a: Answer)
    requires db.Valid() && !op.HSet? && !op.Del? && !op.Exists?
    modifies db.shards
    ensures db.Valid() && Faded(Act(old(db.Contents()), key, op, now).0, db.Contents(), later)
    ensures !op.Get? ==> db.Contents() == Act(old(db.Contents()), key, op, now).0
    ensures Shows(a, Act(old(db.Contents()), key, op, now).1)
  {
    if op.Get? {
      a := ExecuteGet(db, key, now, later);
    } else if Mutates(op) {
      var o := ExecuteWrite(db, key, op, now);
      a := Plain(o);
    } else {
      a := ExecuteRead(db, key, op, now);
      ActReads(db.Contents(), key, op, now);
    }
  }

  /** The read half of GET and, for an expired key, its write half. */
  method ExecuteGet(db: DB, key: bytes, now: Time, later: Time) returns (a: Answer)
    requires db.Valid()
    modifies db.shards
    ensures db.Valid() && Faded(Act(old(db.Contents()), key, Op.Get, now).0, db.Contents(), later)
    ensures Shows(a, Act(old(db.Contents()), key, Op.Get, now).1)
  {
    var o, expired := db.Get(key, now);
    ActReads(db.Contents(), key, Op.Get, now);
    if expired {
      var _ := db.ExpireIfNeeded(key, later);
    }
    a := Plain(o);
  }

  method ExecuteWrite(db: DB, key: bytes, op: Op, now: Time) returns (o: Outcome)
    requires db.Valid() && Mutates(op) && !op.Del? && !op.HSet?
    modifies db.shards
    ensures db.Valid() && (db.Contents(), o) == Act(old(db.Contents()), key, op, now)
    ensures Shows(Plain(o), o)
  {
    match op
    case Set(v) => o := db.Set(key, v, now);
    case LPush(vs) => o := db.LPush(key, vs, now);
    case RPush(vs) => o := db.RPush(key, vs, now);
    case LPop => o := db.LPop(key, now);
    case RPop => o := db.RPop(key, now);
    case HDel(fs) => o := db.HDel(key, fs, now);
    case SAdd(ms) => o := db.SAdd(key, ms, now);
    case SRem(ms) => o := db.SRem(key, ms, now);
    case Expire(d) => o := db.Expire(key, d, now);
    case Persist => o := db.Persist(key, now);
  }

  method ExecuteRead(db: DB, key: bytes, op: Op, now: Time) returns (a: Answer)
    requires db.Valid() && !Mutates(op) && !op.Get? && !op.Exists?
    ensures Shows(a, Act(db.Contents(), key, op, now).1)
  {
    match op
    case LLen => a := db.LLen(key, now);
    case LRange(start, stop) => a := db.LRange(key, start, stop, now);
    case HGet(f) => a := db.HGet(key, f, now);
    case HGetAll => a := db.HGetAll(key, now);
    case HKeys => a := db.HKeys(key, now);
    case HVals => a := db.HVals(key, now);
    case HLen => a := db.HLen(key, now);
    case SIsMember(m) => a := db.SIsMember(key, m, now);
    case SMembers => a := db.SMembers(key, now);
    case SCard => a := db.SCard(key, now);
    case Ttl(unit) => a := db.Ttl(key, unit, now, now);
  }

  lemma OnlyGetGets(req: Value)
    ensures PlanOf(req).On? && PlanOf(req).op.Get? ==> NameIn(req) == GET
  {
    if req.Array? && req.elems != [] {
      OnlyGetPlansGet(NameIn(req), BulkArgs(req.elems[1..]));
    }
  }

  lemma OnlyGetPlansGet(n: Name, args: seq<bytes>)
    ensures PlanFor(n, args).On? && PlanFor(n, args).op.Get? ==> n == GET
  {
  }

  lemma HSetArgs(req: Value)
    requires PlanOf(req).On? && PlanOf(req).op.HSet?
    ensures req.Array? && |req.elems| >= 2
    ensures PlanOf(req).op.pairs == Pairs(BulkArgs(req.elems[1..])[1..])
  {
    OnlyHSetSets(NameIn(req), BulkArgs(req.elems[1..]));
  }

  lemma OnlyHSetSets(n: Name, args: seq<bytes>)
    requires PlanFor(n, args).On? && PlanFor(n, args).op.HSet?
    ensures |args| >= 3 && PlanFor(n, args).op.pairs == Pairs(args[1..])
  {
    assert n == HSET;
  }

  lemma ActReads(ks: Keyspace, k: bytes, op: Op, now: Time)
    requires !Mutates(op)
    ensures Act(ks, k, op, now).0 == ks
  {
    MapsEqual(Act(ks, k, op, now).0, ks);
  }

  lemma {:induction false} CountsSummary(ks: Keyspace, keys: seq<bytes>, op: Op, now: Time)
    requires op.Del? || op.Exists?
    ensures Summary(ActAll(ks, keys, op, now).1) == Count(Total(ActAll(ks, keys, op, now).1))
  {
    if |keys| == 1 {
      ActAllOne(ks, keys[0], op, now);
      assert keys == [keys[0]];
      TotalSnoc([], Act(ks, keys[0], op, now).1);
    } else {
      ActAllLength(ks, keys, op, now);
    }
  }

  // ------------------------------------------------------------------ the loops over fields and members

  /** Ranging over a hash: every field once, each with its value. */
  method ListHash(h: map<bytes, bytes>) returns (fields: seq<bytes>, values: seq<bytes>)
    ensures |fields| == |values| == |h| && Assigned(Zip(fields, values)) == h
  {
    fields, values := [], [];
    var pending := h.Keys;
    assert h - pending == map[];
    while pending != {}
      invariant Ranging(h, fields, values, pending)
      decreases |pending|
    {
      var k :| k in pending;
      RangingStep(h, fields, values, pending, k);
      pending, fields, values := pending - {k}, fields + [k], values + [h[k]];
    }
    assert h - {} == h;
  }

  /** The fields of h that are not pending have been listed. */
  predicate Ranging(h: map<bytes, bytes>, fields: seq<bytes>, values: seq<bytes>, pending: set<bytes>) {
    && |fields| == |values| && |fields| + |pending| == |h|
    && pending <= h.Keys && Assigned(Zip(fields, values)) == h - pending
  }

  lemma RangingStep(h: map<bytes, bytes>, fields: seq<bytes>, values: seq<bytes>, pending: set<bytes>, k: bytes)
    requires Ranging(h, fields, values, pending) && k in pending
    ensures Ranging(h, fields + [k], values + [h[k]], pending - {k})
  {
    ZipSnoc(fields, values, k, h[k]);
    RestoreOne(h, pending, k);
  }

  lemma RestoreOne(h: map<bytes, bytes>, pending: set<bytes>, k: bytes)
    requires k in pending && pending <= h.Keys
    ensures (h - pending)[k := h[k]] == h - (pending - {k})
  {
  }

  lemma ZipSnoc(fields: seq<bytes>, values: seq<bytes>, f: bytes, v: bytes)
    requires |fields| == |values|
    ensures Zip(fields + [f], values + [v]) == Zip(fields, values) + [(f, v)]
    ensures Assigned(Zip(fields + [f], values + [v])) == Assigned(Zip(fields, values))[f := v]
  {
    var ps := Zip(fields, values);
    assert Zip(fields + [f], values + [v]) == ps + [(f, v)];
    assert (ps + [(f, v)])[..|ps|] == ps;
  }

  /** Ranging over a set: every member once. */
  method ListSet(s: set<bytes>) returns (members: seq<bytes>)
    ensures |members| == |s| && AsSet(members) == s
  {
    members := [];
    var pending := s;
    while pending != {}
      invariant pending <= s && AsSet(members) == s - pending && |members| + |pending| == |s|
      decreases |pending|
    {
      var m :| m in pending;
      assert AsSet(members + [m]) == AsSet(members) + {m};
      pending, members := pending - {m}, members + [m];
    }
  }

  /** HGETALL's flattening loop. */
  method Alternate(fields: seq<bytes>, values: seq<bytes>) returns (out: seq<bytes>)
    requires |fields| == |values|
    ensures |out| == 2 * |fields| && Pairs(out) == Zip(fields, values)
  {
    out := [];
    for i := 0 to |fields|
      invariant |out| == 2 * i
      invariant forall j :: 0 <= j < i ==> out[2 * j] == fields[j] && out[2 * j + 1] == values[j]
    {
      out := out + [fields[i], values[i]];
    }
  }

  /** What SADD makes of an entry, or of nothing. */
  method SAddTo(e: Option<Entry>, members: seq<bytes>, ghost now: Time) returns (after: Option<Entry>, o: Outcome)
    requires e.Some? ==> !Expired(e.value, now)
    ensures (after, o) == Run(Op.SAdd(members), e, now)
    ensures o == WrongType ==> after == e
  {
    if e.Some? && !e.value.data.SetData? { return e, WrongType; }
    var start := if e.Some? then e.value.data.members else {};
    var items, added := AddMembers(start, members);
    assert members[..|members|] == members;
    if e == None {
      assert start + AsSet(members) == AsSet(members) && AsSet(members) - start == AsSet(members);
    }
    after := Some(Entry(SetData(items), if e.Some? then e.value.expireAt else None));
    o := Count(added);
  }

  /** What LPUSH makes of a list, or of nothing. */
  method LPushTo(e: Option<Entry>, values: seq<bytes>, ghost now: Time) returns (after: Option<Entry>, o: Outcome)
    requires e.Some? ==> !Expired(e.value, now) && e.value.data.ListData?
    ensures (after, o) == Run(Op.LPush(values), e, now)
  {
    var prefix := Backwards(values);
    ReversedLength(values);
    var list := prefix + if e.Some? then e.value.data.list else [];
    assert prefix + [] == prefix;
    after := Some(Entry(ListData(list), if e.Some? then e.value.expireAt else None));
    o := Count(|list|);
  }

  /** LPUSH's loop: the values, last one first. */
  method Backwards(values: seq<bytes>) returns (prefix: seq<bytes>)
    ensures prefix == Reversed(values)
  {
    prefix := [];
    for i := |values| downto 0
      invariant prefix == Reversed(values[i..])
    {
      assert values[i..][1..] == values[i + 1..];
      prefix := prefix + [values[i]];
    }
    assert values[0..] == values;
  }

  /** RPUSH's loop. */
  method AppendEach(start: seq<bytes>, values: seq<bytes>) returns (list: seq<bytes>)
    ensures list == start + values
  {
    list := start;
    for i := 0 to |values|
      invariant list == start + values[..i]
    {
      list := list + [values[i]];
    }
    assert values[..|values|] == values;
  }

  /** Assigns each field in turn and counts the ones that were not there. */
  method SetFields(start: map<bytes, bytes>, fields: seq<bytes>, values: seq<bytes>)
    returns (hash: map<bytes, bytes>, added: nat)
    requires |fields| == |values|
    ensures hash == start + Assigned(Zip(fields, values))
    ensures added == |Assigned(Zip(fields, values)).Keys - start.Keys|
  {
    hash, added := start, 0;
    ghost var ps := Zip(fields, values);
    for i := 0 to |fields|
      invariant hash == start + Assigned(ps[..i])
      invariant added == |Assigned(ps[..i]).Keys - start.Keys|
    {
      HashStep(start, ps, i);
      if fields[i] !in hash {
        added := added + 1;
      }
      hash := hash[fields[i] := values[i]];
    }
    assert ps[..|fields|] == ps;
  }

  /** Deletes each field in turn and counts the ones that were there. */
  method RemoveFields(start: map<bytes, bytes>, fields: seq<bytes>) returns (hash: map<bytes, bytes>, removed: nat)
    ensures hash == start - AsSet(fields)
    ensures removed == |start.Keys * AsSet(fields)|
  {
    hash, removed := start, 0;
    for i := 0 to |fields|
      invariant hash == start - AsSet(fields[..i])
      invariant removed == |start.Keys * AsSet(fields[..i])|
    {
      RemoveStep(start.Keys, fields, i);
      DropOne(start, AsSet(fields[..i]), fields[i]);
      if fields[i] in hash {
        hash := hash - {fields[i]};
        removed := removed + 1;
      }
    }
    assert fields[..|fields|] == fields;
  }

  method AddMembers(start: set<bytes>, members: seq<bytes>) returns (items: set<bytes>, added: nat)
    ensures Adding(start, members, |members|, items, added)
  {
    items, added := start, 0;
    for i := 0 to |members|
      invariant Adding(start, members, i, items, added)
    {
      AddingStep(start, members, i, items, added);
      if members[i] !in items {
        items := items + {members[i]};
        added := added + 1;
      }
    }
  }

  method RemoveMembers(start: set<bytes>, members: seq<bytes>) returns (items: set<bytes>, removed: nat)
    ensures Removing(start, members, |members|, items, removed)
  {
    items, removed := start, 0;
    for i := 0 to |members|
      invariant Removing(start, members, i, items, removed)
    {
      RemovingStep(start, members, i, items, removed);
      if members[i] in items {
        items := items - {members[i]};
        removed := removed + 1;
      }
    }
  }

  /** The first n members have been added, and the new ones among them counted once each. */
  predicate Adding(start: set<bytes>, members: seq<bytes>, n: nat, items: set<bytes>, added: nat)
    requires n <= |members|
  {
    items == start + AsSet(members[..n]) && added == |AsSet(members[..n]) - start|
  }

  /** The first n members have been removed, and those that were there counted once each. */
  predicate Removing(start: set<bytes>, members: seq<bytes>, n: nat, items: set<bytes>, removed: nat)
    requires n <= |members|
  {
    items == start - AsSet(members[..n]) && removed == |start * AsSet(members[..n])|
  }

  lemma AddingStep(start: set<bytes>, ms: seq<bytes>, i: nat, items: set<bytes>, added: nat)
    requires i < |ms| && Adding(start, ms, i, items, added)
    ensures if ms[i] in items then Adding(start, ms, i + 1, items, added) else Adding(start, ms, i + 1, items + {ms[i]}, added + 1)
  {
    AddStep(start, ms, i);
  }

  lemma RemovingStep(start: set<bytes>, ms: seq<bytes>, i: nat, items: set<bytes>, removed: nat)
    requires i < |ms| && Removing(start, ms, i, items, removed)
    ensures if ms[i] in items then Removing(start, ms, i + 1, items - {ms[i]}, removed + 1) else Removing(start, ms, i + 1, items, removed)
  {
    RemoveStep(start, ms, i);
  }

  // ------------------------------------------------------------------ one step of each loop

  lemma ActEachSnoc(ks: Keyspace, keys: seq<bytes>, n: nat, op: Op, clock: nat -> Time)
    requires n < |keys|
    ensures var (before, os) := ActEach(ks, keys[..n], op, clock);
            var (after, o) := Act(before, keys[n], op, clock(n));
            && ActEach(ks, keys[..n + 1], op, clock) == (after, os + [o])
            && Total(os + [o]) == Total(os) + if o.Count? then o.n else 0
  {
    assert keys[..n + 1][..n] == keys[..n];
    var (before, os) := ActEach(ks, keys[..n], op, clock);
    TotalSnoc(os, Act(before, keys[n], op, clock(n)).1);
  }

  lemma {:induction false} ActEachReads(ks: Keyspace, keys: seq<bytes>, op: Op, clock: nat -> Time)
    requires !Mutates(op)
    ensures ActEach(ks, keys, op, clock).0 == ks
  {
    if keys != [] {
      var n := |keys| - 1;
      ActEachReads(ks, keys[..n], op, clock);
      ActReads(ks, keys[n], op, clock(n));
    }
  }

  function Zip(fields: seq<bytes>, values: seq<bytes>): (ps: seq<(bytes, bytes)>)
    requires |fields| == |values|
    ensures |ps| == |fields|
  {
    seq(|fields|, i requires 0 <= i < |fields| => (fields[i], values[i]))
  }

  lemma HashStep(start: map<bytes, bytes>, ps: seq<(bytes, bytes)>, i: nat)
    requires i < |ps|
    ensures start + Assigned(ps[..i + 1]) == (start + Assigned(ps[..i]))[ps[i].0 := ps[i].1]
    ensures |Assigned(ps[..i + 1]).Keys - start.Keys| ==
            |Assigned(ps[..i]).Keys - start.Keys| + if ps[i].0 in start + Assigned(ps[..i]) then 0 else 1
  {
    var before, p := Assigned(ps[..i]), ps[i];
    assert ps[..i + 1][..i] == ps[..i];
    MergePut(start, before, p.0, p.1);
    LeftoverGrows(before.Keys, p.0, start.Keys);
  }

  lemma MergePut(a: map<bytes, bytes>, b: map<bytes, bytes>, k: bytes, v: bytes)
    ensures a + b[k := v] == (a + b)[k := v]
    ensures b[k := v].Keys == b.Keys + {k}
  {
  }

  lemma DropOne(a: map<bytes, bytes>, gone: set<bytes>, k: bytes)
    ensures a - gone - {k} == a - (gone + {k})
    ensures k !in a - gone ==> a - gone == a - (gone + {k})
  {
  }

  lemma LeftoverGrows<T>(a: set<T>, x: T, b: set<T>)
    ensures |(a + {x}) - b| == |a - b| + if x in a || x in b then 0 else 1
  {
    if x in a || x in b {
      assert (a + {x}) - b == a - b;
    } else {
      assert (a + {x}) - b == (a - b) + {x};
    }
  }

  lemma HashFresh(h: map<bytes, bytes>)
    ensures var none: map<bytes, bytes> := map[];
            none + h == h && |h.Keys - none.Keys| == |h|
  {
    var none: map<bytes, bytes> := map[];
    assert h.Keys - none.Keys == h.Keys;
  }

  lemma AddStep(start: set<bytes>, ms: seq<bytes>, i: nat)
    requires i < |ms|
    ensures start + AsSet(ms[..i + 1]) == start + AsSet(ms[..i]) + {ms[i]}
    ensures |AsSet(ms[..i + 1]) - start| == |AsSet(ms[..i]) - start| + if ms[i] in start + AsSet(ms[..i]) then 0 else 1
  {
    assert AsSet(ms[..i + 1]) == AsSet(ms[..i]) + {ms[i]};
    LeftoverGrows(AsSet(ms[..i]), ms[i], start);
  }

  lemma RemoveStep(start: set<bytes>, ms: seq<bytes>, i: nat)
    requires i < |ms|
    ensures AsSet(ms[..i + 1]) == AsSet(ms[..i]) + {ms[i]}
    ensures start - AsSet(ms[..i + 1]) == start - AsSet(ms[..i]) - {ms[i]}
    ensures |start * AsSet(ms[..i + 1])| ==
            |start * AsSet(ms[..i])| + if ms[i] in start && ms[i] !in AsSet(ms[..i]) then 1 else 0
  {
    assert AsSet(ms[..i + 1]) == AsSet(ms[..i]) + {ms[i]};
    MeetGrows(AsSet(ms[..i]), ms[i], start);
    assert start * AsSet(ms[..i + 1]) == AsSet(ms[..i + 1]) * start;
    assert start * AsSet(ms[..i]) == AsSet(ms[..i]) * start;
  }
}
