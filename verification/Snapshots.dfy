/**
 The keyspace copied out as plain records, shard by shard, while reads and the
 reaper go on evicting expired keys between one shard and the next.
 */
module Snapshots {
  import opened Bytes
  import opened Keyspace
  import opened Store

  /** A value laid out for writing: hashes and sets in whatever order they were ranged over. */
  datatype Payload =
    | StrRecord(str: bytes)
    | ListRecord(list: seq<bytes>)
    | HashRecord(fields: seq<bytes>, values: seq<bytes>)
    | SetRecord(members: seq<bytes>)

  datatype Record = Record(key: bytes, payload: Payload, expireAt: Option<Time>)

  predicate Paired(p: Payload) {
    p.HashRecord? ==> |p.fields| == |p.values|
  }

  function DataOf(p: Payload): Data
    requires Paired(p)
  {
    match p
    case StrRecord(s) => StrData(s)
    case ListRecord(l) => ListData(l)
    case HashRecord(fs, vs) => HashData(Assigned(Zip(fs, vs)))
    case SetRecord(ms) => SetData(AsSet(ms))
  }

  /** r is a faithful copy of the entry e at its key. */
  predicate Copies(r: Record, e: Entry) {
    Paired(r.payload) && DataOf(r.payload) == e.data && r.expireAt == e.expireAt
  }

  function KeysOf(rs: seq<Record>): set<bytes> {
    set i | 0 <= i < |rs| :: rs[i].key
  }

  predicate Distinct(rs: seq<Record>) {
    forall i, j :: 0 <= i < j < |rs| ==> rs[i].key != rs[j].key
  }

  /** Every record is a faithful copy of the entry m holds under its key. */
  predicate AllCopies(rs: seq<Record>, m: Keyspace) {
    forall i :: 0 <= i < |rs| ==> rs[i].key in m && Copies(rs[i], m[rs[i].key])
  }

  // ------------------------------------------------------------------ one entry

  method CopyEntry(k: bytes, e: Entry) returns (r: Record)
    ensures r.key == k && Copies(r, e)
  {
    match e.data
    case StrData(s) => r := Record(k, StrRecord(s), e.expireAt);
    case ListData(l) => r := Record(k, ListRecord(l), e.expireAt);
    case HashData(h) =>
      var fields, values := ListHash(h);
      r := Record(k, HashRecord(fields, values), e.expireAt);
    case SetData(s) =>
      var members := ListSet(s);
      r := Record(k, SetRecord(members), e.expireAt);
  }

  // ------------------------------------------------------------------ one shard

  /** A shard under its read lock, its keys in any order: one copy of each key not expired at now. */
  method CopyShard(m: Keyspace, now: Time) returns (out: seq<Record>)
    ensures Distinct(out) && AllCopies(out, m)
    ensures forall k :: k in KeysOf(out) <==> k in m && !Expired(m[k], now)
  {
    out := [];
    var pending := m.Keys;
    while pending != {}
      invariant pending <= m.Keys && Distinct(out) && AllCopies(out, m)
      invariant forall k :: k in KeysOf(out) <==> k in m && k !in pending && !Expired(m[k], now)
      decreases |pending|
    {
      var k :| k in pending;
      pending := pending - {k};
      if !Expired(m[k], now) {
        var r := CopyEntry(k, m[k]);
        KeysOfSnoc(out, r);
        out := out + [r];
      }
    }
  }

  lemma KeysOfSnoc(rs: seq<Record>, r: Record)
    ensures KeysOf(rs + [r]) == KeysOf(rs) + {r.key}
    ensures Distinct(rs) && r.key !in KeysOf(rs) ==> Distinct(rs + [r])
  {
    KeysOfConcat(rs, [r]);
    assert KeysOf([r]) == {r.key} by { assert [r][0] == r; }
  }

  lemma KeysOfConcat(a: seq<Record>, b: seq<Record>)
    ensures KeysOf(a + b) == KeysOf(a) + KeysOf(b)
    ensures Distinct(a) && Distinct(b) && KeysOf(a) !! KeysOf(b) ==> Distinct(a + b)
  {
    forall k
      ensures k in KeysOf(a + b) <==> k in KeysOf(a) || k in KeysOf(b)
    {
      if k in KeysOf(a) {
        var i :| 0 <= i < |a| && a[i].key == k;
        assert (a + b)[i].key == k;
      } else if k in KeysOf(b) {
        var i :| 0 <= i < |b| && b[i].key == k;
        assert (a + b)[|a| + i].key == k;
      }
    }
    if Distinct(a) && Distinct(b) && KeysOf(a) !! KeysOf(b) {
      forall i, j | 0 <= i < j < |a + b|
        ensures (a + b)[i].key != (a + b)[j].key
      {
        if i < |a| <= j {
          assert a[i].key in KeysOf(a) && b[j - |a|].key in KeysOf(b);
        }
      }
    }
  }

  // ------------------------------------------------------------------ the whole store

  /** What readers and the reaper may do between two shards: eviction attempts at instant t. */
  method Evictions(db: DB, keys: seq<bytes>, t: Time)
    requires db.Valid()
    modifies db.shards
    ensures db.Valid() && Faded(old(db.Contents()), db.Contents(), t)
  {
    for i := 0 to |keys|
      invariant db.Valid() && Faded(old(db.Contents()), db.Contents(), t)
    {
      ghost var before := db.Contents();
      var _ := db.ExpireIfNeeded(keys[i], t);
      FadedTrans(old(db.Contents()), before, db.Contents(), t, t);
    }
  }

  lemma FadedTrans(a: Keyspace, b: Keyspace, c: Keyspace, t: Time, u: Time)
    requires Faded(a, b, t) && Faded(b, c, u)
    ensures t <= u ==> Faded(a, c, u)
    ensures u <= t ==> Faded(a, c, t)
  {
    forall k
      ensures Lookup(c, k) == Lookup(a, k) || (Lookup(c, k) == None && k in a && Expired(a[k], if t <= u then u else t))
    {
      assert Lookup(b, k) == Lookup(a, k) || (Lookup(b, k) == None && k in a && Expired(a[k], t));
      assert Lookup(c, k) == Lookup(b, k) || (Lookup(c, k) == None && k in b && Expired(b[k], u));
    }
  }

  /** The records cover the first n shards: all that is live at last, nothing expired at now, each key once and exact. */
  ghost predicate Covers(route: bytes -> nat, rs: seq<Record>, ks: Keyspace, n: nat, now: Time, last: Time) {
    && Distinct(rs) && AllCopies(rs, ks)
    && (forall k :: k in KeysOf(rs) ==> k in ks && Index(route, k) < n && !Expired(ks[k], now))
    && (forall k :: k in ks && Index(route, k) < n && !Expired(ks[k], last) ==> k in KeysOf(rs))
  }

  lemma CoversStep(route: bytes -> nat, rs: seq<Record>, ks: Keyspace, ss: seq<Keyspace>, n: nat, more: seq<Record>, now: Time, last: Time)
    requires Covers(route, rs, ks, n, now, last) && now <= last
    requires n < |ss| && Routed(route, ss) && Faded(ks, Flatten(ss), last)
    requires Distinct(more) && AllCopies(more, ss[n])
    requires forall k :: k in KeysOf(more) <==> k in ss[n] && !Expired(ss[n][k], now)
    ensures Covers(route, rs + more, ks, n + 1, now, last)
  {
    forall k
      ensures Index(route, k) == n ==> Lookup(Flatten(ss), k) == Lookup(ss[n], k)
    {
      FlattenAt(route, ss, k);
    }
    forall k | k in ss[n]
      ensures k in ks && ks[k] == ss[n][k] && Index(route, k) == n
    {
      assert Lookup(Flatten(ss), k) == Lookup(ss[n], k);
    }
    KeysOfConcat(rs, more);
    forall k | k in ks && Index(route, k) == n && !Expired(ks[k], last)
      ensures k in KeysOf(more)
    {
      assert Lookup(Flatten(ss), k) == Lookup(ks, k);
    }
    forall i | 0 <= i < |rs + more|
      ensures (rs + more)[i].key in ks && Copies((rs + more)[i], ks[(rs + more)[i].key])
    {
      if i >= |rs| {
        assert more[i - |rs|].key in ss[n];
      }
    }
  }

  /**
   Snapshot under the server's write lock: no writes, but before each shard is
   copied any keys may be evicted and the clock may have moved. Every key still live
   when the last shard is reached is in the result, no key already expired at now
   is, no key is twice, and every copy is exact.
   */
  method Snapshot(db: DB, now: Time, evictions: nat -> seq<bytes>, clock: nat -> Time) returns (out: seq<Record>)
    requires db.Valid()
    requires now <= clock(0) && forall i, j :: 0 <= i <= j ==> clock(i) <= clock(j)
    modifies db.shards
    ensures db.Valid() && Faded(old(db.Contents()), db.Contents(), clock(SHARD_COUNT - 1))
    ensures Covers(db.route, out, old(db.Contents()), SHARD_COUNT, now, clock(SHARD_COUNT - 1))
  {
    out := [];
    ghost var ks, last := db.Contents(), clock(SHARD_COUNT - 1);
    for n := 0 to SHARD_COUNT
      invariant db.Valid() && Faded(ks, db.Contents(), last)
      invariant Covers(db.route, out, ks, n, now, last)
    {
      ghost var before := db.Contents();
      Evictions(db, evictions(n), clock(n));
      FadedTrans(ks, before, db.Contents(), last, clock(n));
      var more := CopyShard(db.shards[n], now);
      CoversStep(db.route, out, ks, db.shards[..], n, more, now, last);
      out := out + more;
    }
  }
}
