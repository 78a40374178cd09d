/**
 The copying half of a compaction, tied to the machine's CopyNext step.
 */
module Compactor {
  import opened Bytes
  import opened Keyspace
  import opened Store
  import opened Snapshots
  import opened Rewrite
  import opened System

  /** What the snapshot loop takes from a shard is what the machine's step may take. */
  lemma CopiedShard(route: bytes -> nat, ss: seq<Keyspace>, s: State, recs: seq<Record>)
    requires Routed(route, ss) && s.job.Copying? && s.job.shard < |ss| && s.ks == Flatten(ss)
    requires Distinct(recs) && AllCopies(recs, ss[s.job.shard]) && AllPaired(recs) && AllFit(recs)
    requires forall k :: k in KeysOf(recs) <==> k in ss[s.job.shard] && !Expired(ss[s.job.shard][k], s.job.started)
    ensures ShardCopy(route, s, recs)
  {
    var i := s.job.shard;
    forall k
      ensures Index(route, k) == i ==> Lookup(s.ks, k) == Lookup(ss[i], k)
      ensures k in ss[i] ==> Index(route, k) == i && k in s.ks && s.ks[k] == ss[i][k]
    {
      FlattenAt(route, ss, k);
    }
    forall n | 0 <= n < |recs|
      ensures recs[n].key in s.ks && Copies(recs[n], s.ks[recs[n].key])
    {
      assert recs[n].key in ss[i] && Copies(recs[n], ss[i][recs[n].key]);
    }
    forall k
      ensures k in KeysOf(recs) <==> k in s.ks && Index(route, k) == i && !Expired(s.ks[k], s.job.started)
    {
      assert Index(route, k) == i ==> Lookup(s.ks, k) == Lookup(ss[i], k);
    }
  }

  /** One turn of the snapshot loop on a store whose contents are the machine's: an enabled CopyNext. */
  method CopyOne(db: DB, shard: nat, started: Time, ghost s: State) returns (recs: seq<Record>)
    requires db.Valid() && s.ks == db.Contents() && shard < SHARD_COUNT
    requires s.job.Copying? && s.job.shard == shard && s.job.started == started
    ensures AllPaired(recs) && (AllFit(recs) ==> Enabled(db.route, s, CopyNext(recs)))
  {
    recs := CopyShard(db.shards[shard], started);
    assert AllPaired(recs) by {
      assert forall n :: 0 <= n < |recs| ==> Copies(recs[n], db.shards[shard][recs[n].key]);
    }
    if AllFit(recs) {
      CopiedShard(db.route, db.shards[..], s, recs);
    }
  }
}
