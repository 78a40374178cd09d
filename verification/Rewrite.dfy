/**
 Compaction: a snapshot turned back into commands. Replaying those commands from
 an empty store rebuilds every value and every TTL flag of the snapshot.
 */
module Rewrite {
  import opened Bytes
  import opened Resp
  import opened RespIO
  import opened Keyspace
  import opened Commands
  import opened Images
  import opened Store
  import opened Snapshots

  // ------------------------------------------------------------------ records as commands

  function Bulks(args: seq<bytes>): (vs: seq<Value>)
    ensures |vs| == |args|
  {
    seq(|args|, i requires 0 <= i < |args| => Bulk(args[i]))
  }

  function BulkCmd(name: bytes, args: seq<bytes>): Value {
    Array([Bulk(name)] + Bulks(args))
  }

  /** The arguments of HSET after its key: fields and values in turn. */
  function Interleave(fields: seq<bytes>, values: seq<bytes>): (args: seq<bytes>)
    requires |fields| == |values|
    ensures |args| == 2 * |fields|
  {
    if fields == [] then [] else [fields[0], values[0]] + Interleave(fields[1..], values[1..])
  }

  /** The remaining milliseconds, truncated toward zero, and at least one. */
  function RemainingMs(deadline: Time, now: Time): (ms: int64)
    ensures ms >= 1
  {
    var d: int := Until(deadline, now);
    if d < MILLISECOND then 1 else d / MILLISECOND
  }

  function ValueCmd(r: Record): Option<Value>
    requires Paired(r.payload)
  {
    match r.payload
    case StrRecord(s) => Some(BulkCmd(Ascii("SET"), [r.key, s]))
    case ListRecord(l) => if l == [] then None else Some(BulkCmd(Ascii("RPUSH"), [r.key] + l))
    case HashRecord(fs, vs) => if fs == [] then None else Some(BulkCmd(Ascii("HSET"), [r.key] + Interleave(fs, vs)))
    case SetRecord(ms) => if ms == [] then None else Some(BulkCmd(Ascii("SADD"), [r.key] + ms))
  }

  function ExpireCmd(key: bytes, deadline: Time, now: Time): Value {
    BulkCmd(Ascii("PEXPIRE"), [key, FormatInt(RemainingMs(deadline, now))])
  }

  /** encodeRecord at instant now: the command that rebuilds the value, then its TTL if it has one. */
  function RecordCmds(r: Record, now: Time): seq<Value>
    requires Paired(r.payload)
  {
    match ValueCmd(r)
    case None => []
    case Some(c) => if r.expireAt == None then [c] else [c, ExpireCmd(r.key, r.expireAt.value, now)]
  }

  predicate AllPaired(rs: seq<Record>) {
    forall i :: 0 <= i < |rs| ==> Paired(rs[i].payload)
  }

  /** writeSnapshot, the i-th record written at instant clock(i). */
  function SnapshotCmds(rs: seq<Record>, clock: nat -> Time): seq<Value>
    requires AllPaired(rs)
  {
    if rs == [] then []
    else
      var n := |rs| - 1;
      SnapshotCmds(rs[..n], clock) + RecordCmds(rs[n], clock(n))
  }

  method WriteRecord(w: Writer, r: Record, now: Time)
    requires Paired(r.payload)
    modifies w
    ensures w.out == old(w.out) + EncodeAll(RecordCmds(r, now))
  {
    var value := ValueCmd(r);
    if value == None { return; }
    Write(w, value.value);
    EncodeAllOne(value.value);
    if r.expireAt != None {
      var expire := ExpireCmd(r.key, r.expireAt.value, now);
      Write(w, expire);
      EncodeAllOne(expire);
      EncodeAllConcat([value.value], [expire]);
    }
  }

  method WriteSnapshot(w: Writer, rs: seq<Record>, clock: nat -> Time)
    requires AllPaired(rs)
    modifies w
    ensures w.out == old(w.out) + EncodeAll(SnapshotCmds(rs, clock))
  {
    assert old(w.out) + [] == old(w.out);
    for n := 0 to |rs|
      invariant w.out == old(w.out) + SnapshotBytes(rs[..n], clock)
    {
      WriteRecord(w, rs[n], clock(n));
      SnapshotBytesSnoc(old(w.out), rs, n, clock);
    }
    assert rs[..|rs|] == rs;
  }

  function SnapshotBytes(rs: seq<Record>, clock: nat -> Time): bytes
    requires AllPaired(rs)
  {
    EncodeAll(SnapshotCmds(rs, clock))
  }

  lemma SnapshotBytesSnoc(out: bytes, rs: seq<Record>, n: nat, clock: nat -> Time)
    requires AllPaired(rs) && n < |rs|
    ensures out + SnapshotBytes(rs[..n + 1], clock) ==
            out + SnapshotBytes(rs[..n], clock) + EncodeAll(RecordCmds(rs[n], clock(n)))
  {
    assert rs[..n + 1][..n] == rs[..n];
    EncodeAllConcat(SnapshotCmds(rs[..n], clock), RecordCmds(rs[n], clock(n)));
    Concat4(out, SnapshotBytes(rs[..n], clock), EncodeAll(RecordCmds(rs[n], clock(n))), []);
  }

  // ------------------------------------------------------------------ how those commands are understood

  lemma PlanOfBulkCmd(name: bytes, args: seq<bytes>)
    ensures PlanOf(BulkCmd(name, args)) == PlanFor(NameOf(Upper(name)), args)
  {
    var c := BulkCmd(name, args);
    assert c.elems[1..] == Bulks(args);
    assert BulkArgs(c.elems[1..]) == args;
  }

  lemma {:induction false} PairsInterleave(fields: seq<bytes>, values: seq<bytes>)
    requires |fields| == |values|
    ensures Pairs(Interleave(fields, values)) == Zip(fields, values)
  {
    if fields != [] {
      assert Interleave(fields, values)[2..] == Interleave(fields[1..], values[1..]);
      PairsInterleave(fields[1..], values[1..]);
    }
  }

  /** The operation that a record's value command carries out. */
  function ValueOp(p: Payload): Op
    requires Paired(p)
  {
    match p
    case StrRecord(s) => Op.Set(s)
    case ListRecord(l) => Op.RPush(l)
    case HashRecord(fs, vs) => Op.HSet(Zip(fs, vs))
    case SetRecord(ms) => Op.SAdd(ms)
  }

  lemma VariadicPlan(name: bytes, key: bytes, rest: seq<bytes>)
    ensures PlanOf(BulkCmd(name, [key] + rest)) == PlanFor(NameOf(Upper(name)), [key] + rest)
    ensures ([key] + rest)[1..] == rest
  {
    PlanOfBulkCmd(name, [key] + rest);
  }

  lemma SetPlan(key: bytes, v: bytes)
    ensures PlanOf(BulkCmd(Ascii("SET"), [key, v])) == On([key], Op.Set(v))
  {
    PlanOfBulkCmd(Ascii("SET"), [key, v]);
    NamesOfWrites();
  }

  lemma RPushPlan(key: bytes, vs: seq<bytes>)
    requires vs != []
    ensures PlanOf(BulkCmd(Ascii("RPUSH"), [key] + vs)) == On([key], Op.RPush(vs))
  {
    VariadicPlan(Ascii("RPUSH"), key, vs);
    NamesOfWrites();
  }

  lemma SAddPlan(key: bytes, ms: seq<bytes>)
    requires ms != []
    ensures PlanOf(BulkCmd(Ascii("SADD"), [key] + ms)) == On([key], Op.SAdd(ms))
  {
    VariadicPlan(Ascii("SADD"), key, ms);
    NamesOfWrites();
  }

  lemma HSetPlan(key: bytes, fs: seq<bytes>, vs: seq<bytes>)
    requires fs != [] && |fs| == |vs|
    ensures PlanOf(BulkCmd(Ascii("HSET"), [key] + Interleave(fs, vs))) == On([key], Op.HSet(Zip(fs, vs)))
  {
    VariadicPlan(Ascii("HSET"), key, Interleave(fs, vs));
    assert NameOf(Upper(Ascii("HSET"))) == HSET by { NamesOfWrites(); }
    PairsInterleave(fs, vs);
    HSetArity(key, Interleave(fs, vs), |fs|);
  }

  lemma HSetArity(key: bytes, rest: seq<bytes>, n: nat)
    requires |rest| == 2 * n && n > 0
    ensures PlanFor(HSET, [key] + rest) == On([key], Op.HSet(Pairs(rest)))
  {
    var args := [key] + rest;
    assert args[1..] == rest && |args| % 2 == 1;
  }

  lemma ValuePlan(r: Record)
    requires Paired(r.payload) && ValueCmd(r).Some?
    ensures PlanOf(ValueCmd(r).value) == On([r.key], ValueOp(r.payload))
  {
    match r.payload
    case StrRecord(s) => SetPlan(r.key, s);
    case ListRecord(l) => RPushPlan(r.key, l);
    case HashRecord(fs, vs) => HSetPlan(r.key, fs, vs);
    case SetRecord(ms) => SAddPlan(r.key, ms);
  }

  /** The deadline a replayed PEXPIRE sets, relative to the instant of replay. */
  function Restored(deadline: Time, now: Time): int64 {
    Wrap64(RemainingMs(deadline, now) * MILLISECOND)
  }

  lemma ExpirePlanOf(key: bytes, deadline: Time, now: Time)
    ensures PlanOf(ExpireCmd(key, deadline, now)) == On([key], Op.Expire(Restored(deadline, now)))
  {
    NamesOfWrites();
    var ms := RemainingMs(deadline, now);
    ParseFormat(ms);
    PlanOfBulkCmd(Ascii("PEXPIRE"), [key, FormatInt(ms)]);
  }

  /**
   A TTL survives compaction: written, parsed and applied again it never deletes the
   key, and a deadline still ahead is restored to strictly within a millisecond.
   */
  lemma RestoredWithinAMillisecond(deadline: Time, now: Time)
    ensures Restored(deadline, now) > 0
    ensures 0 < deadline - now <= MAX_INT64 ==>
              deadline - now - MILLISECOND < Restored(deadline, now) < deadline - now + MILLISECOND
  {
  }

  // ------------------------------------------------------------------ replaying a snapshot

  function RecordShape(r: Record): Shape
    requires Paired(r.payload)
  {
    Shape(DataOf(r.payload), r.expireAt.Some?)
  }

  function RecordsImage(rs: seq<Record>): Image
    requires AllPaired(rs)
  {
    if rs == [] then map[]
    else RecordsImage(rs[..|rs| - 1])[rs[|rs| - 1].key := RecordShape(rs[|rs| - 1])]
  }

  predicate AllRecordsFilled(rs: seq<Record>)
    requires AllPaired(rs)
  {
    forall i :: 0 <= i < |rs| ==> Filled(DataOf(rs[i].payload))
  }

  lemma UntimedOne(img: Image, req: Value, k: bytes, op: Op)
    requires PlanOf(req) == On([k], op)
    ensures UntimedDispatch(img, req) == Put(img, k, Untimed(op, Lookup(img, k)))
  {
    assert [k][..0] == [];
    assert UntimedAll(img, [k], op) == Put(UntimedAll(img, [k][..0], op), k, Untimed(op, Lookup(UntimedAll(img, [k][..0], op), k)));
  }

  lemma ValueRebuilds(p: Payload)
    requires Paired(p)
    ensures Untimed(ValueOp(p), None) == Some(Shape(DataOf(p), false))
  {
  }

  lemma ExpireRebuilds(img: Image, key: bytes, deadline: Time, now: Time)
    requires key in img
    ensures UntimedDispatch(img, ExpireCmd(key, deadline, now)) == img[key := img[key].(ttl := true)]
  {
    ExpirePlanOf(key, deadline, now);
    RestoredWithinAMillisecond(deadline, now);
    TimeMarked(img, ExpireCmd(key, deadline, now), key, Restored(deadline, now));
  }

  lemma TimeMarked(img: Image, req: Value, key: bytes, d: int64)
    requires PlanOf(req) == On([key], Op.Expire(d)) && d > 0 && key in img
    ensures UntimedDispatch(img, req) == img[key := img[key].(ttl := true)]
  {
    UntimedOne(img, req, key, Op.Expire(d));
    MarkedShape(img[key], d);
  }

  lemma MarkedShape(sh: Shape, d: int64)
    requires d > 0
    ensures Untimed(Op.Expire(d), Some(sh)) == Some(sh.(ttl := true))
  {
  }

  lemma ValueCmdRebuilds(img: Image, r: Record)
    requires Paired(r.payload) && ValueCmd(r).Some? && r.key !in img
    ensures UntimedDispatch(img, ValueCmd(r).value) == img[r.key := Shape(DataOf(r.payload), false)]
  {
    ValuePlan(r);
    ValueRebuilds(r.payload);
    UntimedOne(img, ValueCmd(r).value, r.key, ValueOp(r.payload));
  }

  lemma UntimedRunTwo(img: Image, a: Value, b: Value)
    ensures UntimedRun(img, [a, b]) == UntimedDispatch(UntimedDispatch(img, a), b)
  {
    assert [a, b][..1] == [a];
    UntimedRunOne(img, a);
  }

  /** One record's commands, run where its key is absent, put back its value and its TTL flag and touch nothing else. */
  lemma RecordRebuilds(img: Image, r: Record, now: Time)
    requires Paired(r.payload) && Filled(DataOf(r.payload)) && r.key !in img
    ensures UntimedRun(img, RecordCmds(r, now)) == img[r.key := RecordShape(r)]
  {
    FilledHasCmd(r);
    var c := ValueCmd(r).value;
    ValueCmdRebuilds(img, r);
    if r.expireAt == None {
      UntimedRunOne(img, c);
    } else {
      var mid := img[r.key := Shape(DataOf(r.payload), false)];
      UntimedRunTwo(img, c, ExpireCmd(r.key, r.expireAt.value, now));
      ExpireRebuilds(mid, r.key, r.expireAt.value, now);
      PutTwice(img, r.key, Shape(DataOf(r.payload), false), RecordShape(r));
    }
  }

  lemma PutTwice(img: Image, k: bytes, a: Shape, b: Shape)
    ensures img[k := a][k := b] == img[k := b]
  {
  }

  lemma FilledHasCmd(r: Record)
    requires Paired(r.payload) && Filled(DataOf(r.payload))
    ensures ValueCmd(r).Some?
  {
    match r.payload
    case HashRecord(fs, vs) => assert Zip(fs, vs) != [];
    case _ =>
  }

  lemma {:induction false} RecordsImageKeys(rs: seq<Record>, k: bytes)
    requires AllPaired(rs)
    ensures k in RecordsImage(rs) <==> k in KeysOf(rs)
  {
    if rs != [] {
      var front, r := rs[..|rs| - 1], rs[|rs| - 1];
      RecordsImageKeys(front, k);
      KeysOfSnoc(front, r);
      assert front + [r] == rs;
    }
  }

  /**
   Compaction preserves meaning, whatever order shards, fields and members came in:
   a snapshot's commands, replayed from an empty store, rebuild exactly its records.
   */
  lemma {:induction false} SnapshotRebuilds(rs: seq<Record>, clock: nat -> Time)
    requires AllPaired(rs) && AllRecordsFilled(rs) && Distinct(rs)
    ensures UntimedRun(map[], SnapshotCmds(rs, clock)) == RecordsImage(rs)
  {
    if rs != [] {
      var n := |rs| - 1;
      var front := rs[..n];
      SnapshotRebuilds(front, clock);
      RecordsImageKeys(front, rs[n].key);
      UntimedRunConcat(map[], SnapshotCmds(front, clock), RecordCmds(rs[n], clock(n)));
      RecordRebuilds(RecordsImage(front), rs[n], clock(n));
    }
  }

  // ------------------------------------------------------------------ the same replay against a clock

  /** The store a replay at instants replay builds: each TTL counts from the instant its own PEXPIRE is replayed. */
  function Rebuilt(rs: seq<Record>, clock: nat -> Time, replay: nat -> Time): Keyspace
    requires AllPaired(rs)
  {
    if rs == [] then map[]
    else
      var n := |rs| - 1;
      Rebuilt(rs[..n], clock, replay)[rs[n].key := RebuiltEntry(rs[n], clock(n), replay(LastCmd(rs, clock)))]
  }

  function RebuiltEntry(r: Record, written: Time, replayed: Time): Entry
    requires Paired(r.payload)
  {
    Entry(DataOf(r.payload), if r.expireAt == None then None else Some(replayed + Restored(r.expireAt.value, written)))
  }

  /** The position of the last record's last command. */
  function LastCmd(rs: seq<Record>, clock: nat -> Time): nat
    requires AllPaired(rs)
  {
    var n := |SnapshotPlans(rs, clock)|;
    if n == 0 then 0 else n - 1
  }

  /** What the dispatcher makes of a record's commands. */
  function RecordPlans(r: Record, now: Time): seq<Plan>
    requires Paired(r.payload)
  {
    var value := On([r.key], ValueOp(r.payload));
    if ValueCmd(r) == None then []
    else if r.expireAt == None then [value]
    else [value, On([r.key], Op.Expire(Restored(r.expireAt.value, now)))]
  }

  function SnapshotPlans(rs: seq<Record>, clock: nat -> Time): seq<Plan>
    requires AllPaired(rs)
  {
    if rs == [] then []
    else
      var n := |rs| - 1;
      SnapshotPlans(rs[..n], clock) + RecordPlans(rs[n], clock(n))
  }

  lemma RecordPlansOf(r: Record, now: Time)
    requires Paired(r.payload)
    ensures Plans(RecordCmds(r, now)) == RecordPlans(r, now)
  {
    if ValueCmd(r).Some? {
      ValuePlan(r);
      if r.expireAt.Some? {
        ExpirePlanOf(r.key, r.expireAt.value, now);
      }
    }
  }

  lemma {:induction false} SnapshotPlansOf(rs: seq<Record>, clock: nat -> Time)
    requires AllPaired(rs)
    ensures Plans(SnapshotCmds(rs, clock)) == SnapshotPlans(rs, clock)
  {
    if rs != [] {
      var n := |rs| - 1;
      SnapshotPlansOf(rs[..n], clock);
      RecordPlansOf(rs[n], clock(n));
      PlansConcat(SnapshotCmds(rs[..n], clock), RecordCmds(rs[n], clock(n)));
    }
  }

  lemma PlansConcat(a: seq<Value>, b: seq<Value>)
    ensures Plans(a + b) == Plans(a) + Plans(b)
  {
    forall i | 0 <= i < |a + b|
      ensures Plans(a + b)[i] == (Plans(a) + Plans(b))[i]
    {
      assert (a + b)[i] == if i < |a| then a[i] else b[i - |a|];
    }
  }

  lemma ValueReplays(p: Payload, now: Time)
    requires Paired(p)
    ensures Run(ValueOp(p), None, now).0 == Some(Entry(DataOf(p), None))
  {
  }

  lemma ValueCarried(ks: Keyspace, k: bytes, p: Payload, now: Time)
    requires Paired(p) && k !in ks
    ensures Carry(ks, On([k], ValueOp(p)), now).0 == ks[k := Entry(DataOf(p), None)]
  {
    ActAllOne(ks, k, ValueOp(p), now);
    ValueReplays(p, now);
  }

  lemma ExpireCarried(ks: Keyspace, k: bytes, data: Data, d: int64, now: Time)
    requires d > 0
    ensures Carry(ks[k := Entry(data, None)], On([k], Op.Expire(d)), now).0 == ks[k := Entry(data, Some(now + d))]
  {
    var mid := ks[k := Entry(data, None)];
    ActAllOne(mid, k, Op.Expire(d), now);
    MapsEqual(Act(mid, k, Op.Expire(d), now).0, ks[k := Entry(data, Some(now + d))]);
  }

  lemma CarryTwo(before: seq<Plan>, a: Plan, b: Plan, replay: nat -> Time)
    ensures CarryAll(map[], before + [a, b], replay) ==
            Carry(Carry(CarryAll(map[], before, replay), a, replay(|before|)).0, b, replay(|before| + 1)).0
  {
    PairSnoc(before, a, b);
    CarryAllSnoc(map[], before, a, replay);
    CarryAllSnoc(map[], before + [a], b, replay);
  }

  lemma PairSnoc(before: seq<Plan>, a: Plan, b: Plan)
    ensures before + [a, b] == (before + [a]) + [b]
  {
  }

  lemma PairCarried(ks: Keyspace, k: bytes, p: Payload, d: int64, now: Time, then': Time)
    requires k !in ks && Paired(p) && d > 0
    ensures Carry(Carry(ks, On([k], ValueOp(p)), now).0, On([k], Op.Expire(d)), then').0 == ks[k := Entry(DataOf(p), Some(then' + d))]
  {
    ValueCarried(ks, k, p, now);
    ExpireCarried(ks, k, DataOf(p), d, then');
  }

  /** One record's commands, replayed behind others that did not touch its key. */
  lemma RecordReplays(before: seq<Plan>, ks: Keyspace, r: Record, written: Time, replay: nat -> Time)
    requires Paired(r.payload) && Filled(DataOf(r.payload)) && CarryAll(map[], before, replay) == ks && r.key !in ks
    ensures var all := before + RecordPlans(r, written);
            |all| > 0 && CarryAll(map[], all, replay) == ks[r.key := RebuiltEntry(r, written, replay(|all| - 1))]
  {
    FilledHasCmd(r);
    if r.expireAt == None {
      CarryAllSnoc(map[], before, On([r.key], ValueOp(r.payload)), replay);
      ValueCarried(ks, r.key, r.payload, replay(|before|));
    } else {
      var d := Restored(r.expireAt.value, written);
      RestoredWithinAMillisecond(r.expireAt.value, written);
      CarryTwo(before, On([r.key], ValueOp(r.payload)), On([r.key], Op.Expire(d)), replay);
      PairCarried(ks, r.key, r.payload, d, replay(|before|), replay(|before| + 1));
    }
  }

  lemma {:induction false} PlansReplay(rs: seq<Record>, clock: nat -> Time, replay: nat -> Time)
    requires AllPaired(rs) && AllRecordsFilled(rs) && Distinct(rs)
    ensures CarryAll(map[], SnapshotPlans(rs, clock), replay) == Rebuilt(rs, clock, replay)
  {
    if rs != [] {
      LastIsNew(rs);
      PlansReplay(rs[..|rs| - 1], clock, replay);
      RebuiltKeys(rs[..|rs| - 1], clock, replay, rs[|rs| - 1].key);
      LastReplays(rs, clock, replay);
    }
  }

  lemma LastIsNew(rs: seq<Record>)
    requires rs != [] && AllPaired(rs) && AllRecordsFilled(rs) && Distinct(rs)
    ensures var front := rs[..|rs| - 1];
            && AllPaired(front) && AllRecordsFilled(front) && Distinct(front)
            && rs[|rs| - 1].key !in KeysOf(front) && Filled(DataOf(rs[|rs| - 1].payload))
  {
  }

  lemma LastReplays(rs: seq<Record>, clock: nat -> Time, replay: nat -> Time)
    requires rs != [] && AllPaired(rs) && Filled(DataOf(rs[|rs| - 1].payload))
    requires CarryAll(map[], SnapshotPlans(rs[..|rs| - 1], clock), replay) == Rebuilt(rs[..|rs| - 1], clock, replay)
    requires rs[|rs| - 1].key !in Rebuilt(rs[..|rs| - 1], clock, replay)
    ensures CarryAll(map[], SnapshotPlans(rs, clock), replay) == Rebuilt(rs, clock, replay)
  {
    var n := |rs| - 1;
    RecordReplays(SnapshotPlans(rs[..n], clock), Rebuilt(rs[..n], clock, replay), rs[n], clock(n), replay);
  }

  /**
   Compaction preserves meaning at any speed. However slowly the snapshot's commands
   are replayed, every value comes back, and every TTL within a millisecond of what
   was left of it when it was written, counted from the replay of its own PEXPIRE.
   */
  lemma SnapshotReplays(rs: seq<Record>, clock: nat -> Time, replay: nat -> Time)
    requires AllPaired(rs) && AllRecordsFilled(rs) && Distinct(rs)
    ensures RunAt(map[], SnapshotCmds(rs, clock), replay) == Rebuilt(rs, clock, replay)
  {
    RunAtPlans(map[], SnapshotCmds(rs, clock), replay);
    SnapshotPlansOf(rs, clock);
    PlansReplay(rs, clock, replay);
  }

  lemma RebuiltKeys(rs: seq<Record>, clock: nat -> Time, replay: nat -> Time, k: bytes)
    requires AllPaired(rs)
    ensures k in Rebuilt(rs, clock, replay) <==> k in KeysOf(rs)
  {
    RebuiltShapes(rs, clock, replay, k);
    RecordsImageKeys(rs, k);
  }

  /** The rebuilt store has the records' values and TTL flags. */
  lemma {:induction false} RebuiltShapes(rs: seq<Record>, clock: nat -> Time, replay: nat -> Time, k: bytes)
    requires AllPaired(rs)
    ensures ShapeOf(Lookup(Rebuilt(rs, clock, replay), k)) == Lookup(RecordsImage(rs), k)
  {
    if rs != [] {
      RebuiltShapes(rs[..|rs| - 1], clock, replay, k);
    }
  }

  /** The image of a set of copies, key by key. */
  lemma {:induction false} RecordsImageAt(rs: seq<Record>, ks: Keyspace, k: bytes)
    requires AllPaired(rs) && AllCopies(rs, ks)
    ensures Lookup(RecordsImage(rs), k) == if k in KeysOf(rs) then ShapeOf(Lookup(ks, k)) else None
  {
    if rs != [] {
      var front, r := rs[..|rs| - 1], rs[|rs| - 1];
      RecordsImageAt(front, ks, k);
      KeysOfSnoc(front, r);
      assert front + [r] == rs;
    }
  }

  lemma {:induction false} RecordsImageConcat(a: seq<Record>, b: seq<Record>, k: bytes)
    requires AllPaired(a) && AllPaired(b)
    ensures AllPaired(a + b)
    ensures Lookup(RecordsImage(a + b), k) ==
            if k in KeysOf(b) then Lookup(RecordsImage(b), k) else Lookup(RecordsImage(a), k)
  {
    if b == [] {
      assert a + b == a && KeysOf(b) == {};
    } else {
      var front, r := b[..|b| - 1], b[|b| - 1];
      assert (a + b)[..|a + b| - 1] == a + front && (a + b)[|a + b| - 1] == r;
      RecordsImageConcat(a, front, k);
      KeysOfSnoc(front, r);
      assert front + [r] == b;
    }
  }

  // ------------------------------------------------------------------ the commands can be read back

  predicate FitsAll(parts: seq<bytes>) {
    |parts| < MAX_INT64 && forall i :: 0 <= i < |parts| ==> |parts[i]| <= MAX_INT64
  }

  /** The record's slices have lengths a Go int can hold. */
  predicate Fits(r: Record)
    requires Paired(r.payload)
  {
    match r.payload
    case StrRecord(s) => FitsAll([r.key, s])
    case ListRecord(l) => FitsAll([r.key] + l)
    case HashRecord(fs, vs) => FitsAll([r.key] + Interleave(fs, vs))
    case SetRecord(ms) => FitsAll([r.key] + ms)
  }

  predicate AllFit(rs: seq<Record>)
    requires AllPaired(rs)
  {
    forall i :: 0 <= i < |rs| ==> Fits(rs[i])
  }

  lemma BulkCmdWellFormed(name: bytes, args: seq<bytes>)
    requires |name| <= MAX_INT64 && FitsAll(args)
    ensures WellFormed(BulkCmd(name, args))
  {
    var c := BulkCmd(name, args);
    forall i | 0 <= i < |c.elems|
      ensures WellFormed(c.elems[i])
    {
      assert i > 0 ==> c.elems[i] == Bulk(args[i - 1]);
    }
  }

  lemma {:induction false} FormatLength(n: nat)
    ensures |FormatNat(n)| <= n + 1
  {
    if n >= 10 {
      FormatLength(n / 10);
    }
  }

  lemma ExpireCmdWellFormed(key: bytes, deadline: Time, now: Time)
    requires |key| <= MAX_INT64
    ensures WellFormed(ExpireCmd(key, deadline, now))
  {
    var ms: int := RemainingMs(deadline, now);
    assert ms < MAX_INT64;
    FormatLength(ms);
    BulkCmdWellFormed(Ascii("PEXPIRE"), [key, FormatInt(ms)]);
  }

  lemma RecordCmdsWellFormed(r: Record, now: Time)
    requires Paired(r.payload) && Fits(r)
    ensures AllWellFormed(RecordCmds(r, now))
  {
    match r.payload {
      case StrRecord(s) =>
        BulkCmdWellFormed(Ascii("SET"), [r.key, s]);
        assert [r.key, s][0] == r.key;
      case ListRecord(l) =>
        BulkCmdWellFormed(Ascii("RPUSH"), [r.key] + l);
        assert ([r.key] + l)[0] == r.key;
      case HashRecord(fs, vs) =>
        BulkCmdWellFormed(Ascii("HSET"), [r.key] + Interleave(fs, vs));
        assert ([r.key] + Interleave(fs, vs))[0] == r.key;
      case SetRecord(ms) =>
        BulkCmdWellFormed(Ascii("SADD"), [r.key] + ms);
        assert ([r.key] + ms)[0] == r.key;
    }
    if r.expireAt != None {
      ExpireCmdWellFormed(r.key, r.expireAt.value, now);
    }
  }

  lemma {:induction false} SnapshotCmdsWellFormed(rs: seq<Record>, clock: nat -> Time)
    requires AllPaired(rs) && AllFit(rs)
    ensures AllWellFormed(SnapshotCmds(rs, clock))
  {
    if rs != [] {
      var n := |rs| - 1;
      SnapshotCmdsWellFormed(rs[..n], clock);
      RecordCmdsWellFormed(rs[n], clock(n));
    }
  }
}
