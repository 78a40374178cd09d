/**
 Expiry is never logged, so a log replayed on another schedule than it was written
 on can rebuild another keyspace once a deadline has passed.
 */
module ExpiryGap {
  import opened Bytes
  import opened Resp
  import opened Keyspace
  import opened Commands
  import opened Images
  import opened Rewrite

  /**
   The running server SETs and PEXPIREs a key, lets the deadline pass and RPUSHes to
   it: the key is a fresh list. The same three commands replayed at once leave the old
   string, because the RPUSH now meets the wrong type.
   */
  lemma ExpiryIsNotLogged(k: bytes, v: bytes, x: bytes)
    ensures var log := [BulkCmd(Ascii("SET"), [k, v]), BulkCmd(Ascii("PEXPIRE"), [k, FormatInt(1)]), BulkCmd(Ascii("RPUSH"), [k, x])];
            var live := (i: nat) => if i < 2 then 0 else MILLISECOND;
            var replay := (_: nat) => 0;
            && Lookup(RunAt(map[], log, live), k) == Some(Entry(ListData([x]), None))
            && Lookup(RunAt(map[], log, replay), k) == Some(Entry(StrData(v), Some(MILLISECOND)))
  {
    var set', expire, push := BulkCmd(Ascii("SET"), [k, v]), BulkCmd(Ascii("PEXPIRE"), [k, FormatInt(1)]), BulkCmd(Ascii("RPUSH"), [k, x]);
    SetPlan(k, v);
    assert [k, x] == [k] + [x];
    RPushPlan(k, [x]);
    OneMillisecond(k);
    var live := (i: nat) => if i < 2 then 0 else MILLISECOND;
    var replay := (_: nat) => 0;
    RunThree(set', expire, push, k, Op.Set(v), Op.Expire(MILLISECOND), Op.RPush([x]), live);
    RunThree(set', expire, push, k, Op.Set(v), Op.Expire(MILLISECOND), Op.RPush([x]), replay);
    PushAround(v, x);
  }

  lemma OneMillisecond(k: bytes)
    ensures PlanOf(BulkCmd(Ascii("PEXPIRE"), [k, FormatInt(1)])) == On([k], Op.Expire(MILLISECOND))
  {
    ExpirePlanOf(k, MILLISECOND, 0);
    assert BulkCmd(Ascii("PEXPIRE"), [k, FormatInt(1)]) == ExpireCmd(k, MILLISECOND, 0);
  }

  lemma PushAround(v: bytes, x: bytes)
    ensures var timed := Step(Op.Expire(MILLISECOND), Step(Op.Set(v), None, 0).0, 0).0;
            && Step(Op.RPush([x]), timed, MILLISECOND).0 == Some(Entry(ListData([x]), None))
            && Step(Op.RPush([x]), timed, 0).0 == Some(Entry(StrData(v), Some(MILLISECOND)))
  {
  }

  /**
   The other way round: the running server gives a key a millisecond and PERSISTs it at
   once, and no deadline is ever reached. A replay that takes a millisecond between
   those two commands loses the key, although nothing is wrong with the log. Exactly
   when a replay stays on track is Images.ReplayOnTrackIff.
   */
  lemma SlowReplayLoses(k: bytes, v: bytes)
    ensures var log := [BulkCmd(Ascii("SET"), [k, v]), BulkCmd(Ascii("PEXPIRE"), [k, FormatInt(1)]), BulkCmd(Ascii("PERSIST"), [k])];
            var live := (_: nat) => 0;
            var slow := (i: nat) => if i < 2 then 0 else MILLISECOND;
            && (forall t :: ViewAt(RunAt(map[], log, live), t, k) == Some(Shape(StrData(v), false)))
            && Lookup(RunAt(map[], log, slow), k) == None
  {
    var set', expire, persist := BulkCmd(Ascii("SET"), [k, v]), BulkCmd(Ascii("PEXPIRE"), [k, FormatInt(1)]), BulkCmd(Ascii("PERSIST"), [k]);
    SetPlan(k, v);
    OneMillisecond(k);
    PersistPlan(k);
    var live := (_: nat) => 0;
    var slow := (i: nat) => if i < 2 then 0 else MILLISECOND;
    RunThree(set', expire, persist, k, Op.Set(v), Op.Expire(MILLISECOND), Op.Persist, live);
    RunThree(set', expire, persist, k, Op.Set(v), Op.Expire(MILLISECOND), Op.Persist, slow);
    PersistAround(v);
  }

  lemma PersistPlan(k: bytes)
    ensures PlanOf(BulkCmd(Ascii("PERSIST"), [k])) == On([k], Op.Persist)
  {
    PlanOfBulkCmd(Ascii("PERSIST"), [k]);
    NameOfPersist();
  }

  lemma PersistAround(v: bytes)
    ensures var timed := Step(Op.Expire(MILLISECOND), Step(Op.Set(v), None, 0).0, 0).0;
            && Step(Op.Persist, timed, 0).0 == Some(Entry(StrData(v), None))
            && Step(Op.Persist, timed, MILLISECOND).0 == None
  {
  }

  /** Three requests on one key, run at their own instants. */
  lemma RunThree(a: Value, b: Value, c: Value, k: bytes, x: Op, y: Op, z: Op, clock: nat -> Time)
    requires PlanOf(a) == On([k], x) && PlanOf(b) == On([k], y) && PlanOf(c) == On([k], z)
    ensures Lookup(RunAt(map[], [a, b, c], clock), k) == Step(z, Step(y, Step(x, None, clock(0)).0, clock(1)).0, clock(2)).0
  {
    RunAtPlans(map[], [a, b, c], clock);
    PlansOfThree(a, b, c);
    CarryThree(k, x, y, z, clock);
  }

  lemma PlansOfThree(a: Value, b: Value, c: Value)
    ensures Plans([a, b, c]) == [PlanOf(a), PlanOf(b), PlanOf(c)]
  {
  }

  lemma CarryThree(k: bytes, x: Op, y: Op, z: Op, clock: nat -> Time)
    ensures Lookup(CarryAll(map[], [On([k], x), On([k], y), On([k], z)], clock), k) ==
            Step(z, Step(y, Step(x, None, clock(0)).0, clock(1)).0, clock(2)).0
  {
    var two := [On([k], x), On([k], y)];
    CarryTwo(k, x, y, clock);
    CarrySnoc(two, k, z, clock);
    assert two + [On([k], z)] == [On([k], x), On([k], y), On([k], z)];
  }

  lemma CarryTwo(k: bytes, x: Op, y: Op, clock: nat -> Time)
    ensures Lookup(CarryAll(map[], [On([k], x), On([k], y)], clock), k) == Step(y, Step(x, None, clock(0)).0, clock(1)).0
  {
    var one := [On([k], x)];
    CarrySnoc([], k, x, clock);
    CarrySnoc(one, k, y, clock);
    assert [] + one == one && one + [On([k], y)] == [On([k], x), On([k], y)];
  }

  lemma CarrySnoc(ps: seq<Plan>, k: bytes, op: Op, clock: nat -> Time)
    ensures Lookup(CarryAll(map[], ps + [On([k], op)], clock), k) ==
            Step(op, Lookup(CarryAll(map[], ps, clock), k), clock(|ps|)).0
  {
    CarryAllSnoc(map[], ps, On([k], op), clock);
    ActAllOne(CarryAll(map[], ps, clock), k, op, clock(|ps|));
  }
}
