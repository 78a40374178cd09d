/**
 From a decoded request to what it does: name lookup, arity checks and argument
 parsing (a Plan), then the plan carried out on the flat keyspace.
 */
module Commands {
  import opened Bytes
  import opened Resp
  import opened Keyspace

  datatype Name =
    | PING | ECHO | SET | GET | DEL | EXISTS
    | LPUSH | RPUSH | LPOP | RPOP | LRANGE | LLEN
    | HSET | HGET | HDEL | HGETALL | HKEYS | HVALS | HLEN
    | SADD | SREM | SISMEMBER | SMEMBERS | SCARD
    | EXPIRE | PEXPIRE | TTL | PTTL | PERSIST
    | PUBLISH | UNKNOWN

  /** strings.ToUpper on ASCII. */
  function Upper(s: bytes): bytes {
    seq(|s|, i requires 0 <= i < |s| => if 97 <= s[i] <= 122 then s[i] - 32 else s[i])
  }

  /** The keys of the dispatch table; expects an upper-cased name. */
  function NameOf(s: bytes): Name {
    if s == Ascii("SET") then SET
    else if s == Ascii("RPUSH") then RPUSH
    else if s == Ascii("HSET") then HSET
    else if s == Ascii("SADD") then SADD
    else if s == Ascii("PEXPIRE") then PEXPIRE
    else if s == Ascii("PING") then PING
    else if s == Ascii("ECHO") then ECHO
    else if s == Ascii("GET") then GET
    else if s == Ascii("DEL") then DEL
    else if s == Ascii("EXISTS") then EXISTS
    else if s == Ascii("LPUSH") then LPUSH
    else if s == Ascii("LPOP") then LPOP
    else if s == Ascii("RPOP") then RPOP
    else if s == Ascii("LRANGE") then LRANGE
    else if s == Ascii("LLEN") then LLEN
    else if s == Ascii("HGET") then HGET
    else if s == Ascii("HDEL") then HDEL
    else if s == Ascii("HGETALL") then HGETALL
    else if s == Ascii("HKEYS") then HKEYS
    else if s == Ascii("HVALS") then HVALS
    else if s == Ascii("HLEN") then HLEN
    else if s == Ascii("SREM") then SREM
    else if s == Ascii("SISMEMBER") then SISMEMBER
    else if s == Ascii("SMEMBERS") then SMEMBERS
    else if s == Ascii("SCARD") then SCARD
    else if s == Ascii("EXPIRE") then EXPIRE
    else if s == Ascii("TTL") then TTL
    else if s == Ascii("PTTL") then PTTL
    else if s == Ascii("PERSIST") then PERSIST
    else if s == Ascii("PUBLISH") then PUBLISH
    else UNKNOWN
  }

  lemma NamesOfWrites()
    ensures NameOf(Upper(Ascii("SET"))) == SET
    ensures NameOf(Upper(Ascii("RPUSH"))) == RPUSH
    ensures NameOf(Upper(Ascii("HSET"))) == HSET
    ensures NameOf(Upper(Ascii("SADD"))) == SADD
    ensures NameOf(Upper(Ascii("PEXPIRE"))) == PEXPIRE
    ensures NameOf(Upper(Ascii("PING"))) == PING
  {
    forall w | w in {"SET", "RPUSH", "HSET", "SADD", "PEXPIRE", "PING"}
      ensures Upper(Ascii(w)) == Ascii(w)
    {
    }
    assert Ascii("SADD")[0] != Ascii("HSET")[0];
    assert Ascii("PING")[0] != Ascii("HSET")[0];
    assert Ascii("PING")[0] != Ascii("SADD")[0];
  }

  lemma NameOfPersist()
    ensures NameOf(Upper(Ascii("PERSIST"))) == PERSIST
  {
    assert Upper(Ascii("PERSIST")) == Ascii("PERSIST");
    assert Ascii("PERSIST")[0] != Ascii("HGETALL")[0];
    assert Ascii("PERSIST")[1] != Ascii("PUBLISH")[1];
    assert Ascii("PERSIST")[2] != Ascii("PEXPIRE")[2];
  }

  lemma NameOfPing()
    ensures NameOf(Ascii("PING")) == PING
  {
    NamesOfWrites();
    assert Upper(Ascii("PING")) == Ascii("PING");
  }

  /** Value.Bulk as a handler reads it: nil, and every other kind of frame, is the empty string. */
  function BulkOf(v: Value): bytes {
    if v.Bulk? then v.data else []
  }

  function BulkArgs(vs: seq<Value>): (args: seq<bytes>)
    ensures |args| == |vs|
  {
    seq(|vs|, i requires 0 <= i < |vs| => BulkOf(vs[i]))
  }

  /** commandName: the empty string when the request is not a non-empty array. */
  function CommandName(req: Value): bytes {
    if req.Array? && req.elems != [] then BulkOf(req.elems[0]) else []
  }

  function NameIn(req: Value): Name {
    NameOf(Upper(CommandName(req)))
  }

  /** The write table. */
  predicate IsWrite(n: Name) {
    n in {SET, DEL, LPUSH, RPUSH, LPOP, RPOP, HSET, HDEL, SADD, SREM, EXPIRE, PEXPIRE, PERSIST}
  }

  /** What a handler decides to do: refuse, answer without a key, or run an operation on its keys. */
  datatype Plan = Reject | Local | On(keys: seq<bytes>, op: Op)

  /** The flat field/value tail of HSET, paired up. */
  function Pairs(rest: seq<bytes>): (ps: seq<(bytes, bytes)>)
    ensures |ps| == |rest| / 2
    ensures forall i :: 0 <= i < |ps| ==> ps[i] == (rest[2 * i], rest[2 * i + 1])
  {
    if |rest| < 2 then [] else [(rest[0], rest[1])] + Pairs(rest[2..])
  }

  /** The pair-splitting loop of HSET. */
  method SplitPairs(rest: seq<bytes>) returns (fields: seq<bytes>, values: seq<bytes>)
    ensures |fields| == |values| == |rest| / 2
    ensures forall i :: 0 <= i < |fields| ==> Pairs(rest)[i] == (fields[i], values[i])
  {
    fields, values := [], [];
    var i := 0;
    while i + 1 < |rest|
      invariant i <= |rest| && i == 2 * |fields| && |values| == |fields|
      invariant forall j :: 0 <= j < |fields| ==> fields[j] == rest[2 * j] && values[j] == rest[2 * j + 1]
    {
      fields, values := fields + [rest[i]], values + [rest[i + 1]];
      i := i + 2;
    }
  }

  function One(args: seq<bytes>, arity: nat, op: Op): Plan
    requires arity > 0
  {
    if |args| == arity then On([args[0]], op) else Reject
  }

  const SECOND: Unit := 1_000_000_000
  const MILLISECOND: Unit := 1_000_000

  function ExpirePlan(args: seq<bytes>, unit: Unit): Plan {
    if |args| != 2 then Reject
    else
      match ParseInt(args[1])
      case None => Reject
      case Some(n) => On([args[0]], Op.Expire(Wrap64(n * unit)))
  }

  /**
   EXPIRE and PEXPIRE promise that a positive time keeps a live key. They do exactly
   when the time in nanoseconds, taken modulo 2^64 as Go's Duration takes it, is a
   positive int64, and give it the time that was asked for exactly when the product
   itself fits; the first whole second past 2^63-1 ns deletes the key.
   */
  lemma PositiveExpireKeepsIff(args: seq<bytes>, n: int64, unit: Unit, e: Entry, now: Time)
    requires |args| == 2 && ParseInt(args[1]) == Some(n) && n > 0 && !Expired(e, now)
    ensures var p := ExpirePlan(args, unit);
            && p.On? && p.keys == [args[0]]
            && (Run(p.op, Some(e), now).0.Some? <==> 0 < (n * unit) % 0x1_0000_0000_0000_0000 <= MAX_INT64)
            && (Run(p.op, Some(e), now).0 == Some(e.(expireAt := Some(now + n * unit))) <==> n * unit <= MAX_INT64)
            && (n == 9_223_372_037 && unit == SECOND ==> Run(p.op, Some(e), now).0 == None)
  {
    WrapSign(n * unit);
  }

  lemma WrapSign(x: int)
    ensures Wrap64(x) > 0 <==> 0 < x % 0x1_0000_0000_0000_0000 <= MAX_INT64
  {
  }

  function LRangePlan(args: seq<bytes>): Plan {
    if |args| != 3 then Reject
    else
      match (ParseInt(args[1]), ParseInt(args[2]))
      case (Some(start), Some(stop)) => On([args[0]], Op.LRange(start, stop))
      case _ => Reject
  }

  /** The handlers' argument checks. */
  function PlanFor(n: Name, args: seq<bytes>): (p: Plan)
    ensures p.On? ==> Sane(p.op) && p.keys != [] && (|p.keys| == 1 || p.op.Del? || p.op.Exists?)
    ensures p.On? ==> (Mutates(p.op) <==> IsWrite(n))
  {
    match n
    case PING => if |args| <= 1 then Local else Reject
    case ECHO => if |args| == 1 then Local else Reject
    case PUBLISH => if |args| == 2 then Local else Reject
    case UNKNOWN => Reject
    case SET => if |args| == 2 then On([args[0]], Op.Set(args[1])) else Reject
    case GET => One(args, 1, Op.Get)
    case DEL => if |args| < 1 then Reject else On(args, Op.Del)
    case EXISTS => if |args| < 1 then Reject else On(args, Op.Exists)
    case LPUSH => if |args| < 2 then Reject else On([args[0]], Op.LPush(args[1..]))
    case RPUSH => if |args| < 2 then Reject else On([args[0]], Op.RPush(args[1..]))
    case LPOP => One(args, 1, Op.LPop)
    case RPOP => One(args, 1, Op.RPop)
    case LLEN => One(args, 1, Op.LLen)
    case LRANGE => LRangePlan(args)
    case HSET => if |args| < 3 || |args| % 2 == 0 then Reject else On([args[0]], Op.HSet(Pairs(args[1..])))
    case HGET => if |args| == 2 then On([args[0]], Op.HGet(args[1])) else Reject
    case HDEL => if |args| < 2 then Reject else On([args[0]], Op.HDel(args[1..]))
    case HGETALL => One(args, 1, Op.HGetAll)
    case HKEYS => One(args, 1, Op.HKeys)
    case HVALS => One(args, 1, Op.HVals)
    case HLEN => One(args, 1, Op.HLen)
    case SADD => if |args| < 2 then Reject else On([args[0]], Op.SAdd(args[1..]))
    case SREM => if |args| < 2 then Reject else On([args[0]], Op.SRem(args[1..]))
    case SISMEMBER => if |args| == 2 then On([args[0]], Op.SIsMember(args[1])) else Reject
    case SMEMBERS => One(args, 1, Op.SMembers)
    case SCARD => One(args, 1, Op.SCard)
    case EXPIRE => ExpirePlan(args, SECOND)
    case PEXPIRE => ExpirePlan(args, MILLISECOND)
    case TTL => One(args, 1, Op.Ttl(SECOND))
    case PTTL => One(args, 1, Op.Ttl(MILLISECOND))
    case PERSIST => One(args, 1, Op.Persist)
  }

  function PlanOf(req: Value): (p: Plan)
    ensures p.On? ==> Sane(p.op) && p.keys != [] && (|p.keys| == 1 || p.op.Del? || p.op.Exists?)
    ensures p.On? ==> (Mutates(p.op) <==> IsWrite(NameIn(req)))
  {
    if !req.Array? || req.elems == [] then Reject
    else PlanFor(NameIn(req), BulkArgs(req.elems[1..]))
  }

  /** A reply: refused, answered without touching a key, or the outcome on the keys. */
  datatype Reply = Refused | Answered | Replied(outcome: Outcome)

  predicate Failed(r: Reply) {
    r.Refused? || (r.Replied? && r.outcome.WrongType?)
  }

  function Carry(ks: Keyspace, p: Plan, now: Time): (Keyspace, Reply) {
    match p
    case Reject => (ks, Refused)
    case Local => (ks, Answered)
    case On(keys, op) =>
      var (after, os) := ActAll(ks, keys, op, now);
      (after, Replied(Summary(os)))
  }

  function Dispatch(ks: Keyspace, req: Value, now: Time): (Keyspace, Reply) {
    Carry(ks, PlanOf(req), now)
  }

  /**
   Skipping the log is sound: a request outside the write table, and any request
   answered with an error, leaves every client's view of the keyspace as it was.
   */
  lemma UnloggedChangesNothing(ks: Keyspace, req: Value, now: Time)
    requires !IsWrite(NameIn(req)) || Failed(Dispatch(ks, req, now).1)
    ensures Live(Dispatch(ks, req, now).0, now) == Live(ks, now)
  {
    var p := PlanOf(req);
    if p.On? {
      if !Mutates(p.op) {
        ActAllReads(ks, p.keys, p.op, now);
      } else {
        FailedWriteChangesNothing(ks, p.keys, p.op, now);
      }
    }
  }

  lemma FailedWriteChangesNothing(ks: Keyspace, keys: seq<bytes>, op: Op, now: Time)
    requires keys != [] && Summary(ActAll(ks, keys, op, now).1).WrongType?
    ensures Live(ActAll(ks, keys, op, now).0, now) == Live(ks, now)
  {
    ActAllLength(ks, keys, op, now);
    ActAllOne(ks, keys[0], op, now);
    assert keys == [keys[0]];
    ActOnLive(ks, keys[0], op, now);
    LiveLookup(ks, keys[0], now);
    RunKeeps(op, Visible(Lookup(ks, keys[0]), now), now);
    MapsEqual(Act(Live(ks, now), keys[0], op, now).0, Live(ks, now));
  }

  /** No request, well formed or not, ever leaves an empty list, hash or set behind. */
  lemma DispatchFills(ks: Keyspace, req: Value, now: Time)
    requires AllFilled(ks)
    ensures AllFilled(Dispatch(ks, req, now).0)
  {
    var p := PlanOf(req);
    if p.On? {
      ActAllFills(ks, p.keys, p.op, now);
    }
  }
}
