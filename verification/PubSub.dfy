/**
 The pub/sub bus: the broker's registry of mailboxes, the connections' own channel
 sets, and the agreement between the two that every operation keeps.
 */
module PubSub {
  import opened Bytes
  import opened Keyspace
  import opened Replication

  datatype Message = Message(channel: bytes, payload: bytes)

  /** One connection's mailbox, bounded by the same 256 as a replica's queue, and what was written of it to the socket. */
  class Subscriber {
    var mailbox: seq<Message>
    var written: seq<Message>
    var closed: bool

    constructor ()
      ensures mailbox == [] && written == [] && !closed
    {
      mailbox, written, closed := [], [], false;
    }
  }

  predicate NoRepeats<T(==)>(l: seq<T>) {
    forall i, j :: 0 <= i < j < |l| ==> l[i] != l[j]
  }

  /** Removal in constant time: the last element fills the gap. */
  function SwapRemove<T(==)>(l: seq<T>, x: T): seq<T> {
    if x !in l then l else
      var i := Position(l, x);
      l[i := l[|l| - 1]][..|l| - 1]
  }

  function Position<T(==)>(l: seq<T>, x: T): (i: nat)
    requires x in l
    ensures i < |l| && l[i] == x && x !in l[..i]
  {
    if l[0] == x then 0
    else
      var i := 1 + Position(l[1..], x);
      assert l[..i] == [l[0]] + l[1..][..i - 1];
      i
  }

  lemma SwapRemoveSplit<T>(l: seq<T>, x: T) returns (a: seq<T>, b: seq<T>)
    requires x in l && Position(l, x) < |l| - 1
    ensures l == a + [x] + b + [l[|l| - 1]] && SwapRemove(l, x) == a + [l[|l| - 1]] + b
  {
    var i, n := Position(l, x), |l| - 1;
    a, b := l[..i], l[i + 1..n];
  }

  /** Swap-removal takes out one occurrence and keeps every other subscriber. */
  lemma SwapRemoveKeepsOthers<T>(l: seq<T>, x: T)
    ensures multiset(SwapRemove(l, x)) == multiset(l) - multiset{x}
  {
    if x in l {
      if Position(l, x) < |l| - 1 {
        var a, b := SwapRemoveSplit(l, x);
        SameBag(a, x, b, l[|l| - 1]);
      } else {
        assert l == SwapRemove(l, x) + [x];
      }
    }
  }

  lemma SameBag<T>(a: seq<T>, x: T, b: seq<T>, y: T)
    ensures multiset(a + [y] + b) == multiset(a + [x] + b + [y]) - multiset{x}
  {
  }

  function Elements<T>(l: seq<T>): set<T> {
    set x | x in l
  }

  lemma SwapRemoveAt<T>(l: seq<T>, x: T, j: nat)
    requires x in l && j < |l| - 1
    ensures SwapRemove(l, x)[j] == if j == Position(l, x) then l[|l| - 1] else l[j]
  {
  }

  lemma SwapRemoveDistinct<T>(l: seq<T>, x: T)
    requires NoRepeats(l)
    ensures NoRepeats(SwapRemove(l, x)) && x !in SwapRemove(l, x)
    ensures forall y :: y in SwapRemove(l, x) ==> y in l
    ensures forall y :: y in l && y != x ==> y in SwapRemove(l, x)
  {
    if x in l {
      var i, n, r := Position(l, x), |l| - 1, SwapRemove(l, x);
      forall j | 0 <= j < n
        ensures r[j] == if j == i then l[n] else l[j]
      {
        SwapRemoveAt(l, x, j);
      }
      forall y | y in l && y != x
        ensures y in r
      {
        var j :| 0 <= j < |l| && l[j] == y;
        assert r[if j == n then i else j] == y;
      }
      assert x !in r by {
        assert forall j :: 0 <= j < |l| && l[j] == x ==> j == i;
      }
    }
  }

  class Broker {
    var subs: map<bytes, seq<Subscriber>>

    ghost function Listeners(channel: bytes): seq<Subscriber>
      reads this
    {
      if channel in subs then subs[channel] else []
    }

    /** No channel is kept without a listener. */
    ghost predicate NoneEmpty()
      reads this
    {
      forall c :: c in subs ==> subs[c] != []
    }

    constructor ()
      ensures subs == map[]
    {
      subs := map[];
    }

    method Subscribe(channel: bytes, sub: Subscriber)
      requires NoneEmpty()
      modifies this
      ensures NoneEmpty() && Listeners(channel) == old(Listeners(channel)) + [sub]
      ensures forall c :: c != channel ==> Listeners(c) == old(Listeners(c))
    {
      var list := if channel in subs then subs[channel] else [];
      subs := subs[channel := list + [sub]];
    }

    method Unsubscribe(channel: bytes, sub: Subscriber)
      requires NoneEmpty()
      modifies this
      ensures NoneEmpty() && Listeners(channel) == SwapRemove(old(Listeners(channel)), sub)
      ensures forall c :: c != channel ==> Listeners(c) == old(Listeners(c))
    {
      if channel !in subs { return; }
      var list := subs[channel];
      var i := 0;
      while i < |list| && list[i] != sub
        invariant i <= |list| && sub !in list[..i]
      {
        i := i + 1;
      }
      if i == |list| { return; }
      FirstIsPosition(list, sub, i);
      var rest := list[i := list[|list| - 1]][..|list| - 1];
      subs := if rest == [] then subs - {channel} else subs[channel := rest];
    }

    /** Subscribe where the mailbox is not listed yet: the list gains it and stays without repeats. */
    method Join(channel: bytes, sub: Subscriber)
      requires NoneEmpty() && NoRepeats(Listeners(channel)) && sub !in Listeners(channel)
      modifies this
      ensures NoneEmpty() && NoRepeats(Listeners(channel))
      ensures forall s :: s in Listeners(channel) <==> s == sub || s in old(Listeners(channel))
      ensures forall c :: c != channel ==> Listeners(c) == old(Listeners(c))
    {
      Subscribe(channel, sub);
    }

    /** Unsubscribe from a list without repeats: the mailbox is gone and everyone else is still there. */
    method Leave(channel: bytes, sub: Subscriber)
      requires NoneEmpty() && NoRepeats(Listeners(channel))
      modifies this
      ensures NoneEmpty() && NoRepeats(Listeners(channel)) && sub !in Listeners(channel)
      ensures forall s :: s in Listeners(channel) ==> s in old(Listeners(channel))
      ensures forall s :: s in old(Listeners(channel)) && s != sub ==> s in Listeners(channel)
      ensures forall c :: c != channel ==> Listeners(c) == old(Listeners(c))
    {
      SwapRemoveDistinct(Listeners(channel), sub);
      Unsubscribe(channel, sub);
    }

    /**
     Non-blocking delivery: every listener is offered the message once for each time it
     is listed, and the count is the number of those offers that found room.
     */
    method Publish(channel: bytes, payload: bytes) returns (delivered: nat)
      requires forall s :: s in Listeners(channel) ==> !s.closed
      modifies Elements(Listeners(channel))`mailbox
      ensures var list := Listeners(channel);
              && (forall s :: s in list ==> s.mailbox == OfferTimes(old(s.mailbox), Message(channel, payload), Listed(list, |list|, s)))
              && delivered == Taken(list, |list|, old(Loads(list)))
    {
      var list := if channel in subs then subs[channel] else [];
      delivered := DeliverAll(list, Message(channel, payload), Loads(list));
    }

    /** Publish to a list without repeats: one offer each, and the count is the listeners that had room. */
    method PublishOnce(channel: bytes, payload: bytes) returns (delivered: nat)
      requires NoRepeats(Listeners(channel)) && forall s :: s in Listeners(channel) ==> !s.closed
      modifies Elements(Listeners(channel))`mailbox
      ensures forall s :: s in Listeners(channel) ==> s.mailbox == Offer(old(s.mailbox), Message(channel, payload))
      ensures delivered == |Roomy(Listeners(channel), old(Loads(Listeners(channel))))|
    {
      ghost var list, loads := Listeners(channel), Loads(Listeners(channel));
      TakenAll(list, loads);
      forall s | s in list
        ensures Listed(list, |list|, s) == 1
      {
        assert list[..|list|] == list;
        ListedOnce(list, |list|, s);
      }
      delivered := Publish(channel, payload);
      forall s | s in list
        ensures s.mailbox == Offer(old(s.mailbox), Message(channel, payload))
      {
        OfferOnce(old(s.mailbox), Message(channel, payload));
      }
    }
  }

  /** How full each listener's mailbox is. */
  ghost function Loads(l: seq<Subscriber>): map<Subscriber, nat>
    reads l
  {
    map s | s in l :: |s.mailbox|
  }

  /** How often x is among the first n of l. */
  function Listed<T(==)>(l: seq<T>, n: nat, x: T): nat
    requires n <= |l|
  {
    if n == 0 then 0 else Listed(l, n - 1, x) + if l[n - 1] == x then 1 else 0
  }

  function OfferTimes<T>(queue: seq<T>, x: T, n: nat): seq<T> {
    if n == 0 then queue else Offer(OfferTimes(queue, x, n - 1), x)
  }

  lemma OfferOnce<T>(queue: seq<T>, x: T)
    ensures OfferTimes(queue, x, 1) == Offer(queue, x)
  {
    assert OfferTimes(queue, x, 0) == queue;
  }

  lemma {:induction false} OfferTimesLength<T>(queue: seq<T>, x: T, n: nat)
    ensures |OfferTimes(queue, x, n)| < QUEUE_CAP <==> |queue| + n < QUEUE_CAP
    ensures |queue| + n <= QUEUE_CAP ==> |OfferTimes(queue, x, n)| == |queue| + n
  {
    if n > 0 {
      OfferTimesLength(queue, x, n - 1);
    }
  }

  /** How many of the offers to the first n of l find room, given how full each was before the first. */
  function Taken<T(==)>(l: seq<T>, n: nat, loads: map<T, nat>): nat
    requires n <= |l|
  {
    if n == 0 then 0 else Taken(l, n - 1, loads) + if HasRoom(l, n - 1, loads) then 1 else 0
  }

  predicate HasRoom<T(==)>(l: seq<T>, i: nat, loads: map<T, nat>)
    requires i < |l|
  {
    l[i] in loads && loads[l[i]] + Listed(l, i, l[i]) < QUEUE_CAP
  }

  lemma RoomLeft<T, U>(l: seq<T>, i: nat, loads: map<T, nat>, queue: seq<U>, x: U)
    requires i < |l| && l[i] in loads && loads[l[i]] == |queue|
    ensures |OfferTimes(queue, x, Listed(l, i, l[i]))| < QUEUE_CAP <==> HasRoom(l, i, loads)
  {
    OfferTimesLength(queue, x, Listed(l, i, l[i]));
  }

  method DeliverAll(list: seq<Subscriber>, msg: Message, ghost loads: map<Subscriber, nat>) returns (delivered: nat)
    requires forall s :: s in list ==> !s.closed && s in loads && loads[s] == |s.mailbox|
    modifies Elements(list)`mailbox
    ensures forall s :: s in list ==> s.mailbox == OfferTimes(old(s.mailbox), msg, Listed(list, |list|, s))
    ensures delivered == Taken(list, |list|, loads)
  {
    delivered := 0;
    for i := 0 to |list|
      invariant forall s :: s in list ==> s.mailbox == OfferTimes(old(s.mailbox), msg, Listed(list, i, s))
      invariant delivered == Taken(list, i, loads)
    {
      var s := list[i];
      RoomLeft(list, i, loads, old(s.mailbox), msg);
      var sent := TrySend(s, msg);
      if sent {
        delivered := delivered + 1;
      }
    }
  }

  /** One arm of the select: a send that never blocks. */
  method TrySend(s: Subscriber, msg: Message) returns (sent: bool)
    requires !s.closed
    modifies s`mailbox
    ensures s.mailbox == Offer(old(s.mailbox), msg) && (sent <==> old(|s.mailbox|) < QUEUE_CAP)
  {
    sent := |s.mailbox| < QUEUE_CAP;
    if sent {
      s.mailbox := s.mailbox + [msg];
    }
  }

  // ------------------------------------------------------------------ lists without repeats

  /** The listeners whose mailbox has room. */
  function Roomy<T(==)>(l: seq<T>, loads: map<T, nat>): set<T> {
    set x | x in l && x in loads && loads[x] < QUEUE_CAP
  }

  lemma {:induction false} ListedOnce<T>(l: seq<T>, n: nat, x: T)
    requires NoRepeats(l) && n <= |l|
    ensures Listed(l, n, x) == if x in l[..n] then 1 else 0
  {
    if n > 0 {
      ListedOnce(l, n - 1, x);
      assert l[..n] == l[..n - 1] + [l[n - 1]];
    }
  }

  /** Where nobody is listed twice, the offers that find room are the listeners that had room. */
  lemma TakenAll<T>(l: seq<T>, loads: map<T, nat>)
    requires NoRepeats(l)
    ensures Taken(l, |l|, loads) == |Roomy(l, loads)|
  {
    forall i | 0 <= i < |l|
      ensures HasRoom(l, i, loads) <==> l[i] in Roomy(l, loads)
    {
      RoomOnce(l, i, loads);
    }
    TakenIn(l, |l|, loads, Roomy(l, loads));
    CountInSize(l, |l|, Roomy(l, loads));
    assert l[..|l|] == l && Elements(l) * Roomy(l, loads) == Roomy(l, loads);
  }

  /** How many of the first n elements of l are in b. */
  function CountIn<T(==)>(l: seq<T>, n: nat, b: set<T>): nat
    requires n <= |l|
  {
    if n == 0 then 0 else CountIn(l, n - 1, b) + if l[n - 1] in b then 1 else 0
  }

  lemma {:induction false} TakenIn<T>(l: seq<T>, n: nat, loads: map<T, nat>, b: set<T>)
    requires n <= |l| && forall i :: 0 <= i < |l| ==> (HasRoom(l, i, loads) <==> l[i] in b)
    ensures Taken(l, n, loads) == CountIn(l, n, b)
  {
    if n > 0 {
      TakenIn(l, n - 1, loads, b);
    }
  }

  lemma {:induction false} CountInSize<T>(l: seq<T>, n: nat, b: set<T>)
    requires NoRepeats(l) && n <= |l|
    ensures CountIn(l, n, b) == |Elements(l[..n]) * b|
  {
    if n == 0 {
      NothingMeets(b);
      assert l[..0] == [];
    } else {
      CountInSize(l, n - 1, b);
      ElementsMeet(l, n - 1, b);
    }
  }

  lemma RoomOnce<T>(l: seq<T>, i: nat, loads: map<T, nat>)
    requires NoRepeats(l) && i < |l|
    ensures HasRoom(l, i, loads) <==> l[i] in Roomy(l, loads)
  {
    ListedOnce(l, i, l[i]);
  }

  lemma NothingMeets<T>(b: set<T>)
    ensures Elements<T>([]) * b == {}
  {
  }

  lemma ElementsSnoc<T>(l: seq<T>, n: nat)
    requires NoRepeats(l) && n < |l|
    ensures Elements(l[..n + 1]) == Elements(l[..n]) + {l[n]} && l[n] !in Elements(l[..n])
  {
  }

  lemma ElementsMeet<T>(l: seq<T>, n: nat, b: set<T>)
    requires NoRepeats(l) && n < |l|
    ensures |Elements(l[..n + 1]) * b| == |Elements(l[..n]) * b| + if l[n] in b then 1 else 0
  {
    ElementsSnoc(l, n);
    MeetGrows(Elements(l[..n]), l[n], b);
  }

  lemma FirstIsPosition<T>(l: seq<T>, x: T, i: nat)
    requires i < |l| && l[i] == x && x !in l[..i]
    ensures x in l && Position(l, x) == i
  {
    var p := Position(l, x);
    assert forall j :: 0 <= j < i ==> l[j] == l[..i][j];
    assert forall j :: 0 <= j < p ==> l[j] == l[..p][j];
  }

  // ------------------------------------------------------------------ connections

  /** A connection's side: its mailbox, made on the first SUBSCRIBE, and the channels it holds. */
  class Connection {
    var sub: Subscriber?
    var channels: set<bytes>

    constructor ()
      ensures sub == null && channels == {}
    {
      sub, channels := null, {};
    }
  }

  /** The broker and every open connection. */
  class Hub {
    const broker: Broker
    var conns: set<Connection>
    ghost var owner: map<Subscriber, Connection>   // whose mailbox each is

    /** No two connections share a mailbox, and only a connection with a mailbox holds channels. */
    ghost predicate Owned()
      reads this, conns
    {
      && (forall s :: s in owner ==> owner[s] in conns && owner[s].sub == s)
      && (forall c :: c in conns ==> if c.sub == null then c.channels == {} else c.sub in owner && owner[c.sub] == c)
    }

    /**
     The agreement: a connection's mailbox is in a channel's list, once, exactly when
     the channel is in the connection's set, and lists hold nothing else. No channel
     entry is empty.
     */
    ghost predicate Agreed()
      reads this, broker, conns
      requires Owned()
    {
      broker.NoneEmpty() && forall ch :: AgreedOn(ch)
    }

    ghost predicate AgreedOn(ch: bytes)
      reads this, broker, conns
      requires Owned()
    {
      && NoRepeats(broker.Listeners(ch))
      && (forall s :: s in broker.Listeners(ch) ==> s in owner && ch in owner[s].channels)
      && (forall c :: c in conns && ch in c.channels ==> c.sub in broker.Listeners(ch))
    }

    /** No open connection's mailbox is closed or over its bound. */
    ghost predicate Open()
      reads this, owner.Keys
    {
      forall s :: s in owner ==> !s.closed && |s.mailbox| <= QUEUE_CAP
    }

    ghost predicate Valid()
      reads this, broker, conns, owner.Keys
    {
      Owned() && Agreed() && Open()
    }

    constructor ()
      ensures Valid() && fresh(broker) && conns == {} && owner == map[]
    {
      broker := new Broker();
      conns, owner := {}, map[];
    }

    method Connect() returns (c: Connection)
      requires Valid()
      modifies this
      ensures Valid() && fresh(c) && conns == old(conns) + {c} && owner == old(owner)
    {
      c := new Connection();
      conns := conns + {c};
      forall ch
        ensures AgreedOn(ch)
      {
        assert old(AgreedOn(ch));
      }
    }

    /** The first SUBSCRIBE creates the mailbox. */
    method EnsureMailbox(c: Connection)
      requires Valid() && c in conns
      modifies this`owner, c
      ensures Valid() && c.sub != null && c.channels == old(c.channels)
      ensures if old(c.sub) != null then c.sub == old(c.sub) && owner == old(owner) else fresh(c.sub) && owner == old(owner)[c.sub := c]
    {
      if c.sub == null {
        var sub := new Subscriber();
        c.sub := sub;
        owner := owner[sub := c];
        assert Owned();
        forall ch
          ensures AgreedOn(ch)
        {
          assert old(AgreedOn(ch));
        }
      }
    }

    /** One channel of SUBSCRIBE: the broker is told only of a channel the connection did not have. */
    method SubscribeOne(c: Connection, channel: bytes)
      requires Valid() && c in conns && c.sub != null
      modifies c, broker
      ensures Valid() && c.sub == old(c.sub) && c.channels == old(c.channels) + {channel}
    {
      assert AgreedOn(channel);
      if channel !in c.channels {
        c.channels := c.channels + {channel};
        broker.Join(channel, c.sub);
        assert Owned();
        forall ch
          ensures AgreedOn(ch)
        {
          assert old(AgreedOn(ch));
        }
      }
    }

    /** One channel of UNSUBSCRIBE. */
    method UnsubscribeOne(c: Connection, channel: bytes)
      requires Valid() && c in conns
      modifies c, broker
      ensures Valid() && c.sub == old(c.sub) && c.channels == old(c.channels) - {channel}
    {
      assert AgreedOn(channel);
      if channel in c.channels {
        c.channels := c.channels - {channel};
        broker.Leave(channel, c.sub);
        assert Owned();
        forall ch
          ensures AgreedOn(ch)
        {
          assert old(AgreedOn(ch));
        }
      }
    }

    /** SUBSCRIBE: acks carry the running count. The socket takes the first writable acks; a failed write ends the call. */
    method Subscribe(c: Connection, channels: seq<bytes>, writable: nat) returns (acks: seq<nat>, ok: bool)
      requires Valid() && c in conns
      modifies this`owner, c, broker
      ensures Valid() && ok == (|channels| <= writable)
      ensures channels == [] ==> c.channels == old(c.channels) && c.sub == old(c.sub)
      ensures ok ==> c.channels == old(c.channels) + Elements(channels)
      ensures ok ==> acks == RunningCounts(old(c.channels), channels)
    {
      acks, ok := [], true;
      if channels == [] { return; }
      EnsureMailbox(c);
      ghost var held := c.channels;
      for i := 0 to |channels|
        invariant Valid() && c.sub != null && i <= writable && ok
        invariant c.channels == held + Elements(channels[..i])
        invariant acks == RunningCounts(held, channels[..i])
      {
        SubscribeOne(c, channels[i]);
        CountsGrow(held, channels, i);
        if i == writable { return acks, false; }
        acks := acks + [|c.channels|];
      }
      assert channels[..|channels|] == channels;
    }

    /**
     UNSUBSCRIBE of the named channels, or of every channel held when none is named.
     Acks count down; a connection that holds nothing and names nothing gets one ack of zero.
     */
    method Unsubscribe(c: Connection, channels: seq<bytes>, writable: nat) returns (acks: seq<nat>, ok: bool)
      requires Valid() && c in conns
      modifies c, broker
      ensures Valid() && c.sub == old(c.sub)
      ensures ok ==> c.channels == if channels == [] then {} else old(c.channels) - Elements(channels)
      ensures ok ==> acks == if channels != [] then LeftCounts(old(c.channels), channels)
                             else if old(c.channels) == {} then [0] else Countdown(|old(c.channels)|, |old(c.channels)|)
    {
      var targets := channels;
      if channels == [] {
        targets := Ranged(c.channels);
        CountsDown(c.channels, targets);
      }
      if targets == [] {
        return if writable == 0 then [] else [0], writable > 0;
      }
      acks, ok := LeaveEach(c, targets, writable);
    }

    /** The loop of UNSUBSCRIBE: leaves each channel and acknowledges it, until a write to the client fails. */
    method LeaveEach(c: Connection, targets: seq<bytes>, writable: nat) returns (acks: seq<nat>, ok: bool)
      requires Valid() && c in conns
      modifies c, broker
      ensures Valid() && c.sub == old(c.sub)
      ensures ok ==> c.channels == old(c.channels) - Elements(targets) && acks == LeftCounts(old(c.channels), targets)
    {
      acks := [];
      ghost var held := c.channels;
      for i := 0 to |targets|
        invariant Valid() && c.sub == old(c.sub)
        invariant (c.channels, acks) == Leaving(held, targets, i)
      {
        UnsubscribeOne(c, targets[i]);
        if i == writable { return acks, false; }
        acks := acks + [|c.channels|];
      }
      LeavingLeaves(held, targets, |targets|);
      assert targets[..|targets|] == targets;
      ok := true;
    }

    /** Leaves every channel, in whatever order they are ranged over. */
    method DropAll(c: Connection)
      requires Valid() && c in conns
      modifies c, broker
      ensures Valid() && c.sub == old(c.sub) && c.channels == {}
    {
      var pending := Ranged(c.channels);
      for i := 0 to |pending|
        invariant Valid() && c.sub == old(c.sub) && c.channels == old(c.channels) - Elements(pending[..i])
      {
        UnsubscribeOne(c, pending[i]);
        HeldShrinks(old(c.channels), pending, i);
      }
      assert pending[..|pending|] == pending;
    }

    /**
     Teardown: out of every list first, closed last, so no Publish can still reach the
     mailbox. The connection's own set is emptied on the way; nothing reads it again.
     */
    method Disconnect(c: Connection)
      requires Valid() && c in conns
      modifies this`conns, this`owner, c, broker, owner.Keys
      ensures Valid() && conns == old(conns) - {c}
      ensures forall d :: d in conns ==> d.sub == old(d.sub) && d.channels == old(d.channels)
      ensures forall s :: s in owner ==> s in old(owner) && s.mailbox == old(s.mailbox)
      ensures old(c.sub) != null ==> old(c.sub).closed && forall ch :: old(c.sub) !in broker.Listeners(ch)
    {
      DropAll(c);
      Retire(c);
    }

    /** Closes the mailbox, if any, of a connection that is in no list any more. */
    method Retire(c: Connection)
      requires Valid() && c in conns && c.channels == {}
      modifies this`conns, this`owner, owner.Keys
      ensures Valid() && conns == old(conns) - {c} && owner.Keys <= old(owner.Keys)
      ensures forall s :: s in old(owner) ==> s.mailbox == old(s.mailbox)
      ensures c.sub != null ==> c.sub.closed && forall ch :: c.sub !in broker.Listeners(ch)
    {
      forall ch, s | s in broker.Listeners(ch)
        ensures s in owner && owner[s] != c && s != c.sub
      {
        assert AgreedOn(ch);
      }
      if c.sub == null {
        conns := conns - {c};
        forall ch
          ensures AgreedOn(ch)
        {
          assert old(AgreedOn(ch));
        }
      } else {
        CloseMailbox(c);
      }
    }

    method CloseMailbox(c: Connection)
      requires Valid() && c in conns && c.sub != null && forall ch :: c.sub !in broker.Listeners(ch)
      modifies this`conns, this`owner, c.sub`closed
      ensures Valid() && conns == old(conns) - {c} && owner.Keys <= old(owner.Keys) && c.sub.closed
    {
      ghost var rest := map s | s in owner && s != c.sub :: owner[s];
      conns, owner := conns - {c}, rest;
      c.sub.closed := true;
      assert Owned();
      forall ch
        ensures AgreedOn(ch)
      {
        assert old(AgreedOn(ch));
      }
    }

    /** PUBLISH reaches exactly the mailboxes subscribed to the channel, once each, and counts those that had room. */
    method Publish(channel: bytes, payload: bytes) returns (delivered: nat)
      requires Valid()
      modifies owner.Keys`mailbox
      ensures Valid()
      ensures forall c :: c in conns && c.sub != null ==>
                c.sub.mailbox == if channel in c.channels then Offer(old(c.sub.mailbox), Message(channel, payload)) else old(c.sub.mailbox)
      ensures delivered == |Roomy(broker.Listeners(channel), old(Loads(broker.Listeners(channel))))|
    {
      assert AgreedOn(channel);
      forall c | c in conns && c.sub != null
        ensures c.sub in broker.Listeners(channel) <==> channel in c.channels
      {
        assert c.sub in owner && owner[c.sub] == c;
      }
      delivered := broker.PublishOnce(channel, payload);
    }

    /**
     The connection's delivery goroutine takes one message: mailboxes are first in,
     first out, and nothing is written twice or skipped.
     */
    method Deliver(c: Connection) returns (m: Option<Message>)
      requires Valid() && c in conns && c.sub != null
      modifies c.sub
      ensures Valid() && c.sub.written + c.sub.mailbox == old(c.sub.written + c.sub.mailbox)
      ensures m == None <==> old(c.sub.mailbox) == []
      ensures m.Some? ==> c.sub.written == old(c.sub.written) + [m.value]
      ensures m == None ==> c.sub.written == old(c.sub.written)
    {
      var box := c.sub.mailbox;
      if box == [] { return None; }
      m := Some(box[0]);
      c.sub.mailbox := box[1..];
      c.sub.written := c.sub.written + [box[0]];
    }
  }

  /** A set of channels in whatever order it is ranged over. */
  method Ranged(channels: set<bytes>) returns (l: seq<bytes>)
    ensures Elements(l) == channels && NoRepeats(l)
  {
    l := [];
    var pending := channels;
    while pending != {}
      invariant pending <= channels && Elements(l) == channels - pending && NoRepeats(l)
      decreases |pending|
    {
      var ch :| ch in pending;
      assert ch !in l by { assert ch !in Elements(l); }
      assert Elements(l + [ch]) == Elements(l) + {ch};
      pending, l := pending - {ch}, l + [ch];
    }
  }

  /** The subscription counts a SUBSCRIBE acknowledges, channel by channel. */
  function RunningCounts(held: set<bytes>, channels: seq<bytes>): seq<nat> {
    if channels == [] then []
    else RunningCounts(held, channels[..|channels| - 1]) + [|held + Elements(channels)|]
  }

  /** The channels still held after the first n targets were left, and the counts acknowledged on the way. */
  function Leaving(held: set<bytes>, targets: seq<bytes>, n: nat): (set<bytes>, seq<nat>)
    requires n <= |targets|
  {
    if n == 0 then (held, [])
    else
      var (left, acks) := Leaving(held, targets, n - 1);
      (left - {targets[n - 1]}, acks + [|left - {targets[n - 1]}|])
  }

  /** The subscription counts an UNSUBSCRIBE acknowledges, channel by channel. */
  function LeftCounts(held: set<bytes>, channels: seq<bytes>): seq<nat> {
    Leaving(held, channels, |channels|).1
  }

  lemma {:induction false} LeavingLeaves(held: set<bytes>, targets: seq<bytes>, n: nat)
    requires n <= |targets|
    ensures Leaving(held, targets, n).0 == held - Elements(targets[..n])
  {
    if n == 0 {
      assert targets[..0] == [];
    } else {
      LeavingLeaves(held, targets, n - 1);
      HeldShrinks(held, targets, n - 1);
    }
  }

  /** n - 1, n - 2, ... for the first i of them. */
  function Countdown(n: nat, i: nat): seq<nat>
    requires i <= n
  {
    if i == 0 then [] else Countdown(n, i - 1) + [n - i]
  }

  /** Leaving everything held counts down to zero. */
  lemma CountsDown(held: set<bytes>, l: seq<bytes>)
    requires Elements(l) == held && NoRepeats(l)
    ensures |l| == |held| && LeftCounts(held, l) == Countdown(|held|, |held|)
  {
    forall j | 0 <= j <= |l|
      ensures |Leaving(held, l, j).0| + j == |held|
    {
      LeavingSize(held, l, j);
    }
    LeavingLeaves(held, l, |l|);
    assert l[..|l|] == l && held - Elements(l) == {};
    CountsDownTo(held, l, |l|);
  }

  lemma {:induction false} LeavingSize(held: set<bytes>, l: seq<bytes>, i: nat)
    requires Elements(l) == held && NoRepeats(l) && i <= |l|
    ensures |Leaving(held, l, i).0| + i == |held|
  {
    if i > 0 {
      LeavingSize(held, l, i - 1);
      LeavingLeaves(held, l, i - 1);
      StillHeld(held, l, i - 1);
      OneLess(Leaving(held, l, i - 1).0, l[i - 1]);
    }
  }

  lemma {:induction false} CountsDownTo(held: set<bytes>, l: seq<bytes>, i: nat)
    requires i <= |l| && i <= |held| && forall j :: 0 <= j <= i ==> |Leaving(held, l, j).0| + j == |held|
    ensures Leaving(held, l, i).1 == Countdown(|held|, i)
  {
    if i > 0 {
      CountsDownTo(held, l, i - 1);
      assert |Leaving(held, l, i).0| + i == |held|;
    }
  }

  lemma StillHeld(held: set<bytes>, l: seq<bytes>, i: nat)
    requires Elements(l) == held && NoRepeats(l) && i < |l|
    ensures l[i] in held - Elements(l[..i])
  {
    assert l[i] in Elements(l);
    assert l[i] !in l[..i];
  }

  lemma OneLess(s: set<bytes>, x: bytes)
    requires x in s
    ensures |s - {x}| == |s| - 1
  {
  }

  lemma HeldShrinks(held: set<bytes>, targets: seq<bytes>, i: nat)
    requires i < |targets|
    ensures held - Elements(targets[..i]) - {targets[i]} == held - Elements(targets[..i + 1])
  {
  }

  lemma CountsGrow(held: set<bytes>, channels: seq<bytes>, i: nat)
    requires i < |channels|
    ensures held + Elements(channels[..i]) + {channels[i]} == held + Elements(channels[..i + 1])
    ensures RunningCounts(held, channels[..i + 1]) == RunningCounts(held, channels[..i]) + [|held + Elements(channels[..i + 1])|]
  {
    assert channels[..i + 1][..i] == channels[..i];
    assert Elements(channels[..i + 1]) == Elements(channels[..i]) + {channels[i]};
  }
}
