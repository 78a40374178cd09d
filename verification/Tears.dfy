/**
 What becomes of a command appended to a log whose last frame is torn. Replay stops
 in front of the tear, but the file is then opened for appending as it is.
 */
module Tears {
  import opened Bytes
  import opened Resp
  import opened Commands
  import opened Rewrite
  import opened Log

  /** What the server may append: a well-formed write that its handler accepted. */
  predicate Loggable(v: Value) {
    WellFormed(v) && v.Array? && PlanOf(v).On? && IsWrite(NameIn(v))
  }

  /** next, appended behind whole frames and a torn one, is read back on its own behind the whole ones. */
  predicate ReadsBack(cmds: seq<Value>, torn: bytes, next: Value) {
    Scan(EncodeAll(cmds) + torn + Encode(next)) == Scanned(cmds + [next], false)
  }

  /**
   Appending after a crash is safe exactly when the crash left no torn frame: any
   tear at all, at whatever byte of whatever command, spoils some write appended to it.
   */
  lemma AppendAfterTearSafeIff(cmds: seq<Value>, lost: Value, torn: bytes)
    requires AllWellFormed(cmds) && WellFormed(lost) && lost.Array? && torn < Encode(lost)
    ensures (forall next :: Loggable(next) ==> ReadsBack(cmds, torn, next)) <==> torn == []
  {
    if torn == [] {
      forall next | Loggable(next)
        ensures ReadsBack(cmds, torn, next)
      {
        WholeLogGrows(cmds, next);
      }
    } else {
      var next := OtherArity(|lost.elems|);
      TearSpoils(cmds, lost, torn, next);
    }
  }

  lemma WholeLogGrows(cmds: seq<Value>, next: Value)
    requires AllWellFormed(cmds) && WellFormed(next)
    ensures ReadsBack(cmds, [], next)
  {
    assert EncodeAll(cmds) + [] == EncodeAll(cmds);
    EncodeAllConcat(cmds, [next]);
    EncodeAllOne(next);
    ScanEncoded(cmds + [next]);
  }

  /** A write with other than n elements: SET has three, RPUSH of two values four. */
  lemma OtherArity(n: nat) returns (v: Value)
    ensures Loggable(v) && |v.elems| != n
  {
    var k: bytes := [];
    if n == 3 {
      v := BulkCmd(Ascii("RPUSH"), [k] + [k, k]);
      RPushPlan(k, [k, k]);
      BulkCmdWellFormed(Ascii("RPUSH"), [k] + [k, k]);
    } else {
      v := BulkCmd(Ascii("SET"), [k, k]);
      SetPlan(k, k);
      BulkCmdWellFormed(Ascii("SET"), [k, k]);
    }
  }

  /** A tear spoils every command whose length differs from the torn one's. */
  lemma TearSpoils(cmds: seq<Value>, lost: Value, torn: bytes, next: Value)
    requires AllWellFormed(cmds) && WellFormed(lost) && lost.Array? && torn < Encode(lost) && torn != []
    requires WellFormed(next) && next.Array? && |next.elems| != |lost.elems|
    ensures !ReadsBack(cmds, torn, next)
  {
    var head := Line(STAR, FormatInt(|lost.elems|));
    if |torn| < |head| {
      assert torn < head;
      TornHeaderCorrupts(cmds, lost, torn, next);
    } else {
      WholeHeaderMisreads(cmds, lost, torn, next);
    }
  }

  /**
   Torn inside its header line, the frame makes the next replay fail: whatever
   command comes next, the log is corrupt behind the whole frames.
   */
  lemma TornHeaderCorrupts(cmds: seq<Value>, lost: Value, torn: bytes, next: Value)
    requires AllWellFormed(cmds) && lost.Array? && next.Array?
    requires torn != [] && torn < Line(STAR, FormatInt(|lost.elems|))
    ensures Scan(EncodeAll(cmds) + torn + Encode(next)) == Scanned(cmds, true)
  {
    JoinedHeader(|lost.elems|, torn, |next.elems|, EncodeAll(next.elems));
    ScanBehind(cmds, torn + Encode(next));
    assert EncodeAll(cmds) + torn + Encode(next) == EncodeAll(cmds) + (torn + Encode(next));
    assert cmds + [] == cmds;
  }

  /** The two headers run together into one line that is no integer. */
  lemma JoinedHeader(n: nat, torn: bytes, m: nat, items: bytes)
    requires torn != [] && torn < Line(STAR, FormatInt(n))
    ensures Decode(torn + (Line(STAR, FormatInt(m)) + items)) == Corrupt
  {
    var joined := torn + (Line(STAR, FormatInt(m)) + items);
    var line := torn[1..] + [STAR] + FormatInt(m);
    FormatHasNoLF(n);
    FormatHasNoLF(m);
    TornHeader(STAR, FormatInt(n), torn);
    assert LF !in line;
    assert joined[1..] == line + CRLF + items;
    assert joined[0] == Line(STAR, FormatInt(n))[0] == STAR;
    ReadLineOk(line, items);
    StarIsNoInt(line, |torn| - 1);
    StarDecodes(joined);
    BadLength(joined[1..], line, items);
  }

  lemma BadLength(s: bytes, line: bytes, rest: bytes)
    requires ReadLine(s) == Ok(line, rest) && ParseInt(line) == None
    ensures DecodeArray(s) == Corrupt
  {
  }

  lemma StarIsNoInt(line: bytes, i: nat)
    requires i < |line| && line[i] == STAR
    ensures ParseInt(line) == None
  {
    var signed := line[0] == PLUS || line[0] == MINUS;
    if signed {
      assert line[1..][i - 1] == STAR;
    }
  }

  /** With its header whole, the torn frame takes elements of the next one: what is read first has the torn one's length. */
  lemma WholeHeaderMisreads(cmds: seq<Value>, lost: Value, torn: bytes, next: Value)
    requires AllWellFormed(cmds) && WellFormed(lost) && lost.Array? && torn < Encode(lost)
    requires |torn| >= |Line(STAR, FormatInt(|lost.elems|))|
    requires next.Array? && |next.elems| != |lost.elems|
    ensures !ReadsBack(cmds, torn, next)
  {
    var behind := torn + Encode(next);
    FirstRead(lost.elems, torn, Encode(next));
    ScanBehind(cmds, behind);
    Regroup(EncodeAll(cmds), torn, Encode(next));
    if ReadsBack(cmds, torn, next) {
      SameBehind(cmds, Scan(behind).cmds, [next]);
    }
  }

  lemma Regroup(a: bytes, b: bytes, c: bytes)
    ensures (a + b) + c == a + (b + c)
  {
  }

  lemma SameBehind(a: seq<Value>, b: seq<Value>, c: seq<Value>)
    requires a + b == a + c
    ensures b == c
  {
    assert b == (a + b)[|a|..] && c == (a + c)[|a|..];
  }

  lemma FirstRead(elems: seq<Value>, torn: bytes, rest: bytes)
    requires |elems| <= MAX_INT64 && torn < Line(STAR, FormatInt(|elems|)) + EncodeAll(elems)
    requires |torn| >= |Line(STAR, FormatInt(|elems|))|
    ensures var found := Scan(torn + rest).cmds;
            found != [] ==> found[0].Array? && |found[0].elems| == |elems|
  {
    var n, head := |elems|, Line(STAR, FormatInt(|elems|));
    var q := torn[|head|..];
    assert torn == head + q;
    Regroup(head, q, rest);
    DecodeArrayHeader(n, q + rest);
    ScanFirst(torn + rest);
  }

  lemma ScanFirst(s: bytes)
    ensures Scan(s).cmds != [] ==> Decode(s).Ok? && Scan(s).cmds[0] == Decode(s).value
  {
  }

  lemma {:induction false} ScanBehind(cmds: seq<Value>, rest: bytes)
    requires AllWellFormed(cmds)
    ensures Scan(EncodeAll(cmds) + rest) == Scanned(cmds + Scan(rest).cmds, Scan(rest).corrupt)
  {
    if cmds == [] {
      assert [] + rest == rest && [] + Scan(rest).cmds == Scan(rest).cmds;
    } else {
      var first, others := Encode(cmds[0]), EncodeAll(cmds[1..]);
      Regroup(first, others, rest);
      ScanCons(cmds[0], others + rest);
      ScanBehind(cmds[1..], rest);
      ConsBehind(cmds, Scan(rest).cmds);
    }
  }

  lemma ConsBehind(cmds: seq<Value>, found: seq<Value>)
    requires cmds != []
    ensures [cmds[0]] + (cmds[1..] + found) == cmds + found
  {
  }

  /**
   How a write can vanish without a trace: cut a command short in front of its last
   argument, and the next replay reads the appended command as that argument. It
   reports no error, and the appended command never runs.
   */
  lemma AppendAfterTearIsSwallowed(args: seq<Value>, last: Value, next: Value)
    requires AllWellFormed(args) && |args| < MAX_INT64 && WellFormed(next)
    ensures var torn := Line(STAR, FormatInt(|args| + 1)) + EncodeAll(args);
            && torn < Encode(Array(args + [last]))
            && Scan(torn + Encode(next)) == Scanned([Array(args + [next])], false)
  {
    var torn := Line(STAR, FormatInt(|args| + 1)) + EncodeAll(args);
    EncodeWithLast(args, last);
    EncodeNonEmpty(last);
    EncodeWithLast(args, next);
    var swallowed := Array(args + [next]);
    EncodeAllOne(swallowed);
    assert WellFormed(swallowed);
    ScanEncoded([swallowed]);
  }

  lemma EncodeWithLast(args: seq<Value>, last: Value)
    ensures Encode(Array(args + [last])) == Line(STAR, FormatInt(|args| + 1)) + EncodeAll(args) + Encode(last)
  {
    EncodeAllConcat(args, [last]);
    EncodeAllOne(last);
  }
}
