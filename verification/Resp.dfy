/**
 RESP2 frames as values: the printer, the parser over the bytes that follow, and
 the laws that tie them together. RespIO holds the stream form of both.
 */
module Resp {
  import opened Bytes

  /** A frame. Go's nil Bulk and nil Array are the two Null constructors. */
  datatype Value =
    | SimpleString(text: bytes)
    | Error(text: bytes)
    | Integer(num: int64)
    | NullBulk
    | Bulk(data: bytes)
    | NullArray
    | Array(elems: seq<Value>)

  /** Text lines hold no line feed; lengths are Go ints. */
  predicate WellFormed(v: Value) {
    match v
    case SimpleString(t) => LF !in t
    case Error(t) => LF !in t
    case Integer(_) => true
    case NullBulk => true
    case Bulk(d) => |d| <= MAX_INT64
    case NullArray => true
    case Array(es) => |es| <= MAX_INT64 && forall i :: 0 <= i < |es| ==> WellFormed(es[i])
  }

  predicate AllWellFormed(vs: seq<Value>) {
    forall i :: 0 <= i < |vs| ==> WellFormed(vs[i])
  }

  const COLON: byte := 58
  const DOLLAR: byte := 36
  const STAR: byte := 42

  /** A header line: the type byte, its text and CRLF. */
  function Line(kind: byte, text: bytes): bytes {
    [kind] + text + CRLF
  }

  function Encode(v: Value): bytes
    decreases v, 1
  {
    match v
    case SimpleString(t) => Line(PLUS, t)
    case Error(t) => Line(MINUS, t)
    case Integer(n) => Line(COLON, FormatInt(n))
    case NullBulk => Line(DOLLAR, FormatInt(-1))
    case Bulk(d) => Line(DOLLAR, FormatInt(|d|)) + d + CRLF
    case NullArray => Line(STAR, FormatInt(-1))
    case Array(es) => Line(STAR, FormatInt(|es|)) + EncodeAll(es)
  }

  function EncodeAll(vs: seq<Value>): bytes
    decreases vs, 0
  {
    if vs == [] then [] else Encode(vs[0]) + EncodeAll(vs[1..])
  }

  lemma {:induction false} EncodeAllConcat(a: seq<Value>, b: seq<Value>)
    ensures EncodeAll(a + b) == EncodeAll(a) + EncodeAll(b)
  {
    if a == [] {
      assert a + b == b;
    } else {
      assert (a + b)[1..] == a[1..] + b;
      EncodeAllConcat(a[1..], b);
    }
  }

  lemma EncodeAllOne(v: Value)
    ensures EncodeAll([v]) == Encode(v)
  {
    assert [v][1..] == [];
  }

  /** How a read from the stream ends. Torn is io.ErrUnexpectedEOF, Corrupt any protocol error. */
  datatype Result<+T> = Ok(value: T, rest: bytes) | CleanEof | Torn | Corrupt

  function FirstLF(s: bytes): (i: nat)
    ensures i <= |s| && LF !in s[..i] && (i < |s| ==> s[i] == LF)
  {
    if s == [] || s[0] == LF then 0
    else
      var i := 1 + FirstLF(s[1..]);
      assert s[..i] == [s[0]] + s[1..][..i - 1];
      i
  }

  function ReadLine(s: bytes): (r: Result<bytes>)
    ensures r.Ok? ==> LF !in r.value && s == r.value + CRLF + r.rest
    ensures !r.CleanEof?
  {
    var i := FirstLF(s);
    if i == |s| then Torn
    else if i == 0 || s[i - 1] != CR then Corrupt
    else
      assert forall j :: 0 <= j < i - 1 ==> s[j] == s[..i][j];
      Ok(s[..i - 1], s[i + 1..])
  }

  function ReadInt(s: bytes): (r: Result<int64>)
    ensures r.Ok? ==> |r.rest| < |s|
    ensures !r.CleanEof?
  {
    match ReadLine(s)
    case Ok(line, rest) => (match ParseInt(line) case Some(n) => Ok(n, rest) case None => Corrupt)
    case Torn => Torn
    case _ => Corrupt
  }

  function DecodeBulk(s: bytes): (r: Result<Value>)
    ensures r.Ok? ==> |r.rest| < |s|
    ensures !r.CleanEof?
  {
    match ReadInt(s)
    case Ok(n, rest) =>
      if n < 0 then Ok(NullBulk, rest)
      else if |rest| < n + 2 then Torn
      else if rest[n..n + 2] != CRLF then Corrupt
      else Ok(Bulk(rest[..n]), rest[n + 2..])
    case Torn => Torn
    case _ => Corrupt
  }

  function Decode(s: bytes): (r: Result<Value>)
    ensures r.Ok? ==> |r.rest| < |s|
    ensures r.CleanEof? <==> s == []
    decreases |s|, 0
  {
    if s == [] then CleanEof
    else if s[0] == PLUS || s[0] == MINUS then
      match ReadLine(s[1..])
      case Ok(t, rest) => Ok(if s[0] == PLUS then SimpleString(t) else Error(t), rest)
      case Torn => Torn
      case _ => Corrupt
    else if s[0] == COLON then
      match ReadInt(s[1..])
      case Ok(n, rest) => Ok(Integer(n), rest)
      case Torn => Torn
      case _ => Corrupt
    else if s[0] == DOLLAR then DecodeBulk(s[1..])
    else if s[0] == STAR then DecodeArray(s[1..])
    else Corrupt
  }

  function DecodeArray(s: bytes): (r: Result<Value>)
    ensures r.Ok? ==> |r.rest| < |s|
    ensures !r.CleanEof?
    decreases |s|, 0
  {
    match ReadInt(s)
    case Ok(n, rest) => if n < 0 then Ok(NullArray, rest) else AsArray(DecodeItems(rest, n))
    case Torn => Torn
    case _ => Corrupt
  }

  function AsArray(r: Result<seq<Value>>): Result<Value> {
    match r
    case Ok(vs, rest) => Ok(Array(vs), rest)
    case Torn => Torn
    case _ => Corrupt
  }

  /** The result of reading r after the frames vs have been read. */
  function After(vs: seq<Value>, r: Result<seq<Value>>): Result<seq<Value>> {
    match r
    case Ok(ws, rest) => Ok(vs + ws, rest)
    case Torn => Torn
    case _ => Corrupt
  }

  /** n frames in a row; inside an array even a frame-boundary end of input is a torn frame. */
  function DecodeItems(s: bytes, n: nat): (r: Result<seq<Value>>)
    ensures r.Ok? ==> |r.rest| <= |s| && |r.value| == n
    ensures !r.CleanEof?
    decreases |s|, n + 1
  {
    if n == 0 then Ok([], s)
    else
      match Decode(s)
      case Ok(v, rest) => After([v], DecodeItems(rest, n - 1))
      case Corrupt => Corrupt
      case _ => Torn
  }

  // ------------------------------------------------------------------ reading what was written

  lemma ReadLineOk(t: bytes, rest: bytes)
    requires LF !in t
    ensures ReadLine(t + CRLF + rest) == Ok(t, rest)
  {
    var s := t + CRLF + rest;
    var i := FirstLF(s);
    assert s[|t| + 1] == LF && s[|t|] == CR;
    assert forall j :: 0 <= j < |t| ==> s[j] == t[j];
    assert i <= |t| + 1 by {
      assert forall j :: 0 <= j < i ==> s[j] == s[..i][j];
    }
    assert s[..i - 1] == t && s[i + 1..] == rest;
  }

  lemma ReadLineTorn(s: bytes)
    requires LF !in s
    ensures ReadLine(s) == Torn
  {
  }

  lemma ReadHeader(kind: byte, n: int64, rest: bytes)
    ensures (Line(kind, FormatInt(n)) + rest)[1..] == FormatInt(n) + CRLF + rest
    ensures ReadInt((Line(kind, FormatInt(n)) + rest)[1..]) == Ok(n, rest)
  {
    assert (Line(kind, FormatInt(n)) + rest)[1..] == FormatInt(n) + CRLF + rest;
    FormatHasNoLF(n);
    ParseFormat(n);
    ReadLineOk(FormatInt(n), rest);
  }

  lemma DecodeEncodeText(v: Value, rest: bytes)
    requires WellFormed(v) && (v.SimpleString? || v.Error?)
    ensures Decode(Encode(v) + rest) == Ok(v, rest)
  {
    assert (Encode(v) + rest)[1..] == v.text + CRLF + rest;
    ReadLineOk(v.text, rest);
  }

  lemma DecodeEncodeNumber(v: Value, rest: bytes)
    requires v.Integer? || v.NullBulk? || v.NullArray?
    ensures Decode(Encode(v) + rest) == Ok(v, rest)
  {
    match v
    case Integer(n) => ReadHeader(COLON, n, rest);
    case NullBulk => ReadHeader(DOLLAR, -1, rest);
    case NullArray => ReadHeader(STAR, -1, rest);
  }

  lemma BulkBody(d: bytes, rest: bytes)
    ensures var tail := d + CRLF + rest;
            |tail| >= |d| + 2 && tail[|d|..|d| + 2] == CRLF && tail[..|d|] == d && tail[|d| + 2..] == rest
  {
  }

  lemma BulkFrame(head: bytes, d: bytes, rest: bytes)
    ensures head + d + CRLF + rest == head + (d + CRLF + rest)
  {
  }

  lemma DecodeEncodeBulk(d: bytes, rest: bytes)
    requires |d| <= MAX_INT64
    ensures Decode(Encode(Bulk(d)) + rest) == Ok(Bulk(d), rest)
  {
    var head, tail := Line(DOLLAR, FormatInt(|d|)), d + CRLF + rest;
    BulkFrame(head, d, rest);
    ReadHeader(DOLLAR, |d|, tail);
    BulkBody(d, rest);
    assert (head + tail)[0] == DOLLAR;
    assert Decode(head + tail) == DecodeBulk((head + tail)[1..]);
  }

  /** Behind an array header the frame is what its items decode to. */
  lemma DecodeArrayHeader(n: nat, items: bytes)
    requires n <= MAX_INT64
    ensures Decode(Line(STAR, FormatInt(n)) + items) == AsArray(DecodeItems(items, n))
  {
    ReadHeader(STAR, n, items);
    StarDecodes(Line(STAR, FormatInt(n)) + items);
    ArrayDecodes((Line(STAR, FormatInt(n)) + items)[1..], n, items);
  }

  lemma StarDecodes(s: bytes)
    requires s != [] && s[0] == STAR
    ensures Decode(s) == DecodeArray(s[1..])
  {
  }

  lemma ArrayDecodes(s: bytes, n: nat, rest: bytes)
    requires n <= MAX_INT64 && ReadInt(s) == Ok(n, rest)
    ensures DecodeArray(s) == AsArray(DecodeItems(rest, n))
  {
  }

  lemma DecodeItemsCons(s: bytes, n: nat)
    requires n > 0 && Decode(s).Ok?
    ensures DecodeItems(s, n) == After([Decode(s).value], DecodeItems(Decode(s).rest, n - 1))
  {
  }

  /** Round trip on a stream: a frame is read back and the bytes behind it are left alone. */
  lemma {:induction false} DecodeEncode(v: Value, rest: bytes)
    requires WellFormed(v)
    ensures Decode(Encode(v) + rest) == Ok(v, rest)
    decreases v, 1
  {
    if v.Array? {
      var items := EncodeAll(v.elems) + rest;
      assert Encode(v) + rest == Line(STAR, FormatInt(|v.elems|)) + items;
      DecodeEncodeAll(v.elems, rest);
      DecodeArrayHeader(|v.elems|, items);
    } else if v.Bulk? {
      DecodeEncodeBulk(v.data, rest);
    } else if v.SimpleString? || v.Error? {
      DecodeEncodeText(v, rest);
    } else {
      DecodeEncodeNumber(v, rest);
    }
  }

  lemma {:induction false} DecodeEncodeAll(vs: seq<Value>, rest: bytes)
    requires AllWellFormed(vs)
    ensures DecodeItems(EncodeAll(vs) + rest, |vs|) == Ok(vs, rest)
    decreases vs, 0
  {
    if vs == [] {
      assert EncodeAll(vs) + rest == rest;
    } else {
      assert EncodeAll(vs) + rest == Encode(vs[0]) + (EncodeAll(vs[1..]) + rest);
      DecodeEncode(vs[0], EncodeAll(vs[1..]) + rest);
      DecodeItemsCons(EncodeAll(vs) + rest, |vs|);
      DecodeEncodeAll(vs[1..], rest);
      assert [vs[0]] + vs[1..] == vs;
    }
  }

  // ------------------------------------------------------------------ reading a torn frame

  lemma TornHeader(kind: byte, text: bytes, p: bytes)
    requires LF !in text && p != [] && p < Line(kind, text)
    ensures LF !in p[1..]
  {
    var l := Line(kind, text);
    forall i | 1 <= i < |p|
      ensures p[i] != LF
    {
      assert p[i] == l[i];
      if i <= |text| {
        assert l[i] == text[i - 1];
      }
    }
  }

  lemma TornIntHeader(kind: byte, n: int64, p: bytes)
    requires p != [] && p < Line(kind, FormatInt(n))
    ensures ReadInt(p[1..]) == Torn
  {
    FormatHasNoLF(n);
    TornHeader(kind, FormatInt(n), p);
    ReadLineTorn(p[1..]);
  }

  lemma DecodePrefixLine(v: Value, p: bytes)
    requires WellFormed(v) && !v.Array? && !v.Bulk? && p != [] && p < Encode(v)
    ensures Decode(p) == Torn
  {
    assert p[0] == Encode(v)[0];
    match v
    case SimpleString(t) => TornHeader(PLUS, t, p);
    case Error(t) => TornHeader(MINUS, t, p);
    case Integer(n) => TornIntHeader(COLON, n, p);
    case NullBulk => TornIntHeader(DOLLAR, -1, p);
    case NullArray => TornIntHeader(STAR, -1, p);
  }

  lemma DecodePrefixBulk(d: bytes, p: bytes)
    requires |d| <= MAX_INT64 && p != [] && p < Encode(Bulk(d))
    ensures Decode(p) == Torn
  {
    var head := Line(DOLLAR, FormatInt(|d|));
    if |p| < |head| {
      TornIntHeader(DOLLAR, |d|, p);
    } else {
      assert p == head + p[|head|..];
      ReadHeader(DOLLAR, |d|, p[|head|..]);
    }
  }

  /** Every proper prefix of a frame is a clean end when empty and a torn frame otherwise. */
  lemma {:induction false} DecodePrefix(v: Value, p: bytes)
    requires WellFormed(v) && p < Encode(v)
    ensures Decode(p) == if p == [] then CleanEof else Torn
    decreases v, 1
  {
    if p != [] {
      if v.Array? {
        var head := Line(STAR, FormatInt(|v.elems|));
        if |p| < |head| {
          TornIntHeader(STAR, |v.elems|, p);
        } else {
          var q := p[|head|..];
          assert p == head + q && q < EncodeAll(v.elems);
          DecodePrefixAll(v.elems, q);
          DecodeArrayHeader(|v.elems|, q);
        }
      } else if v.Bulk? {
        DecodePrefixBulk(v.data, p);
      } else {
        DecodePrefixLine(v, p);
      }
    }
  }

  lemma {:induction false} DecodePrefixAll(vs: seq<Value>, p: bytes)
    requires AllWellFormed(vs) && p < EncodeAll(vs)
    ensures DecodeItems(p, |vs|) == Torn
    decreases vs, 0
  {
    var first := Encode(vs[0]);
    if |p| < |first| {
      DecodePrefix(vs[0], p);
      TornItems(p, |vs|);
    } else {
      var q := p[|first|..];
      SplitPrefix(first, EncodeAll(vs[1..]), p);
      DecodeEncode(vs[0], q);
      DecodePrefixAll(vs[1..], q);
      TornBehind(p, vs[0], q, |vs|);
    }
  }

  lemma TornBehind(p: bytes, v: Value, q: bytes, n: nat)
    requires n > 0 && Decode(p) == Ok(v, q) && DecodeItems(q, n - 1) == Torn
    ensures DecodeItems(p, n) == Torn
  {
    DecodeItemsCons(p, n);
  }

  lemma TornItems(p: bytes, n: nat)
    requires n > 0 && (Decode(p).Torn? || Decode(p).CleanEof?)
    ensures DecodeItems(p, n) == Torn
  {
  }

  lemma SplitPrefix(a: bytes, b: bytes, p: bytes)
    requires p < a + b && |a| <= |p|
    ensures p == a + p[|a|..] && p[|a|..] < b
  {
    assert p[..|a|] == a;
    assert b == (a + b)[|a|..];
  }

  // ------------------------------------------------------------------ reading anything

  predicate IsSuffix(t: bytes, s: bytes) {
    |t| <= |s| && t == s[|s| - |t|..]
  }

  lemma SuffixTrans(a: bytes, b: bytes, c: bytes)
    requires IsSuffix(a, b) && IsSuffix(b, c)
    ensures IsSuffix(a, c)
  {
  }

  lemma ReadIntSuffix(s: bytes)
    requires ReadInt(s).Ok?
    ensures IsSuffix(ReadInt(s).rest, s)
  {
  }

  lemma DecodedLineIsWellFormed(s: bytes)
    requires Decode(s).Ok? && s[0] != STAR && s[0] != DOLLAR
    ensures WellFormed(Decode(s).value) && IsSuffix(Decode(s).rest, s)
  {
    if s[0] == COLON {
      ReadIntSuffix(s[1..]);
      SuffixTrans(Decode(s).rest, s[1..], s);
    }
  }

  lemma DecodedBulkIsWellFormed(s: bytes)
    requires DecodeBulk(s).Ok?
    ensures WellFormed(DecodeBulk(s).value) && IsSuffix(DecodeBulk(s).rest, s)
  {
    var header := ReadInt(s);
    ReadIntSuffix(s);
    SuffixTrans(DecodeBulk(s).rest, header.rest, s);
  }

  /** Whatever bytes arrive, a decoded frame is well formed and what is left is a suffix of them. */
  lemma {:induction false} DecodedIsWellFormed(s: bytes)
    requires Decode(s).Ok?
    ensures WellFormed(Decode(s).value)
    ensures IsSuffix(Decode(s).rest, s)
    decreases |s|, 0
  {
    if s[0] == STAR {
      DecodedArrayIsWellFormed(s[1..]);
      SuffixTrans(Decode(s).rest, s[1..], s);
    } else if s[0] == DOLLAR {
      DecodedBulkIsWellFormed(s[1..]);
      SuffixTrans(Decode(s).rest, s[1..], s);
    } else {
      DecodedLineIsWellFormed(s);
    }
  }

  lemma {:induction false} DecodedArrayIsWellFormed(s: bytes)
    requires DecodeArray(s).Ok?
    ensures WellFormed(DecodeArray(s).value) && IsSuffix(DecodeArray(s).rest, s)
    decreases |s|, 0
  {
    var header := ReadInt(s);
    ReadIntSuffix(s);
    if header.value >= 0 {
      DecodedItemsAreWellFormed(header.rest, header.value);
      SuffixTrans(DecodeArray(s).rest, header.rest, s);
    }
  }

  lemma DecodedItemsSplit(s: bytes, n: nat) returns (first: Result<Value>)
    requires n > 0 && DecodeItems(s, n).Ok?
    ensures first == Decode(s) && first.Ok? && DecodeItems(first.rest, n - 1).Ok?
    ensures DecodeItems(s, n).value == [first.value] + DecodeItems(first.rest, n - 1).value
    ensures DecodeItems(s, n).rest == DecodeItems(first.rest, n - 1).rest
  {
    first := Decode(s);
  }

  lemma {:induction false} DecodedItemsAreWellFormed(s: bytes, n: nat)
    requires DecodeItems(s, n).Ok?
    ensures AllWellFormed(DecodeItems(s, n).value)
    ensures IsSuffix(DecodeItems(s, n).rest, s)
    decreases |s|, n + 1
  {
    var all := DecodeItems(s, n);
    if n == 0 {
      assert all == Ok([], s);
    } else {
      var first := DecodedItemsSplit(s, n);
      DecodedIsWellFormed(s);
      DecodedItemsAreWellFormed(first.rest, n - 1);
      SuffixTrans(all.rest, first.rest, s);
    }
  }

  /** Encoding what was decoded normalises its spelling: it decodes to the same frame. */
  lemma DecodeEncodeDecode(s: bytes, rest: bytes)
    requires Decode(s).Ok?
    ensures Decode(Encode(Decode(s).value) + rest) == Ok(Decode(s).value, rest)
  {
    DecodedIsWellFormed(s);
    DecodeEncode(Decode(s).value, rest);
  }
}
