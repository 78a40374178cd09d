/**
 The codec as the program runs it: a decoder that consumes a reader frame by frame
 and an encoder that appends to a writer. Both are proved against module Resp.
 */
module RespIO {
  import opened Bytes
  import opened Resp

  /** bufio.Reader: the bytes not consumed yet. */
  class Reader {
    var rest: bytes

    constructor (src: bytes)
      ensures rest == src
    {
      rest := src;
    }

    method ReadByte() returns (b: Option<byte>)
      modifies this
      ensures b == if old(rest) == [] then None else Some(old(rest)[0])
      ensures rest == if old(rest) == [] then [] else old(rest)[1..]
    {
      if rest == [] { return None; }
      b, rest := Some(rest[0]), rest[1..];
    }

    /** Everything up to and including the next line feed, or None when the input ends first. */
    method ReadToLF() returns (line: Option<bytes>)
      modifies this
      ensures var i := FirstLF(old(rest));
              if i == |old(rest)| then line == None && rest == []
              else line == Some(old(rest)[..i + 1]) && rest == old(rest)[i + 1..]
    {
      var i := FirstLF(rest);
      if i == |rest| {
        line, rest := None, [];
      } else {
        line, rest := Some(rest[..i + 1]), rest[i + 1..];
      }
    }

    method ReadFull(n: nat) returns (buf: Option<bytes>)
      modifies this
      ensures if |old(rest)| < n then buf == None && rest == []
              else buf == Some(old(rest)[..n]) && rest == old(rest)[n..]
    {
      if |rest| < n {
        buf, rest := None, [];
      } else {
        buf, rest := Some(rest[..n]), rest[n..];
      }
    }
  }

  method NextLine(r: Reader) returns (res: Result<bytes>)
    modifies r
    ensures res == ReadLine(old(r.rest))
    ensures res.Ok? ==> r.rest == res.rest
  {
    var line := r.ReadToLF();
    match line
    case None => return Torn;
    case Some(l) =>
      if |l| < 2 || l[|l| - 2] != CR { return Corrupt; }
      res := Ok(l[..|l| - 2], r.rest);
      assert l[..|l| - 2] == old(r.rest)[..|l| - 2];
  }

  method NextInt(r: Reader) returns (res: Result<int64>)
    modifies r
    ensures res == ReadInt(old(r.rest))
    ensures res.Ok? ==> r.rest == res.rest
  {
    var line := NextLine(r);
    match line
    case Ok(l, rest) =>
      var n := ParseInt(l);
      match n {
        case Some(n) => res := Ok(n, rest);
        case None => res := Corrupt;
      }
    case Torn => res := Torn;
    case _ => res := Corrupt;
  }

  method NextBulk(r: Reader) returns (res: Result<Value>)
    modifies r
    ensures res == DecodeBulk(old(r.rest))
    ensures res.Ok? ==> r.rest == res.rest
  {
    var len := NextInt(r);
    match len
    case Torn => res := Torn;
    case CleanEof => res := Corrupt;
    case Corrupt => res := Corrupt;
    case Ok(n, rest) =>
      if n < 0 { return Ok(NullBulk, r.rest); }
      var buf := r.ReadFull(n + 2);
      match buf {
        case None => res := Torn;
        case Some(b) =>
          BodyRead(rest, n, b);
          if b[n] != CR || b[n + 1] != LF { return Corrupt; }
          res := Ok(Bulk(b[..n]), r.rest);
      }
  }

  lemma BodyRead(rest: bytes, n: nat, b: bytes)
    requires n + 2 <= |rest| && b == rest[..n + 2]
    ensures rest[n..n + 2] == CRLF <==> b[n] == CR && b[n + 1] == LF
    ensures rest[..n] == b[..n]
  {
    assert rest[n..n + 2] == [b[n], b[n + 1]];
  }

  /** Decode: one frame from the stream, with the three ways a stream can end. */
  method Next(r: Reader) returns (res: Result<Value>)
    modifies r
    ensures res == Decode(old(r.rest))
    ensures res.Ok? ==> r.rest == res.rest
    decreases |r.rest|, 0
  {
    var kind := r.ReadByte();
    if kind == None { return CleanEof; }
    if kind.value == PLUS || kind.value == MINUS {
      var line := NextLine(r);
      match line {
        case Ok(t, rest) => res := Ok(if kind.value == PLUS then SimpleString(t) else Error(t), rest);
        case Torn => res := Torn;
        case _ => res := Corrupt;
      }
    } else if kind.value == COLON {
      var n := NextInt(r);
      match n {
        case Ok(n, rest) => res := Ok(Integer(n), rest);
        case Torn => res := Torn;
        case _ => res := Corrupt;
      }
    } else if kind.value == DOLLAR {
      res := NextBulk(r);
    } else if kind.value == STAR {
      res := NextArray(r);
    } else {
      res := Corrupt;
    }
  }

  method NextArray(r: Reader) returns (res: Result<Value>)
    modifies r
    ensures res == DecodeArray(old(r.rest))
    ensures res.Ok? ==> r.rest == res.rest
    decreases |r.rest|, 0
  {
    var len := NextInt(r);
    match len
    case Torn => res := Torn;
    case CleanEof => res := Corrupt;
    case Corrupt => res := Corrupt;
    case Ok(n, _) =>
      if n < 0 { return Ok(NullArray, r.rest); }
      var items := NextItems(r, n);
      res := AsArray(items);
  }

  /** The loop of decodeArray. */
  method NextItems(r: Reader, n: nat) returns (res: Result<seq<Value>>)
    modifies r
    ensures res == DecodeItems(old(r.rest), n)
    ensures res.Ok? ==> r.rest == res.rest
    decreases |r.rest|, n + 1
  {
    ghost var size, whole := |r.rest|, DecodeItems(r.rest, n);
    var arr: seq<Value> := [];
    AfterNothing(whole);
    for i := 0 to n
      invariant |r.rest| <= size && whole == After(arr, DecodeItems(r.rest, n - i))
    {
      var item := NextItem(r, n - i, arr, whole);
      match item
      case Ok(v, _) => arr := arr + [v];
      case Corrupt => return Corrupt;
      case _ => return Torn;
    }
    ItemsDone(arr, r.rest);
    res := Ok(arr, r.rest);
  }

  /** One iteration of the array loop: whole is what the array will be read as, arr what was read of it. */
  method NextItem(r: Reader, n: nat, ghost arr: seq<Value>, ghost whole: Result<seq<Value>>) returns (item: Result<Value>)
    requires n > 0 && whole == After(arr, DecodeItems(r.rest, n))
    modifies r
    ensures item.Ok? ==> |r.rest| <= old(|r.rest|) && whole == After(arr + [item.value], DecodeItems(r.rest, n - 1))
    ensures item.Corrupt? ==> whole == Corrupt
    ensures item.Torn? || item.CleanEof? ==> whole == Torn
    decreases |r.rest|, n
  {
    ghost var s := r.rest;
    item := Next(r);
    ItemRead(arr, s, n, item);
  }

  lemma ItemsDone(arr: seq<Value>, s: bytes)
    ensures After(arr, DecodeItems(s, 0)) == Ok(arr, s)
  {
    assert arr + [] == arr;
  }

  /** What one iteration of the array loop does to the frames still to come. */
  lemma ItemRead(arr: seq<Value>, s: bytes, n: nat, item: Result<Value>)
    requires n > 0 && item == Decode(s)
    ensures item.Ok? ==> |item.rest| <= |s| && After(arr, DecodeItems(s, n)) == After(arr + [item.value], DecodeItems(item.rest, n - 1))
    ensures item.Corrupt? ==> After(arr, DecodeItems(s, n)) == Corrupt
    ensures item.Torn? || item.CleanEof? ==> After(arr, DecodeItems(s, n)) == Torn
  {
    if item.Ok? {
      AfterAfter(arr, item.value, DecodeItems(item.rest, n - 1));
    }
  }

  lemma AfterNothing(r: Result<seq<Value>>)
    requires !r.CleanEof?
    ensures After([], r) == r
  {
    if r.Ok? {
      assert [] + r.value == r.value;
    }
  }

  lemma AfterAfter(vs: seq<Value>, v: Value, r: Result<seq<Value>>)
    ensures After(vs, After([v], r)) == After(vs + [v], r)
  {
    if r.Ok? {
      assert vs + ([v] + r.value) == (vs + [v]) + r.value;
    }
  }

  /** An io.Writer that accepts every write. */
  class Writer {
    var out: bytes

    constructor ()
      ensures out == []
    {
      out := [];
    }

    method Write(b: bytes)
      modifies this
      ensures out == old(out) + b
    {
      out := out + b;
    }
  }

  /** Encode: appends one frame, an array element by element. */
  method Write(w: Writer, v: Value)
    modifies w
    ensures w.out == old(w.out) + Encode(v)
    decreases v, 1
  {
    match v
    case SimpleString(t) => w.Write(Line(PLUS, t));
    case Error(t) => w.Write(Line(MINUS, t));
    case Integer(n) => w.Write(Line(COLON, FormatInt(n)));
    case NullBulk => w.Write(Line(DOLLAR, FormatInt(-1)));
    case Bulk(d) =>
      w.Write(Line(DOLLAR, FormatInt(|d|)));
      w.Write(d);
      w.Write(CRLF);
      Concat4(old(w.out), Line(DOLLAR, FormatInt(|d|)), d, CRLF);
    case NullArray => w.Write(Line(STAR, FormatInt(-1)));
    case Array(es) =>
      w.Write(Line(STAR, FormatInt(|es|)));
      WriteAll(w, es);
      Concat4(old(w.out), Line(STAR, FormatInt(|es|)), EncodeAll(es), []);
  }

  lemma Concat4(a: bytes, b: bytes, c: bytes, d: bytes)
    ensures a + b + c + d == a + (b + c + d)
    ensures a + b + c == a + (b + c)
  {
  }

  /** The element loop of Encode. */
  method WriteAll(w: Writer, es: seq<Value>)
    modifies w
    ensures w.out == old(w.out) + EncodeAll(es)
    decreases es, 0
  {
    ghost var start := w.out;
    assert start + [] == start;
    for i := 0 to |es|
      invariant w.out == start + EncodeAll(es[..i])
    {
      Write(w, es[i]);
      OneMore(start, es, i);
    }
    assert es[..|es|] == es;
  }

  lemma OneMore(start: bytes, es: seq<Value>, i: nat)
    requires i < |es|
    ensures (start + EncodeAll(es[..i])) + Encode(es[i]) == start + EncodeAll(es[..i + 1])
  {
    EncodeAllSnoc(es, i);
    Concat4(start, EncodeAll(es[..i]), Encode(es[i]), []);
  }

  lemma EncodeAllSnoc(es: seq<Value>, i: nat)
    requires i < |es|
    ensures EncodeAll(es[..i + 1]) == EncodeAll(es[..i]) + Encode(es[i])
  {
    assert es[..i + 1] == es[..i] + [es[i]];
    EncodeAllConcat(es[..i], [es[i]]);
    EncodeAllOne(es[i]);
  }
}
