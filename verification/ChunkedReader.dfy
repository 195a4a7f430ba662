/** The buffered reader of a chunked response body (section 7.1 of RFC 9112) over a socket that splits the bytes as it
    likes. */
module ChunkedReader {
  import opened Bytes
  import opened Wrappers

  const CR: byte := 13
  const LF: byte := 10
  const CRLF: bytes := [CR, LF]

  /** What a read comes to: a value, no more bytes in time, or a size line that is no hexadecimal number. */
  datatype Outcome = Ok(data: bytes) | TimedOut | BadSize

  /** The position of the first CRLF. */
  function FirstCrlf(b: bytes): (r: Option<nat>)
    ensures r.Some? ==> r.value + 2 <= |b|
  {
    if |b| < 2 then None
    else if b[0] == CR && b[1] == LF then Some(0)
    else
      match FirstCrlf(b[1..])
      case None => None
      case Some(p) => Some(p + 1)
  }

  lemma {:induction false} FirstCrlfIsFirst(b: bytes)
    ensures match FirstCrlf(b)
      case None => forall i :: 0 <= i < |b| - 1 ==> !(b[i] == CR && b[i + 1] == LF)
      case Some(p) => b[p] == CR && b[p + 1] == LF && forall i :: 0 <= i < p ==> !(b[i] == CR && b[i + 1] == LF)
  {
    if |b| >= 2 && !(b[0] == CR && b[1] == LF) {
      FirstCrlfIsFirst(b[1..]);
      assert forall i :: 0 < i < |b| ==> b[i] == b[1..][i - 1];
    }
  }

  /** A CRLF that is there stays the first when more bytes arrive. */
  lemma {:induction false} FirstCrlfMore(a: bytes, b: bytes)
    requires FirstCrlf(a).Some?
    ensures FirstCrlf(a + b) == FirstCrlf(a)
  {
    if !(a[0] == CR && a[1] == LF) {
      FirstCrlfMore(a[1..], b);
      assert (a + b)[1..] == a[1..] + b;
    }
  }

  function HexDigit(d: byte): Option<nat> {
    if 48 <= d <= 57 then Some(d as nat - 48)
    else if 65 <= d <= 70 then Some(d as nat - 55)
    else if 97 <= d <= 102 then Some(d as nat - 87)
    else None
  }

  /** The number a line of hexadecimal digits stands for. */
  function Hex(line: bytes): Option<nat> {
    if line == [] then None
    else
      match HexDigit(line[|line| - 1])
      case None => None
      case Some(d) =>
        if |line| == 1 then Some(d)
        else
          match Hex(line[..|line| - 1])
          case None => None
          case Some(n) => Some(16 * n + d)
  }

  /** The size line a server writes for `n` ("%x" % n). */
  function HexOf(n: nat): bytes {
    var d := n % 16;
    (if n < 16 then [] else HexOf(n / 16)) + [if d < 10 then (48 + d) as byte else (87 + d) as byte]
  }

  lemma {:induction false} HexReadsHexOf(n: nat)
    ensures HexOf(n) != [] && Hex(HexOf(n)) == Some(n)
  {
    if n >= 16 {
      HexReadsHexOf(n / 16);
      assert HexOf(n)[..|HexOf(n)| - 1] == HexOf(n / 16);
    }
  }

  const LOWER: string := "0123456789abcdef"
  const UPPER: string := "0123456789ABCDEF"

  /** A byte is the digit `v` if and only if it is the `v`-th of the digits, in lower or upper case. */
  lemma HexDigitIsDigit(d: byte, v: nat)
    ensures HexDigit(d) == Some(v) <==> v < 16 && (d as int == LOWER[v] as int || d as int == UPPER[v] as int)
  {
    if v < 16 {
      assert LOWER[v] as int == if v < 10 then 48 + v else 87 + v;
      assert UPPER[v] as int == if v < 10 then 48 + v else 55 + v;
    }
  }

  /** The lower case writing of `n`, with any of its letters in upper case. */
  predicate SpellsSame(line: bytes, lower: bytes) {
    && |line| == |lower|
    && forall i :: 0 <= i < |line| ==> line[i] == lower[i] || (lower[i] >= 97 && line[i] == lower[i] - 32)
  }

  /** Every size written in hexadecimal is read back, in lower, upper or mixed case. */
  lemma {:induction false} HexReadsEitherCase(line: bytes, n: nat)
    requires SpellsSame(line, HexOf(n))
    ensures line != [] && Hex(line) == Some(n)
  {
    var lower := HexOf(n);
    if n >= 16 {
      assert lower[..|lower| - 1] == HexOf(n / 16);
      assert SpellsSame(line[..|line| - 1], HexOf(n / 16));
      HexReadsEitherCase(line[..|line| - 1], n / 16);
    }
  }

  /** A line is a size if and only if it is not empty and all its bytes are hexadecimal digits. */
  lemma {:induction false} HexIsSizeIffDigits(line: bytes)
    ensures Hex(line).Some? <==> line != [] && forall i :: 0 <= i < |line| ==> HexDigit(line[i]).Some?
  {
    if |line| > 1 {
      HexIsSizeIffDigits(line[..|line| - 1]);
      assert forall i :: 0 <= i < |line| - 1 ==> line[..|line| - 1][i] == line[i];
    }
  }

  /** One chunk as a function of all bytes still to come, and what comes after it. */
  function Chunk(all: bytes): (Outcome, bytes) {
    match FirstCrlf(all)
    case None => (TimedOut, all)
    case Some(p) =>
      match Hex(all[..p])
      case None => (BadSize, all[p + 2..])
      case Some(n) =>
        var rest := all[p + 2..];
        if |rest| < n + 2 then (TimedOut, []) else (Ok(rest[..n]), rest[n + 2..])
  }

  lemma ChunkShrinks(all: bytes)
    ensures Chunk(all).0.Ok? ==> |Chunk(all).1| < |all|
  {
  }

  /** The whole body as a function of all bytes to come: chunks until an empty one. */
  function Body(all: bytes): (Outcome, bytes)
    decreases |all|
  {
    var (c, rest) := Chunk(all);
    if !c.Ok? then (c, rest)
    else if c.data == [] then (Ok([]), rest)
    else
      ChunkShrinks(all);
      Prepend(c.data, Body(rest))
  }

  function Prepend(data: bytes, body: (Outcome, bytes)): (Outcome, bytes) {
    if body.0.Ok? then (Ok(data + body.0.data), body.1) else body
  }

  lemma PrependPrepend(a: bytes, b: bytes, body: (Outcome, bytes))
    ensures Prepend(a, Prepend(b, body)) == Prepend(a + b, body)
  {
    if body.0.Ok? {
      assert a + (b + body.0.data) == a + b + body.0.data;
    }
  }

  /** A failed chunk fails the body, an empty one ends it, any other comes in front of the rest. */
  lemma BodyStep(all: bytes)
    ensures var (c, rest) := Chunk(all);
      Body(all) ==
        if !c.Ok? then (c, rest)
        else if c.data == [] then (Ok([]), rest)
        else Prepend(c.data, Body(rest))
  {
    hide Hex, FirstCrlf;
  }

  class Response {
    var readBuffer: bytes
    var bufferStart: nat
    var incoming: bytes

    ghost predicate Valid()
      reads this
    {
      bufferStart <= |readBuffer|
    }

    /** Every byte not yet handed out: what is buffered and what the socket will still deliver. */
    ghost function All(): bytes
      requires Valid()
      reads this
    {
      readBuffer[bufferStart..] + incoming
    }

    constructor (incoming: bytes)
      ensures Valid() && All() == incoming
    {
      readBuffer, bufferStart, this.incoming := [], 0, incoming;
    }

    /** The socket gives any nonempty front of what is to come, at most `toRead` bytes; nothing more in time is None. */
    method Recv(toRead: nat) returns (data: Option<bytes>)
      requires toRead >= 1
      modifies `incoming
      ensures data.None? <==> old(incoming) == []
      ensures data.None? ==> incoming == old(incoming)
      ensures data.Some? ==> 1 <= |data.value| <= toRead && old(incoming) == data.value + incoming
    {
      if incoming == [] {
        return None;
      }
      assert 1 <= 1 <= toRead && 1 <= |incoming|;
      var k: nat :| 1 <= k <= toRead && k <= |incoming|;
      assert incoming == incoming[..k] + incoming[k..];
      data := Some(incoming[..k]);
      incoming := incoming[k..];
    }

    method ReadLine() returns (line: Option<bytes>)
      requires Valid()
      modifies this
      ensures Valid()
      ensures match FirstCrlf(old(All()))
        case None => line == None && All() == old(All())
        case Some(p) => line == Some(old(All())[..p]) && All() == old(All())[p + 2..]
    {
      ghost var all := All();
      while true
        invariant Valid() && All() == all
        decreases |incoming|
      {
        var p := FirstCrlf(readBuffer[bufferStart..]);
        ghost var unread := readBuffer[bufferStart..];
        if p.Some? {
          FirstCrlfMore(unread, incoming);
          assert all[..p.value] == readBuffer[bufferStart..bufferStart + p.value];
          line := Some(readBuffer[bufferStart..bufferStart + p.value]);
          bufferStart := bufferStart + p.value + 2;
          assert readBuffer[bufferStart..] == unread[p.value + 2..];
          assert all[p.value + 2..] == unread[p.value + 2..] + incoming;
          return;
        }
        var data := Recv(8192);
        if data.None? {
          assert all == unread + [];
          assert unread + [] == unread;
          return None;
        }
        ghost var buffer := readBuffer;
        readBuffer := readBuffer + data.value;
        assert readBuffer[bufferStart..] == unread + data.value;
        assert unread + (data.value + incoming) == unread + data.value + incoming;
      }
    }

    /** Exactly `n` bytes, for n > 0; the empty string for 0. */
    method ReadPlain(n: nat) returns (data: Option<bytes>)
      requires Valid()
      modifies this
      ensures Valid()
      ensures |old(All())| >= n ==> data == Some(old(All())[..n]) && All() == old(All())[n..]
      ensures |old(All())| < n ==> data == None && All() == []
    {
      ghost var all := All();
      if n == 0 {
        return Some([]);
      }
      if |readBuffer| - bufferStart > n {
        assert all[..n] == readBuffer[bufferStart..bufferStart + n];
        data := Some(readBuffer[bufferStart..bufferStart + n]);
        ghost var unread := readBuffer[bufferStart..];
        bufferStart := bufferStart + n;
        assert readBuffer[bufferStart..] == unread[n..];
        assert all[n..] == unread[n..] + incoming;
        // More than n bytes were buffered, so the program's reset of an emptied buffer cannot happen here.
        return;
      }
      var out := readBuffer[bufferStart..];
      readBuffer, bufferStart := [], 0;
      while |out| < n
        invariant Valid() && readBuffer == [] && bufferStart == 0 && |out| <= n && out + incoming == all
        decreases |incoming|
      {
        var more := Recv(Min(n - |out|, 65535));
        if more.None? {
          assert readBuffer[bufferStart..] + incoming == [];
          return None;
        }
        assert out + (more.value + incoming) == out + more.value + incoming;
        out := out + more.value;
      }
      assert all[..n] == out && all[n..] == incoming;
      assert readBuffer[bufferStart..] + incoming == incoming;
      data := Some(out);
    }

    method ReadChunk() returns (c: Outcome)
      requires Valid()
      modifies this
      ensures Valid() && (c, All()) == Chunk(old(All()))
    {
      ghost var all := All();
      var line := ReadLine();
      if line.None? {
        return TimedOut;
      }
      var size := Hex(line.value);
      if size.None? {
        return BadSize;
      }
      var dat := ReadPlain(size.value + 2);
      if dat.None? {
        return TimedOut;
      }
      ghost var rest := all[FirstCrlf(all).value + 2..];
      assert rest[..size.value + 2][..size.value] == rest[..size.value];
      c := Ok(dat.value[..|dat.value| - 2]);
    }

    /** However the socket splits the bytes, the result and what is left depend only on the bytes. */
    method ReadAll() returns (body: Outcome)
      requires Valid()
      modifies this
      ensures Valid() && (body, All()) == Body(old(All()))
    {
      hide Chunk, Body, Hex, FirstCrlf;
      ghost var all := All();
      var out: bytes := [];
      assert Body(all).0.Ok? ==> [] + Body(all).0.data == Body(all).0.data;
      while true
        invariant Valid() && Body(all) == Prepend(out, Body(All()))
        decreases |All()|
      {
        ghost var before := All();
        ChunkShrinks(before);
        BodyStep(before);
        var c := ReadChunk();
        if !c.Ok? {
          return c;
        }
        if c.data == [] {
          assert out + [] == out;
          return Ok(out);
        }
        PrependPrepend(out, c.data, Body(All()));
        out := out + c.data;
      }
    }
  }

  /** A chunk with its size line. */
  datatype Sized = Sized(size: bytes, data: bytes)

  predicate WellSized(c: Sized) {
    Hex(c.size) == Some(|c.data|)
  }

  /** The bytes of a body: nonempty chunks and a last chunk of size zero, without extensions or trailers. */
  function Encode(chunks: seq<Sized>, last: bytes): bytes {
    if chunks == [] then last + CRLF + CRLF
    else chunks[0].size + CRLF + chunks[0].data + CRLF + Encode(chunks[1..], last)
  }

  function Joined(chunks: seq<Sized>): bytes {
    if chunks == [] then [] else chunks[0].data + Joined(chunks[1..])
  }

  lemma {:induction false} HexHasNoCr(line: bytes, i: nat)
    requires Hex(line).Some? && i < |line|
    ensures line[i] != CR
  {
    if i < |line| - 1 {
      HexHasNoCr(line[..|line| - 1], i);
    }
  }

  lemma {:induction false} LineEnds(line: bytes, rest: bytes)
    requires forall i :: 0 <= i < |line| ==> line[i] != CR
    ensures FirstCrlf(line + CRLF + rest) == Some(|line|)
  {
    var all := line + CRLF + rest;
    if line != [] {
      LineEnds(line[1..], rest);
      assert all[1..] == line[1..] + CRLF + rest;
    }
  }

  lemma ChunkOf(size: bytes, data: bytes, rest: bytes)
    requires Hex(size) == Some(|data|)
    ensures Chunk(size + CRLF + (data + CRLF + rest)) == (Ok(data), rest)
  {
    forall i | 0 <= i < |size| ensures size[i] != CR {
      HexHasNoCr(size, i);
    }
    var after := data + CRLF + rest;
    var all := size + CRLF + after;
    LineEnds(size, after);
    assert all[..|size|] == size;
    assert all[|size| + 2..] == after;
    assert after[..|data|] == data && after[|data| + 2..] == rest;
  }

  /** Reading an encoded body gives the joined chunk data and leaves exactly what follows the body. */
  lemma {:induction false} BodyOfEncoded(chunks: seq<Sized>, last: bytes, tail: bytes)
    requires forall i :: 0 <= i < |chunks| ==> WellSized(chunks[i]) && chunks[i].data != []
    requires Hex(last) == Some(0)
    ensures Body(Encode(chunks, last) + tail) == (Ok(Joined(chunks)), tail)
  {
    hide Chunk, Body, Hex, FirstCrlf;
    if chunks == [] {
      ChunkOf(last, [], tail);
      assert Encode(chunks, last) + tail == last + CRLF + ([] + CRLF + tail);
      BodyStep(Encode(chunks, last) + tail);
    } else {
      var c, more := chunks[0], Encode(chunks[1..], last) + tail;
      ChunkOf(c.size, c.data, more);
      assert Encode(chunks, last) + tail == c.size + CRLF + (c.data + CRLF + more);
      BodyStep(Encode(chunks, last) + tail);
      BodyOfEncoded(chunks[1..], last, tail);
    }
  }

  lemma {:induction false} NoCrNoLine(line: bytes)
    requires forall i :: 0 <= i < |line| - 1 ==> line[i] != CR
    ensures FirstCrlf(line) == None
  {
    if |line| >= 2 {
      NoCrNoLine(line[1..]);
    }
  }

  /** A chunk that is cut short is waited for in vain. */
  lemma CutChunkTimesOut(size: bytes, data: bytes, m: nat)
    requires Hex(size) == Some(|data|) && m < |size + CRLF + (data + CRLF)|
    ensures Chunk((size + CRLF + (data + CRLF))[..m]).0 == TimedOut
  {
    forall i | 0 <= i < |size| ensures size[i] != CR {
      HexHasNoCr(size, i);
    }
    var all := size + CRLF + (data + CRLF);
    var cut := all[..m];
    if m < |size| + 2 {
      NoCrNoLine(cut);
    } else {
      assert cut == size + CRLF + cut[|size| + 2..];
      LineEnds(size, cut[|size| + 2..]);
      assert cut[..|size|] == size;
    }
  }

  /** An encoded body that stops anywhere before its end times out; it is never taken for a shorter one. */
  lemma {:induction false} CutBodyTimesOut(chunks: seq<Sized>, last: bytes, m: nat)
    requires forall i :: 0 <= i < |chunks| ==> WellSized(chunks[i]) && chunks[i].data != []
    requires Hex(last) == Some(0) && m < |Encode(chunks, last)|
    ensures Body(Encode(chunks, last)[..m]).0 == TimedOut
  {
    hide Chunk, Body, Hex, FirstCrlf;
    var all := Encode(chunks, last);
    if chunks == [] {
      assert all == last + CRLF + ([] + CRLF);
      CutChunkTimesOut(last, [], m);
      BodyStep(all[..m]);
    } else {
      var c, more := chunks[0], Encode(chunks[1..], last);
      var one := c.size + CRLF + (c.data + CRLF);
      assert all == one + more;
      if m < |one| {
        assert all[..m] == one[..m];
        CutChunkTimesOut(c.size, c.data, m);
      } else {
        assert all[..m] == one + more[..m - |one|];
        assert one + more[..m - |one|] == c.size + CRLF + (c.data + CRLF + more[..m - |one|]);
        ChunkOf(c.size, c.data, more[..m - |one|]);
        CutBodyTimesOut(chunks[1..], last, m - |one|);
      }
      BodyStep(all[..m]);
    }
  }

  /** A size line that is not a hexadecimal number ends the body in an exception, with the line consumed. */
  lemma BadSizeRaises(line: bytes, rest: bytes)
    requires forall i :: 0 <= i < |line| ==> line[i] != CR
    requires line == [] || exists i :: 0 <= i < |line| && HexDigit(line[i]).None?
    ensures Body(line + CRLF + rest) == (BadSize, rest)
  {
    hide Hex, FirstCrlf;
    HexIsSizeIffDigits(line);
    LineEnds(line, rest);
    var all := line + CRLF + rest;
    assert all[..|line|] == line && all[|line| + 2..] == rest;
    BodyStep(all);
  }

  /** So reading is independent of segmentation: any socket that delivers the body, however split, yields its data. */
  method ReadEncoded(chunks: seq<Sized>, last: bytes, tail: bytes) returns (body: Outcome, r: Response)
    requires forall i :: 0 <= i < |chunks| ==> WellSized(chunks[i]) && chunks[i].data != []
    requires Hex(last) == Some(0)
    ensures body == Ok(Joined(chunks)) && r.Valid() && r.All() == tail
  {
    r := new Response(Encode(chunks, last) + tail);
    BodyOfEncoded(chunks, last, tail);
    body := r.ReadAll();
  }
}
