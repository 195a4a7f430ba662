/** The two byte buffers of the tunnel and the reply that is read through them. */
module Buffers {
  import opened Bytes
  import opened Records

  /** A list of pieces with a running length, joined on demand. */
  class WriteBuffer {
    var bufferList: seq<bytes>
    var stringLen: nat

    ghost predicate Valid()
      reads this
    {
      stringLen == |Contents()|
    }

    ghost function Contents(): bytes
      reads this
    {
      Flatten(bufferList)
    }

    constructor (s: bytes)
      ensures Valid() && Contents() == s
    {
      bufferList, stringLen := [s], |s|;
      new;
      FlattenSnoc([], s);
      assert [] + [s] == [s];
    }

    constructor Empty()
      ensures Valid() && Contents() == []
    {
      bufferList, stringLen := [], 0;
    }

    method Append(s: bytes)
      requires Valid()
      modifies this
      ensures Valid() && Contents() == old(Contents()) + s
    {
      FlattenSnoc(bufferList, s);
      bufferList := bufferList + [s];
      stringLen := stringLen + |s|;
    }

    method Insert(s: bytes)
      requires Valid()
      modifies this
      ensures Valid() && Contents() == s + old(Contents())
    {
      bufferList := [s] + bufferList;
      stringLen := stringLen + |s|;
      assert bufferList[1..] == old(bufferList);
    }

    method AppendBuffer(s: WriteBuffer)
      requires Valid() && s.Valid()
      modifies this
      ensures Valid() && Contents() == old(Contents()) + old(s.Contents())
    {
      FlattenConcat(bufferList, s.bufferList);
      bufferList, stringLen := bufferList + s.bufferList, stringLen + s.stringLen;
    }

    method ToBytes() returns (r: bytes)
      ensures r == Contents()
    {
      r := [];
      for i := 0 to |bufferList|
        invariant r == Flatten(bufferList[..i])
      {
        FlattenSnoc(bufferList[..i], bufferList[i]);
        assert bufferList[..i + 1] == bufferList[..i] + [bufferList[i]];
        r := r + bufferList[i];
      }
      assert bufferList[..|bufferList|] == bufferList;
    }
  }

  /** A window `begin, size` on bytes that reading moves forward. */
  class ReadBuffer {
    const buf: bytes
    var begin: nat
    var size: nat

    ghost predicate Valid()
      reads this
    {
      begin + size <= |buf|
    }

    ghost function Contents(): bytes
      requires Valid()
      reads this
    {
      buf[begin..begin + size]
    }

    constructor (buf: bytes, begin: nat, size: nat)
      requires begin + size <= |buf|
      ensures Valid() && Contents() == buf[begin..begin + size]
    {
      this.buf, this.begin, this.size := buf, begin, size;
    }

    /** Asking for more than is left gives what is left. */
    method Get(n: nat) returns (data: bytes)
      requires Valid()
      modifies this
      ensures Valid()
      ensures data == old(Contents())[..Min(n, |old(Contents())|)]
      ensures Contents() == old(Contents())[Min(n, |old(Contents())|)..]
    {
      var k := if n > size then size else n;
      data := buf[begin..begin + k];
      begin, size := begin + k, size - k;
    }

    method GetBuf(n: nat) returns (data: ReadBuffer)
      requires Valid()
      modifies this
      ensures Valid() && data.Valid() && fresh(data)
      ensures data.Contents() == old(Contents())[..Min(n, |old(Contents())|)]
      ensures Contents() == old(Contents())[Min(n, |old(Contents())|)..]
    {
      var k := if n > size then size else n;
      data := new ReadBuffer(buf, begin, k);
      begin, size := begin + k, size - k;
    }
  }

  /** What two reads take off the front is the first record of the parse. */
  lemma ParseOne(before: bytes, after: bytes, head: bytes, payload: bytes)
    requires |before| >= 8 && head == before[..8]
    requires var n := Min(FromLE(head[4..]), |before| - 8);
      payload == before[8..][..n] && after == before[8..][n..]
    ensures Parse(before) == Prepend([Record(FromLE(head[..4]), payload)], Parse(after))
  {
    var n := Min(FromLE(head[4..]), |before| - 8);
    assert before[..4] == head[..4] && before[4..8] == head[4..];
    assert payload == before[8..8 + n] && after == before[8 + n..];
  }

  lemma PrependLater(rs: seq<Record>, r: Record, p: Parsed)
    ensures Prepend(rs + [r], p) == Prepend(rs, Prepend([r], p))
  {
    assert rs + [r] + p.records == rs + ([r] + p.records);
  }

  /** The record loop of `round_trip_process` and `download_data_processor`: records in order of the bytes, and
      whether the loop ended by itself rather than by the exception of a short header. */
  method ReadRecords(data: ReadBuffer) returns (records: seq<Record>, complete: bool)
    requires data.Valid()
    modifies data
    ensures Parsed(records, complete) == Parse(old(data.Contents()))
  {
    records := [];
    while data.size > 0
      invariant data.Valid()
      invariant Prepend(records, Parse(data.Contents())) == Parse(old(data.Contents()))
      decreases data.size
    {
      ghost var before := data.Contents();
      ghost var was := records;
      var head := data.Get(8);
      if |head| < 8 {
        assert records + [] == records;
        return records, false;
      }
      var id, n := FromLE(head[..4]), FromLE(head[4..]);
      var payload := data.Get(n);
      ParseOne(before, data.Contents(), head, payload);
      records := records + [Record(id, payload)];
      PrependLater(was, Record(id, payload), Parse(data.Contents()));
    }
    assert records + [] == records;
    return records, true;
  }

  datatype Reply =
    | Sections(data: bytes, ack: bytes, rcvdNo: bytes, sentNo: bytes, unackSn: bytes, ext: bytes)
    | Refused

  const HEAD_LEN: nat := 43

  /** The six length fields, the last 24 bytes of the 43 byte reply head. */
  function LengthField(content: bytes, i: nat): nat
    requires i < 6 && HEAD_LEN <= |content|
  {
    FromLE(content[19 + 4 * i..23 + 4 * i])
  }

  function LengthSum(content: bytes, n: nat): nat
    requires n <= 6 && HEAD_LEN <= |content|
  {
    if n == 0 then 0 else LengthSum(content, n - 1) + LengthField(content, n - 1)
  }

  /** A data reply of this protocol version whose lengths leave room for the head. */
  predicate WellFormed(content: bytes, version: nat) {
    && |content| >= HEAD_LEN && content[0] == 'P' as byte && content[1] as nat == version && content[2] == 2
    && HEAD_LEN + LengthSum(content, 6) <= |content|
  }

  /** Where the i-th section starts when nothing is cut. */
  function Section(content: bytes, i: nat): bytes
    requires i < 6 && HEAD_LEN <= |content|
    requires HEAD_LEN + LengthSum(content, 6) <= |content|
  {
    assert LengthSum(content, i + 1) <= LengthSum(content, 6) by { SumGrows(content, i + 1); }
    content[HEAD_LEN + LengthSum(content, i)..HEAD_LEN + LengthSum(content, i + 1)]
  }

  lemma {:induction false} SumGrows(content: bytes, i: nat)
    requires i <= 6 && HEAD_LEN <= |content|
    ensures LengthSum(content, i) <= LengthSum(content, 6)
    decreases 6 - i
  {
    if i < 6 {
      SumGrows(content, i + 1);
    }
  }

  /** The six `get_buf` calls. */
  method ReadSections(content: bytes, payload: ReadBuffer, n: seq<nat>) returns (sections: seq<bytes>)
    requires payload.Valid() && HEAD_LEN <= |content| && HEAD_LEN + LengthSum(content, 6) <= |content|
    requires payload.Contents() == content[HEAD_LEN..]
    requires |n| == 6 && forall j :: 0 <= j < 6 ==> n[j] == LengthField(content, j)
    modifies payload
    ensures |sections| == 6 && forall j :: 0 <= j < 6 ==> sections[j] == Section(content, j)
  {
    sections := [];
    for i := 0 to 6
      invariant payload.Valid() && |sections| == i
      invariant HEAD_LEN + LengthSum(content, i) <= |content|
      invariant payload.Contents() == content[HEAD_LEN + LengthSum(content, i)..]
      invariant forall j :: 0 <= j < i ==> sections[j] == Section(content, j)
    {
      SumGrows(content, i + 1);
      var s := payload.Get(n[i]);
      assert s == Section(content, i);
      sections := sections + [s];
    }
  }

  /** The length fields and what is left for the head once every section is subtracted. */
  method ReadLengths(content: bytes, fields: bytes) returns (n: seq<nat>, headLen: int)
    requires |content| >= HEAD_LEN && fields == content[3..HEAD_LEN]
    ensures |n| == 6 && forall j :: 0 <= j < 6 ==> n[j] == LengthField(content, j)
    ensures headLen == |content| - LengthSum(content, 6)
  {
    n, headLen := [], |content|;
    for i := 0 to 6
      invariant |n| == i && forall j :: 0 <= j < i ==> n[j] == LengthField(content, j)
      invariant headLen == |content| - LengthSum(content, i)
    {
      SliceOfSlice(content, 3, HEAD_LEN, 16 + 4 * i, 20 + 4 * i);
      n := n + [FromLE(fields[16 + 4 * i..20 + 4 * i])];
      headLen := headLen - n[i];
    }
  }

  /** A data reply (pack type 2) with encryption off. It is refused exactly when it is no such reply or the length
      check fails; when accepted the six sections are exact consecutive slices: no read was cut by the buffer. */
  method ReadReply(content: bytes, version: nat) returns (r: Reply)
    ensures r.Sections? <==> WellFormed(content, version)
    ensures r.Sections? ==>
      && r.data == Section(content, 0) && r.ack == Section(content, 1) && r.rcvdNo == Section(content, 2)
      && r.sentNo == Section(content, 3) && r.unackSn == Section(content, 4) && r.ext == Section(content, 5)
  {
    var payload := new ReadBuffer(content, 0, |content|);
    assert payload.Contents() == content;
    var head := payload.Get(3);
    if |head| < 3 || head[0] != 'P' as byte || head[1] as nat != version || head[2] != 2 {
      return Refused;
    }
    var fields := payload.Get(40);
    if |fields| < 40 {
      return Refused;
    }
    var n, headLen := ReadLengths(content, fields);
    if headLen < 3 + 40 {
      return Refused;
    }
    var s := ReadSections(content, payload, n);
    r := Sections(s[0], s[1], s[2], s[3], s[4], s[5]);
  }

  /** A reply written with the true lengths in its head. */
  function BuildReply(head: bytes, parts: seq<bytes>, trailer: bytes): bytes {
    head + Flatten(Lengths(parts)) + Flatten(parts) + trailer
  }

  function Lengths(parts: seq<bytes>): (r: seq<bytes>)
    ensures |r| == |parts| && forall i :: 0 <= i < |r| ==> r[i] == LE(|parts[i]|, 4)
  {
    seq(|parts|, i requires 0 <= i < |parts| => LE(|parts[i]|, 4))
  }

  /** Pieces of four bytes sit at multiples of four. */
  lemma {:induction false} FlattenAt(pieces: seq<bytes>, i: nat)
    requires i < |pieces| && forall j :: 0 <= j < |pieces| ==> |pieces[j]| == 4
    ensures |Flatten(pieces)| == 4 * |pieces|
    ensures Flatten(pieces)[4 * i..4 * (i + 1)] == pieces[i]
  {
    var rest := Flatten(pieces[1..]);
    if |pieces| > 1 {
      FlattenAt(pieces[1..], if i == 0 then 0 else i - 1);
      if i > 0 {
        assert Flatten(pieces)[4 * i..4 * (i + 1)] == rest[4 * (i - 1)..4 * i];
      } else {
        assert Flatten(pieces)[..4] == pieces[0];
      }
    } else {
      assert pieces[1..] == [];
      assert Flatten(pieces) == pieces[0];
    }
  }

  lemma ReplyField(head: bytes, parts: seq<bytes>, trailer: bytes, i: nat)
    requires |head| == 19 && |parts| == 6 && i < 6 && |parts[i]| < U32
    ensures |BuildReply(head, parts, trailer)| == HEAD_LEN + |Flatten(parts)| + |trailer|
    ensures LengthField(BuildReply(head, parts, trailer), i) == |parts[i]|
  {
    hide LE, FromLE, Flatten;
    var lens := Flatten(Lengths(parts));
    FlattenAt(Lengths(parts), i);
    MiddleSlice(head, lens, Flatten(parts) + trailer, 4 * i, 4 * (i + 1));
    assert head + lens + (Flatten(parts) + trailer) == BuildReply(head, parts, trailer);
    U32RoundTrip(|parts[i]|);
  }

  lemma {:induction false} ReplySum(head: bytes, parts: seq<bytes>, trailer: bytes, i: nat)
    requires |head| == 19 && |parts| == 6 && i <= 6
    requires forall j :: 0 <= j < 6 ==> |parts[j]| < U32
    ensures |BuildReply(head, parts, trailer)| == HEAD_LEN + |Flatten(parts)| + |trailer|
    ensures LengthSum(BuildReply(head, parts, trailer), i) == |Flatten(parts[..i])|
  {
    ReplyField(head, parts, trailer, if i == 0 then 0 else i - 1);
    if i > 0 {
      ReplySum(head, parts, trailer, i - 1);
      FlattenSnoc(parts[..i - 1], parts[i - 1]);
      assert parts[..i] == parts[..i - 1] + [parts[i - 1]];
    }
  }

  /** Any reply built from six sections and any trailer is read back as exactly those sections. */
  lemma ReplyRoundTrip(head: bytes, parts: seq<bytes>, trailer: bytes, i: nat)
    requires |head| == 19 && |parts| == 6 && i < 6
    requires forall j :: 0 <= j < 6 ==> |parts[j]| < U32
    ensures HEAD_LEN <= |BuildReply(head, parts, trailer)|
    ensures HEAD_LEN + LengthSum(BuildReply(head, parts, trailer), 6) <= |BuildReply(head, parts, trailer)|
    ensures Section(BuildReply(head, parts, trailer), i) == parts[i]
  {
    ReplySum(head, parts, trailer, 6);
    ReplySum(head, parts, trailer, i);
    ReplySum(head, parts, trailer, i + 1);
    assert parts[..6] == parts;
    PieceOf(parts, i);
    FlattenAt(Lengths(parts), 0);
    MiddleSlice(head + Flatten(Lengths(parts)), Flatten(parts), trailer, |Flatten(parts[..i])|,
      |Flatten(parts[..i + 1])|);
  }

  /** The i-th piece lies between its two cuts. */
  ghost predicate CutAt(s: bytes, cuts: seq<nat>, pieces: seq<bytes>, i: nat)
    requires i < |pieces| && |cuts| == |pieces| + 1
  {
    cuts[i] <= cuts[i + 1] <= |s| && pieces[i] == s[cuts[i]..cuts[i + 1]]
  }

  lemma {:induction false} FlattenCuts(s: bytes, cuts: seq<nat>, pieces: seq<bytes>)
    requires |cuts| == |pieces| + 1 && cuts[0] <= |s|
    requires forall i: nat :: i < |pieces| ==> CutAt(s, cuts, pieces, i)
    ensures cuts[0] <= cuts[|pieces|] <= |s| && Flatten(pieces) == s[cuts[0]..cuts[|pieces|]]
    decreases |pieces|
  {
    if pieces != [] {
      assert CutAt(s, cuts, pieces, 0);
      forall i: nat | i < |pieces[1..]| ensures CutAt(s, cuts[1..], pieces[1..], i) {
        assert CutAt(s, cuts, pieces, i + 1);
      }
      FlattenCuts(s, cuts[1..], pieces[1..]);
      JoinSlices(s, cuts[0], cuts[1], cuts[|pieces|]);
    }
  }

  lemma JoinSlices(s: bytes, a: nat, b: nat, c: nat)
    requires a <= b <= c <= |s|
    ensures s[a..b] + s[b..c] == s[a..c]
  {
  }

  /** A data reply of this version in parts: a head of 19 bytes, six sections behind their lengths, and what follows. */
  ghost predicate IsReply(content: bytes, version: nat, head: bytes, parts: seq<bytes>, trailer: bytes) {
    && |head| == 19 && head[0] == 'P' as byte && head[1] as nat == version && head[2] == 2
    && |parts| == 6 && (forall j :: 0 <= j < 6 ==> |parts[j]| < U32)
    && content == BuildReply(head, parts, trailer)
  }

  lemma BuiltIsWellFormed(content: bytes, version: nat, head: bytes, parts: seq<bytes>, trailer: bytes)
    requires IsReply(content, version, head, parts, trailer)
    ensures WellFormed(content, version) && |content| - HEAD_LEN - LengthSum(content, 6) == |trailer|
  {
    hide LengthSum, Lengths, Flatten;
    ReplySum(head, parts, trailer, 6);
    assert parts[..6] == parts;
    assert content[..3] == head[..3];
  }

  lemma SectionsFlatten(content: bytes, parts: seq<bytes>)
    requires HEAD_LEN <= |content| && HEAD_LEN + LengthSum(content, 6) <= |content| && |parts| == 6
    requires forall i :: 0 <= i < 6 ==> parts[i] == Section(content, i)
    ensures Flatten(parts) == content[HEAD_LEN..HEAD_LEN + LengthSum(content, 6)]
  {
    hide LengthSum, LengthField, Flatten;
    SumSteps(content);
    var cuts := seq(7, i requires 0 <= i <= 6 => HEAD_LEN + LengthSum(content, i));
    forall i: nat | i < 6 ensures CutAt(content, cuts, parts, i) {
      assert parts[i] == Section(content, i);
    }
    FlattenCuts(content, cuts, parts);
  }

  lemma LengthsFlatten(content: bytes, parts: seq<bytes>)
    requires HEAD_LEN <= |content| && |parts| == 6
    requires forall i :: 0 <= i < 6 ==> |parts[i]| == LengthField(content, i)
    ensures Flatten(Lengths(parts)) == content[19..HEAD_LEN]
    ensures forall i :: 0 <= i < 6 ==> |parts[i]| < U32
  {
    hide LengthField, FromLE, LE, Flatten;
    var cuts := seq(7, i requires 0 <= i <= 6 => 19 + 4 * i);
    Widths();
    forall i: nat | i < 6 ensures CutAt(content, cuts, Lengths(parts), i) && |parts[i]| < U32 {
      PackUnpack(content[19 + 4 * i..23 + 4 * i]);
      FieldIs(content, i);
    }
    FlattenCuts(content, cuts, Lengths(parts));
  }

  /** The check accepts nothing else: what passes it is such a reply, of exactly the sections it is cut into. */
  lemma WellFormedIsBuilt(content: bytes, version: nat) returns (head: bytes, parts: seq<bytes>, trailer: bytes)
    requires WellFormed(content, version)
    ensures IsReply(content, version, head, parts, trailer)
    ensures forall i :: 0 <= i < 6 ==> parts[i] == Section(content, i)
    ensures |trailer| == |content| - HEAD_LEN - LengthSum(content, 6)
  {
    hide LengthSum, LengthField, FromLE, LE, Flatten;
    var end := HEAD_LEN + LengthSum(content, 6);
    head, trailer := content[..19], content[end..];
    parts := seq(6, i requires 0 <= i < 6 => Section(content, i));
    SumSteps(content);
    SectionsFlatten(content, parts);
    LengthsFlatten(content, parts);
    JoinSlices(content, 0, 19, HEAD_LEN);
    JoinSlices(content, 0, HEAD_LEN, end);
    JoinSlices(content, 0, end, |content|);
    assert content[0..|content|] == content;
  }

  lemma FieldIs(content: bytes, i: nat)
    requires i < 6 && HEAD_LEN <= |content|
    ensures LengthField(content, i) == FromLE(content[19 + 4 * i..23 + 4 * i])
  {
  }

  lemma SumSteps(content: bytes)
    requires HEAD_LEN <= |content|
    ensures LengthSum(content, 0) == 0
    ensures forall i :: 0 <= i < 6 ==> LengthSum(content, i + 1) == LengthSum(content, i) + LengthField(content, i)
    ensures forall i :: 0 <= i <= 6 ==> LengthSum(content, i) <= LengthSum(content, 6)
  {
    hide LengthField;
    forall i | 0 <= i <= 6 ensures LengthSum(content, i) <= LengthSum(content, 6) {
      SumGrows(content, i);
    }
  }

  lemma PieceOf(parts: seq<bytes>, i: nat)
    requires i < |parts|
    ensures |Flatten(parts[..i])| <= |Flatten(parts[..i + 1])| <= |Flatten(parts)|
    ensures Flatten(parts)[|Flatten(parts[..i])|..|Flatten(parts[..i + 1])|] == parts[i]
  {
    assert parts[..i + 1] == parts[..i] + [parts[i]];
    FlattenSnoc(parts[..i], parts[i]);
    FlattenPrefix(parts, i + 1);
    MiddleSlice(Flatten(parts[..i]), parts[i], Flatten(parts)[|Flatten(parts[..i + 1])|..], 0, |parts[i]|);
  }

  /** Listed entries `<Id`: the numbers with their times, and whether as many as announced were there; where they were
      not, `struct.unpack` raises. */
  datatype Entries = Entries(list: seq<(nat, real)>, complete: bool)

  /** `time` decodes the eight bytes of a double. */
  function EntriesOf(b: bytes, n: nat, time: bytes -> real): Entries
    decreases n
  {
    if n == 0 then Entries([], true)
    else if |b| < 12 then Entries([], false)
    else
      var rest := EntriesOf(b[12..], n - 1, time);
      Entries([(FromLE(b[..4]), time(b[4..12]))] + rest.list, rest.complete)
  }

  /** Entries as a peer packs them: each number with the eight bytes of its time. */
  function EntryBytes(list: seq<(nat, bytes)>): bytes {
    if list == [] then [] else LE(list[0].0, 4) + list[0].1 + EntryBytes(list[1..])
  }

  ghost predicate EntriesFit(list: seq<(nat, bytes)>) {
    forall i :: 0 <= i < |list| ==> list[i].0 < U32 && |list[i].1| == 8
  }

  function Timed(list: seq<(nat, bytes)>, time: bytes -> real): (r: seq<(nat, real)>)
    ensures |r| == |list| && forall i :: 0 <= i < |r| ==> r[i] == (list[i].0, time(list[i].1))
  {
    seq(|list|, i requires 0 <= i < |list| => (list[i].0, time(list[i].1)))
  }

  lemma FirstEntry(list: seq<(nat, bytes)>, rest: bytes)
    requires EntriesFit(list) && list != []
    ensures var b := EntryBytes(list) + rest;
      && |b| >= 12 && FromLE(b[..4]) == list[0].0 && b[4..12] == list[0].1
      && b[12..] == EntryBytes(list[1..]) + rest && EntriesFit(list[1..])
  {
    hide LE, FromLE;
    assert EntryBytes(list) == LE(list[0].0, 4) + list[0].1 + EntryBytes(list[1..]);
    EntryPieces(LE(list[0].0, 4), list[0].1, EntryBytes(list[1..]), rest);
    U32RoundTrip(list[0].0);
    assert forall i :: 0 <= i < |list[1..]| ==> list[1..][i] == list[i + 1];
  }

  lemma EntryPieces(a: bytes, b: bytes, c: bytes, rest: bytes)
    requires |a| == 4 && |b| == 8
    ensures var all := a + b + c + rest; all[..4] == a && all[4..12] == b && all[12..] == c + rest
  {
  }

  /** Packed entries are read back, whatever follows. */
  lemma {:induction false} EntriesRoundTrip(list: seq<(nat, bytes)>, tail: bytes, time: bytes -> real)
    requires EntriesFit(list)
    ensures EntriesOf(EntryBytes(list) + tail, |list|, time) == Entries(Timed(list, time), true)
  {
    hide LE, FromLE;
    if list != [] {
      FirstEntry(list, tail);
      EntriesRoundTrip(list[1..], tail, time);
      assert Timed(list, time) == [(list[0].0, time(list[0].1))] + Timed(list[1..], time);
    }
  }

  /** A list that is cut short counts up to the cut. */
  lemma {:induction false} CutEntries(list: seq<(nat, bytes)>, rest: bytes, n: nat, time: bytes -> real)
    requires EntriesFit(list) && |list| < n && |rest| < 12
    ensures EntriesOf(EntryBytes(list) + rest, n, time) == Entries(Timed(list, time), false)
  {
    hide LE, FromLE;
    if list != [] {
      FirstEntry(list, rest);
      CutEntries(list[1..], rest, n - 1, time);
      assert Timed(list, time) == [(list[0].0, time(list[0].1))] + Timed(list[1..], time);
    }
  }

  function CutListBytes(next: nat, announced: nat, list: seq<(nat, bytes)>, rest: bytes): bytes {
    LE(next, 4) + LE(announced, 4) + (EntryBytes(list) + rest)
  }

  lemma CutListReadsFront(next: nat, announced: nat, list: seq<(nat, bytes)>, rest: bytes, time: bytes -> real)
    requires EntriesFit(list) && next < U32 && |list| < announced < U32 && |rest| < 12
    ensures var b := CutListBytes(next, announced, list, rest);
      && |b| >= 8 && FromLE(b[..4]) == next
      && EntriesOf(b[8..], FromLE(b[4..8]), time) == Entries(Timed(list, time), false)
  {
    var b := CutListBytes(next, announced, list, rest);
    assert b[..4] == LE(next, 4) && b[4..8] == LE(announced, 4) && b[8..] == EntryBytes(list) + rest;
    U32RoundTrip(next);
    U32RoundTrip(announced);
    CutEntries(list, rest, announced, time);
  }

  /** A list as the peer sends it: the next number, how many are listed, and the entries. */
  function ListBytes(next: nat, list: seq<(nat, bytes)>): bytes {
    LE(next, 4) + LE(|list|, 4) + EntryBytes(list)
  }

  lemma ListRoundTrip(next: nat, list: seq<(nat, bytes)>, time: bytes -> real)
    requires EntriesFit(list) && next < U32 && |list| < U32
    ensures var b := ListBytes(next, list);
      && |b| >= 8 && FromLE(b[..4]) == next
      && EntriesOf(b[8..], FromLE(b[4..8]), time) == Entries(Timed(list, time), true)
  {
    var b := ListBytes(next, list);
    assert b[..4] == LE(next, 4) && b[4..8] == LE(|list|, 4) && b[8..] == EntryBytes(list) + [];
    U32RoundTrip(next);
    U32RoundTrip(|list|);
    EntriesRoundTrip(list, [], time);
  }

  /** The loop over the entries, for a buffer at the first of them. */
  method ReadEntries(data: ReadBuffer, n: nat, time: bytes -> real) returns (list: seq<(nat, real)>, complete: bool)
    requires data.Valid()
    modifies data
    ensures Entries(list, complete) == EntriesOf(old(data.Contents()), n, time)
  {
    hide FromLE;
    list := [];
    ghost var all := EntriesOf(data.Contents(), n, time);
    for i := 0 to n
      invariant data.Valid()
      invariant var rest := EntriesOf(data.Contents(), n - i, time); all == Entries(list + rest.list, rest.complete)
    {
      ghost var b, was := data.Contents(), list;
      ghost var rest := EntriesOf(data.Contents(), n - i, time);
      var entry := data.Get(12);
      if |entry| < 12 {
        assert list + [] == list;
        return list, false;
      }
      assert entry == b[..12] && entry[..4] == b[..4] && entry[4..12] == b[4..12];
      list := list + [(FromLE(entry[..4]), time(entry[4..12]))];
      ghost var later := EntriesOf(b[12..], n - i - 1, time);
      assert was + rest.list == list + later.list;
    }
    assert list + [] == list;
    return list, true;
  }
}
