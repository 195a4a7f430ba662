/** Length-prefixed records `<II id, length` + payload: the block section of a packet (id is a block number)
    and the frames inside a block (id is a connection) share this layout. */
module Records {
  import opened Bytes

  datatype Record = Record(id: nat, payload: bytes)

  /** `complete` is false when the bytes end inside a record header, where `struct.unpack` raises. */
  datatype Parsed = Parsed(records: seq<Record>, complete: bool)

  /** What `struct.pack("<II", ...)` accepts. */
  predicate InRange(r: Record) {
    r.id < U32 && |r.payload| < U32
  }

  ghost predicate AllInRange(rs: seq<Record>) {
    forall i :: 0 <= i < |rs| ==> InRange(rs[i])
  }

  function BuildOne(r: Record): (b: bytes)
    ensures |b| == 8 + |r.payload|
  {
    LE(r.id, 4) + LE(|r.payload|, 4) + r.payload
  }

  function Build(rs: seq<Record>): bytes {
    if rs == [] then [] else BuildOne(rs[0]) + Build(rs[1..])
  }

  /** Reads one record after another until the bytes run out; a payload cut short by the end is taken as it is. */
  function Parse(b: bytes): Parsed
    decreases |b|
  {
    if |b| == 0 then Parsed([], true)
    else if |b| < 8 then Parsed([], false)
    else
      var n := Min(FromLE(b[4..8]), |b| - 8);
      var rest := Parse(b[8 + n..]);
      Parsed([Record(FromLE(b[..4]), b[8..8 + n])] + rest.records, rest.complete)
  }

  lemma ParseHead(r: Record, tail: bytes)
    requires InRange(r)
    ensures Parse(BuildOne(r) + tail) == Prepend([r], Parse(tail))
  {
    var b := BuildOne(r) + tail;
    assert b[..4] == LE(r.id, 4);
    assert b[4..8] == LE(|r.payload|, 4);
    U32RoundTrip(r.id);
    U32RoundTrip(|r.payload|);
    assert b[8..8 + |r.payload|] == r.payload;
    assert b[8 + |r.payload|..] == tail;
  }

  lemma BuildThen(rs: seq<Record>, tail: bytes)
    requires rs != []
    ensures Build(rs) + tail == BuildOne(rs[0]) + (Build(rs[1..]) + tail)
  {
  }

  function Prepend(rs: seq<Record>, p: Parsed): Parsed {
    Parsed(rs + p.records, p.complete)
  }

  lemma PrependTwice(r: Record, rs: seq<Record>, p: Parsed)
    ensures Prepend([r], Prepend(rs, p)) == Prepend([r] + rs, p)
  {
    assert [r] + (rs + p.records) == ([r] + rs) + p.records;
  }

  /** Parsing undoes building, whatever bytes follow. */
  lemma {:induction false} ParseBuildThen(rs: seq<Record>, tail: bytes)
    requires AllInRange(rs)
    ensures Parse(Build(rs) + tail) == Prepend(rs, Parse(tail))
  {
    if rs == [] {
      assert Build(rs) + tail == tail;
    } else {
      calc {
        Parse(Build(rs) + tail);
        { BuildThen(rs, tail); }
        Parse(BuildOne(rs[0]) + (Build(rs[1..]) + tail));
        { ParseHead(rs[0], Build(rs[1..]) + tail); }
        Prepend([rs[0]], Parse(Build(rs[1..]) + tail));
        { ParseBuildThen(rs[1..], tail); }
        Prepend([rs[0]], Prepend(rs[1..], Parse(tail)));
        { PrependTwice(rs[0], rs[1..], Parse(tail)); assert [rs[0]] + rs[1..] == rs; }
        Prepend(rs, Parse(tail));
      }
    }
  }

  /** The round trip: every list of in-range records is read back exactly, with nothing left over. */
  lemma ParseBuild(rs: seq<Record>)
    requires AllInRange(rs)
    ensures Parse(Build(rs)) == Parsed(rs, true)
  {
    ParseBuildThen(rs, []);
    assert Build(rs) + [] == Build(rs);
    assert rs + [] == rs;
  }

  lemma {:induction false} BuildConcat(a: seq<Record>, b: seq<Record>)
    ensures Build(a + b) == Build(a) + Build(b)
  {
    if a == [] {
      assert a + b == b;
    } else {
      assert (a + b)[1..] == a[1..] + b;
      BuildConcat(a[1..], b);
    }
  }

  lemma BuildSnoc(rs: seq<Record>, r: Record)
    ensures Build(rs + [r]) == Build(rs) + BuildOne(r)
  {
    BuildConcat(rs, [r]);
    assert [r][1..] == [];
    assert Build([r]) == BuildOne(r) + Build([]);
  }

  /** The bytes of whole records. */
  ghost predicate Whole(b: bytes) {
    exists rs :: AllInRange(rs) && b == Build(rs)
  }

  lemma WholeConcat(a: bytes, b: bytes)
    requires Whole(a) && Whole(b)
    ensures Whole(a + b)
  {
    var x :| AllInRange(x) && a == Build(x);
    var y :| AllInRange(y) && b == Build(y);
    BuildConcat(x, y);
    assert AllInRange(x + y);
  }

  lemma WholeOne(r: Record)
    requires InRange(r)
    ensures Whole(BuildOne(r)) && Build([r]) == BuildOne(r)
  {
    BuildSnoc([], r);
    assert [] + [r] == [r];
    assert Build([]) + BuildOne(r) == BuildOne(r);
    assert AllInRange([r]);
  }

  /** A piece of one record that parses at all gives the record with its payload cut. */
  lemma ParsePiece(r: Record, k: nat)
    requires InRange(r)
    requires 0 < k < |BuildOne(r)|
    ensures Parse(BuildOne(r)[..k]) == if k < 8 then Parsed([], false)
      else Parsed([Record(r.id, r.payload[..k - 8])], true)
  {
    var piece := BuildOne(r)[..k];
    if k >= 8 {
      assert piece[..4] == LE(r.id, 4);
      assert piece[4..8] == LE(|r.payload|, 4);
      U32RoundTrip(r.id);
      U32RoundTrip(|r.payload|);
      assert piece[8..k] == r.payload[..k - 8];
      assert piece[k..] == [];
      assert Parse(piece[k..]) == Parsed([], true);
    }
  }

  /** Records of different payload length are written differently. */
  lemma LengthIsWritten(r: Record, k: nat)
    requires InRange(r)
    requires 8 <= k < |BuildOne(r)|
    ensures BuildOne(Record(r.id, r.payload[..k - 8])) != BuildOne(r)[..k]
  {
    var short := BuildOne(Record(r.id, r.payload[..k - 8]));
    assert short[4..8] == LE(k - 8, 4);
    assert BuildOne(r)[..k][4..8] == LE(|r.payload|, 4);
    U32RoundTrip(k - 8);
    U32RoundTrip(|r.payload|);
  }

  /** Whole records followed by a proper, nonempty piece of another record are not whole records. */
  lemma CutIsNotWhole(rs: seq<Record>, r: Record, k: nat)
    requires AllInRange(rs) && InRange(r)
    requires 0 < k < |BuildOne(r)|
    ensures !Whole(Build(rs) + BuildOne(r)[..k])
  {
    var piece := BuildOne(r)[..k];
    if Whole(Build(rs) + piece) {
      var qs :| AllInRange(qs) && Build(rs) + piece == Build(qs);
      ParseBuild(qs);
      ParseBuildThen(rs, piece);
      ParsePiece(r, k);
      LengthIsWritten(r, k);
      var short := Record(r.id, r.payload[..k - 8]);
      BuildSnoc(rs, short);
      AppendCancels(Build(rs), BuildOne(short), piece);
      assert false;
    }
  }

  lemma AppendCancels(a: bytes, b: bytes, c: bytes)
    requires a + b == a + c
    ensures b == c
  {
    assert (a + b)[|a|..] == b;
    assert (a + c)[|a|..] == c;
  }

  /** Blocks that parse completely and whose records add up to `rs` are themselves whole: decoding block by
      block recovers the records of the stream if and only if no record straddles two blocks. */
  lemma {:induction false} SplitDecodesIffWhole(blocks: seq<bytes>, rs: seq<Record>)
    requires AllInRange(rs) && Flatten(blocks) == Build(rs)
    ensures (ParseEach(blocks) == Parsed(rs, true)) <==> (forall i :: 0 <= i < |blocks| ==> Whole(blocks[i]))
  {
    if forall i :: 0 <= i < |blocks| ==> Whole(blocks[i]) {
      EachWholeParses(blocks);
      ParseBuild(rs);
    }
    if ParseEach(blocks) == Parsed(rs, true) {
      EachParsedIsWhole(blocks, rs);
    }
  }

  /** Every block parsed by itself, as `download_data_processor` does. */
  function ParseEach(blocks: seq<bytes>): Parsed {
    if blocks == [] then Parsed([], true)
    else
      var p, q := Parse(blocks[0]), ParseEach(blocks[1..]);
      Parsed(p.records + q.records, p.complete && q.complete)
  }

  lemma {:induction false} EachWholeParses(blocks: seq<bytes>)
    requires forall i :: 0 <= i < |blocks| ==> Whole(blocks[i])
    ensures Parse(Flatten(blocks)) == ParseEach(blocks)
  {
    if blocks != [] {
      var x :| AllInRange(x) && blocks[0] == Build(x);
      EachWholeParses(blocks[1..]);
      ParseBuildThen(x, Flatten(blocks[1..]));
      ParseBuild(x);
    }
  }

  /** A complete parse consumed exactly as many bytes as its records take when built. */
  lemma {:induction false} ParsedLength(b: bytes)
    requires Parse(b).complete
    ensures |Build(Parse(b).records)| == |b|
    decreases |b|
  {
    if |b| > 0 {
      var n := Min(FromLE(b[4..8]), |b| - 8);
      ParsedLength(b[8 + n..]);
      var rs := Parse(b).records;
      assert rs[1..] == Parse(b[8 + n..]).records;
    }
  }

  lemma {:induction false} EachParsedIsWhole(blocks: seq<bytes>, rs: seq<Record>)
    requires AllInRange(rs) && Flatten(blocks) == Build(rs)
    requires ParseEach(blocks) == Parsed(rs, true)
    ensures forall i :: 0 <= i < |blocks| ==> Whole(blocks[i])
  {
    if blocks != [] {
      var x, y := Parse(blocks[0]).records, ParseEach(blocks[1..]).records;
      assert rs == x + y;
      BuildConcat(x, y);
      ParsedLength(blocks[0]);
      assert Flatten(blocks)[..|blocks[0]|] == blocks[0];
      assert Build(rs)[..|blocks[0]|] == Build(x);
      assert AllInRange(x) && AllInRange(y) by {
        assert forall i :: 0 <= i < |x| ==> x[i] == rs[i];
        assert forall i :: 0 <= i < |y| ==> y[i] == rs[|x| + i];
      }
      assert Flatten(blocks[1..]) == Flatten(blocks)[|blocks[0]|..];
      assert Build(y) == Build(rs)[|blocks[0]|..];
      EachParsedIsWhole(blocks[1..], y);
      forall i | 0 <= i < |blocks| ensures Whole(blocks[i]) {
        if i > 0 {
          assert blocks[i] == blocks[1..][i - 1];
        }
      }
    }
  }
}
