/** The snapshot file: a 25-byte header and the state machine's image (pkg/database/storage.go). */
module SnapshotFile {
  import opened Basics
  import opened Wire

  const MAGIC: nat := 0x474D534E
  const VERSION: byte := 1

  datatype SnapshotRecord = SnapshotRecord(index: nat, term: nat, data: Bytes)

  predicate Fits(r: SnapshotRecord) {
    r.index < U64 && r.term < U64 && |r.data| < U32
  }

  function Header(magic: nat, index: nat, term: nat, size: nat): (h: Bytes)
    ensures |h| == 25
  {
    BigEndian(magic, 4) + ([VERSION] + (BigEndian(index, 8) + (BigEndian(term, 8) + BigEndian(size, 4))))
  }

  /** Rejects payloads whose length does not fit the size field. */
  function EncodeSnapshotFile(r: SnapshotRecord): Result<Bytes>
    requires r.index < U64 && r.term < U64
  {
    if |r.data| >= U32 then Err else Ok(Header(MAGIC, r.index, r.term, |r.data|) + r.data)
  }

  function DecodeSnapshotFile(bs: Bytes): Result<SnapshotRecord> {
    if |bs| < 25 || Unsigned(bs[..4]) != MAGIC || bs[4] != VERSION then Err
    else
      var size := Unsigned(bs[21..25]);
      if |bs| - 25 < size then Err
      else Ok(SnapshotRecord(Unsigned(bs[5..13]), Unsigned(bs[13..21]), bs[25..25 + size]))
  }

  lemma HeaderReads(magic: nat, index: nat, term: nat, size: nat, tail: Bytes)
    requires magic < Pow256(4) && index < Pow256(8) && term < Pow256(8) && size < Pow256(4)
    ensures var bs := Header(magic, index, term, size) + tail;
            && Unsigned(bs[..4]) == magic && bs[4] == VERSION
            && Unsigned(bs[5..13]) == index && Unsigned(bs[13..21]) == term && Unsigned(bs[21..25]) == size
            && bs[25..] == tail
  {
    UnsignedInvertsBigEndian(magic, 4);
    UnsignedInvertsBigEndian(index, 8);
    UnsignedInvertsBigEndian(term, 8);
    UnsignedInvertsBigEndian(size, 4);
    var a, b, c, d := BigEndian(magic, 4), BigEndian(index, 8), BigEndian(term, 8), BigEndian(size, 4);
    Slices(a, b, c, d, tail);
  }

  lemma Slices(a: Bytes, b: Bytes, c: Bytes, d: Bytes, tail: Bytes)
    requires |a| == 4 && |b| == 8 && |c| == 8 && |d| == 4
    ensures var bs := (a + ([VERSION] + (b + (c + d)))) + tail;
            bs[..4] == a && bs[4] == VERSION && bs[5..13] == b && bs[13..21] == c && bs[21..25] == d && bs[25..] == tail
  {
  }

  /** A file that was written reads back as the record it was written from; cut short anywhere, it is rejected. */
  lemma SnapshotFileRoundTrip(r: SnapshotRecord, k: nat)
    requires Fits(r)
    ensures EncodeSnapshotFile(r).Ok?
    ensures DecodeSnapshotFile(EncodeSnapshotFile(r).value) == Ok(r)
    ensures k < |EncodeSnapshotFile(r).value| ==> DecodeSnapshotFile(EncodeSnapshotFile(r).value[..k]) == Err
  {
    Widths();
    HeaderReads(MAGIC, r.index, r.term, |r.data|, r.data);
    var whole := Header(MAGIC, r.index, r.term, |r.data|) + r.data;
    assert whole[25..25 + |r.data|] == r.data;
    if 25 <= k < |whole| {
      assert whole[..k][21..25] == whole[21..25];
    }
  }

  /** The bytes of "GMSN", the version, index and term in eight bytes each, the length in four, the payload. */
  lemma FileLayout(r: SnapshotRecord)
    requires Fits(r)
    ensures EncodeSnapshotFile(r).Ok?
    ensures var bs := EncodeSnapshotFile(r).value;
      && |bs| == 25 + |r.data| && bs[..5] == [0x47, 0x4D, 0x53, 0x4E, 1]
      && Unsigned(bs[5..13]) == r.index && Unsigned(bs[13..21]) == r.term && Unsigned(bs[21..25]) == |r.data|
      && bs[25..] == r.data
  {
    Widths();
    HeaderReads(MAGIC, r.index, r.term, |r.data|, r.data);
    assert BigEndian(MAGIC, 4) == [0x47, 0x4D, 0x53, 0x4E];
    var bs := EncodeSnapshotFile(r).value;
    assert bs[..5] == BigEndian(MAGIC, 4) + [VERSION];
  }

  /** What follows the payload is not looked at. */
  lemma TrailingBytesIgnored(bs: Bytes, more: Bytes)
    requires DecodeSnapshotFile(bs).Ok?
    ensures DecodeSnapshotFile(bs + more) == DecodeSnapshotFile(bs)
  {
    var all, size := bs + more, Unsigned(bs[21..25]);
    assert all[..4] == bs[..4] && all[5..13] == bs[5..13] && all[13..21] == bs[13..21] && all[21..25] == bs[21..25];
    assert all[25..25 + size] == bs[25..25 + size];
  }

  // ---- the buffers ------------------------------------------------------------------------------

  /** The number's k low-order bytes in place, everything else untouched. */
  method PutBigEndian(buf: array<byte>, at: nat, n: nat, k: nat)
    requires at + k <= buf.Length
    modifies buf
    ensures buf[..] == old(buf[..at]) + BigEndian(n, k) + old(buf[at + k..])
  {
    var rest, i := n, k;
    while i > 0
      invariant 0 <= i <= k && rest >= 0
      invariant BigEndian(rest, i) + buf[at + i..at + k] == BigEndian(n, k)
      invariant buf[..at] == old(buf[..at]) && buf[at + k..] == old(buf[at + k..])
    {
      ghost var done := buf[at + i..at + k];
      i := i - 1;
      buf[at + i] := rest % 256;
      assert buf[at + i..at + k] == [rest % 256] + done;
      rest := rest / 256;
    }
    assert buf[..] == buf[..at] + buf[at..at + k] + buf[at + k..];
  }

  method CopyInto(buf: array<byte>, at: nat, data: Bytes)
    requires at + |data| == buf.Length
    modifies buf
    ensures buf[..] == old(buf[..at]) + data
  {
    for i := 0 to |data|
      invariant buf[..at + i] == old(buf[..at]) + data[..i]
    {
      buf[at + i] := data[i];
      assert buf[..at + i + 1] == buf[..at + i] + [data[i]];
      assert data[..i + 1] == data[..i] + [data[i]];
    }
    assert data[..|data|] == data && buf[..at + |data|] == buf[..];
  }

  /** The header field by field, then the payload behind it. */
  method WriteSnapshotFile(r: SnapshotRecord) returns (out: Result<Bytes>)
    requires r.index < U64 && r.term < U64
    ensures out == EncodeSnapshotFile(r)
  {
    hide BigEndian;
    if |r.data| > U32 - 1 {
      return Err;
    }
    var buf := new byte[25 + |r.data|](_ => 0);
    PutBigEndian(buf, 0, MAGIC, 4);
    assert buf[..4] == BigEndian(MAGIC, 4);
    buf[4] := VERSION;
    assert buf[..5] == BigEndian(MAGIC, 4) + [VERSION];
    PutBigEndian(buf, 5, r.index, 8);
    PutBigEndian(buf, 13, r.term, 8);
    PutBigEndian(buf, 21, |r.data|, 4);
    HeaderInOrder(r.index, r.term, |r.data|);
    assert buf[..25] == Header(MAGIC, r.index, r.term, |r.data|);
    CopyInto(buf, 25, r.data);
    out := Ok(buf[..]);
  }

  lemma HeaderInOrder(index: nat, term: nat, size: nat)
    ensures BigEndian(MAGIC, 4) + [VERSION] + BigEndian(index, 8) + BigEndian(term, 8) + BigEndian(size, 4)
         == Header(MAGIC, index, term, size)
  {
  }

  /** The record is filled in as the fields are read; an empty payload is not read for. */
  method ReadSnapshotFile(input: Bytes) returns (record: Result<SnapshotRecord>)
    ensures record == DecodeSnapshotFile(input)
  {
    if |input| < 25 {
      return Err;
    }
    var header := input[..25];
    assert header[..4] == input[..4] && header[5..13] == input[5..13] && header[13..21] == input[13..21]
        && header[21..25] == input[21..25];
    if Unsigned(header[..4]) != MAGIC {
      return Err;
    }
    if header[4] != VERSION {
      return Err;
    }
    var r := SnapshotRecord(Unsigned(header[5..13]), Unsigned(header[13..21]), []);
    var dataLen := Unsigned(header[21..25]);
    if dataLen == 0 {
      assert input[25..25 + dataLen] == [];
      return Ok(r);
    }
    if |input[25..]| < dataLen {
      return Err;
    }
    r := r.(data := input[25..25 + dataLen]);
    record := Ok(r);
  }
}
