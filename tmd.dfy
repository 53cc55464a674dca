/**
  The title metadata (TMD): a 484-byte fixed header followed by one 36-byte
  content record per content. Decoding reads the header field by field and
  then `NumberOfContents` records; encoding writes everything back in the
  same order, byte for byte.
 */
module TmdCodec {
  import opened Helpers

  const TMD_HEADER_SIZE := 484
  const NUMBER_OF_CONTENTS_OFFSET := 478
  const RECORD_SIZE := 36
  const HASH_SIZE := 20

  /**
    One entry of the content-record table. `size` holds the bytes at +8..+16
    unchanged: `u64(littleEndian:)` on a little-endian host keeps them as
    they are in memory.
   */
  datatype ContentRecord = ContentRecord(id: Raw32, index: Raw16, contentType: Raw16, size: Raw64, hash: Bytes)

  datatype Tmd = Tmd(
    signatureType: Raw32,
    signature: Bytes,
    padding: Bytes,
    issuer: Bytes,
    fileVersion: byte,
    caCrlVersion: byte,
    signerCrlVersion: byte,
    isVWii: byte,
    systemVersionHigh: Raw32,
    systemVersionLow: Raw32,
    titleId: Bytes,
    titleType: Raw32,
    groupId: Raw16,
    unknown: Raw16,
    region: Raw16,
    ratings: Bytes,
    reserved: Bytes,
    ipcMask: Bytes,
    reserved2: Bytes,
    accessRightsFlags: Raw32,
    titleVersion: Raw16,
    numberOfContents: Raw16,
    bootIndex: Raw16,
    padding2: Raw16,
    contentRecords: seq<ContentRecord>)

  /** The byte arrays of the header and of every record have the widths decoding gives them. */
  predicate FixedWidths(t: Tmd) {
    && |t.signature| == 256 && |t.padding| == 60 && |t.issuer| == 64 && |t.titleId| == 8
    && |t.ratings| == 16 && |t.reserved| == 12 && |t.ipcMask| == 12 && |t.reserved2| == 18
    && forall i | 0 <= i < |t.contentRecords| :: |t.contentRecords[i].hash| == HASH_SIZE
  }

  /** `NumberOfContents.bigEndian` of the TMD stored at `p`. */
  function RecordCount(data: Bytes, p: nat): nat
    requires p + TMD_HEADER_SIZE <= |data|
  {
    BigEndian(data[p + NUMBER_OF_CONTENTS_OFFSET..p + NUMBER_OF_CONTENTS_OFFSET + 2])
  }

  /**
    `TMD.init` at `p` runs to completion: the header is inside the buffer,
    the range `1...count` is not empty, and the whole table is inside the
    buffer.
   */
  predicate TmdFits(data: Bytes, p: nat) {
    && p + TMD_HEADER_SIZE <= |data|
    && RecordCount(data, p) >= 1
    && p + TMD_HEADER_SIZE + RECORD_SIZE * RecordCount(data, p) <= |data|
  }

  /**
    Why `TMD.init` at `p` stops, in the order it meets the conditions: a
    header read past the end, then the empty range `1...0`, then a record
    read past the end.
   */
  function TmdTrap(data: Bytes, p: nat): (r: Option<TrapReason>)
    ensures r.None? <==> TmdFits(data, p)
    ensures r == Some(EmptyRange) <==> p + TMD_HEADER_SIZE <= |data| && RecordCount(data, p) == 0
  {
    if p + TMD_HEADER_SIZE > |data| then Some(ReadPastEnd)
    else if RecordCount(data, p) == 0 then Some(EmptyRange)
    else if p + TMD_HEADER_SIZE + RECORD_SIZE * RecordCount(data, p) > |data| then Some(ReadPastEnd)
    else None
  }

  /** The content record stored at `q`. */
  function RecordAt(data: Bytes, q: nat): (r: ContentRecord)
    requires q + RECORD_SIZE <= |data|
    ensures |r.hash| == HASH_SIZE
  {
    ContentRecord(data[q..q + 4], data[q + 4..q + 6], data[q + 6..q + 8], data[q + 8..q + 16], data[q + 16..q + 36])
  }

  /** The `n` content records stored from `q` on; record `i` starts `36 * i` bytes in. */
  function RecordsAt(data: Bytes, q: nat, n: nat): (r: seq<ContentRecord>)
    requires q + RECORD_SIZE * n <= |data|
    ensures |r| == n
    ensures forall i | 0 <= i < n :: r[i] == RecordAt(data, q + RECORD_SIZE * i)
  {
    if n == 0 then [] else RecordsAt(data, q, n - 1) + [RecordAt(data, q + RECORD_SIZE * (n - 1))]
  }

  /** The TMD stored at `p`, field by field at its offset, followed by its record table. */
  function TmdAt(data: Bytes, p: nat): (t: Tmd)
    requires TmdFits(data, p)
    ensures FixedWidths(t)
    ensures |t.contentRecords| == RecordCount(data, p)
    ensures t.numberOfContents == data[p + NUMBER_OF_CONTENTS_OFFSET..p + NUMBER_OF_CONTENTS_OFFSET + 2]
  {
    Tmd(
      data[p..p + 4], data[p + 4..p + 260], data[p + 260..p + 320], data[p + 320..p + 384],
      data[p + 384], data[p + 385], data[p + 386], data[p + 387],
      data[p + 388..p + 392], data[p + 392..p + 396], data[p + 396..p + 404], data[p + 404..p + 408],
      data[p + 408..p + 410], data[p + 410..p + 412], data[p + 412..p + 414], data[p + 414..p + 430],
      data[p + 430..p + 442], data[p + 442..p + 454], data[p + 454..p + 472], data[p + 472..p + 476],
      data[p + 476..p + 478], data[p + 478..p + 480], data[p + 480..p + 482], data[p + 482..p + 484],
      RecordsAt(data, p + TMD_HEADER_SIZE, RecordCount(data, p)))
  }

  /**
    Record `i` of a decoded TMD: its fields sit at +0, +4, +6, +8 and +16 of
    the `i`-th 36-byte slot after the header, and the size it declares is
    the big-endian value of the eight bytes at +8.
   */
  lemma RecordLayout(data: Bytes, p: nat, i: nat)
    requires TmdFits(data, p)
    requires i < RecordCount(data, p)
    ensures var q := p + TMD_HEADER_SIZE + RECORD_SIZE * i;
      var r := TmdAt(data, p).contentRecords[i];
      && q + RECORD_SIZE <= |data|
      && r.id == data[q..q + 4] && r.index == data[q + 4..q + 6] && r.contentType == data[q + 6..q + 8]
      && r.size == data[q + 8..q + 16] && r.hash == data[q + 16..q + 36]
      && BigEndian(r.size) == BigEndian(data[q + 8..q + 16])
  {
    var n := RecordCount(data, p);
    assert RECORD_SIZE * i + RECORD_SIZE <= RECORD_SIZE * n;
  }

  /**
    `TMD.init(data:)` at cursor `p`: the header field by field, then the
    record table in a counted loop, reading each record's size before its
    other fields. Returns the decoded TMD and the cursor after the table.
   */
  method ParseTmd(data: Bytes, p: nat) returns (tmd: Tmd, next: nat)
    requires TmdFits(data, p)
    ensures tmd == TmdAt(data, p)
    ensures next == p + TMD_HEADER_SIZE + RECORD_SIZE * |tmd.contentRecords|
  {
    var pointer := p;
    var signatureType := ReadBytes(data, 4, pointer);
    pointer := pointer + 4;
    var signature := ReadBytes(data, 256, pointer);
    pointer := pointer + 256;
    var padding := ReadBytes(data, 60, pointer);
    pointer := pointer + 60;
    var issuer := ReadBytes(data, 64, pointer);
    pointer := pointer + 64;
    var fileVersion := data[pointer];
    pointer := pointer + 1;
    var caCrlVersion := data[pointer];
    pointer := pointer + 1;
    var signerCrlVersion := data[pointer];
    pointer := pointer + 1;
    var isVWii := data[pointer];
    pointer := pointer + 1;
    var systemVersionHigh := ReadBytes(data, 4, pointer);
    pointer := pointer + 4;
    var systemVersionLow := ReadBytes(data, 4, pointer);
    pointer := pointer + 4;
    var titleId := ReadBytes(data, 8, pointer);
    pointer := pointer + 8;
    var titleType := ReadBytes(data, 4, pointer);
    pointer := pointer + 4;
    var groupId := ReadBytes(data, 2, pointer);
    pointer := pointer + 2;
    var unknown := ReadBytes(data, 2, pointer);
    pointer := pointer + 2;
    var region := ReadBytes(data, 2, pointer);
    pointer := pointer + 2;
    var ratings := ReadBytes(data, 16, pointer);
    pointer := pointer + 16;
    var reserved := ReadBytes(data, 12, pointer);
    pointer := pointer + 12;
    var ipcMask := ReadBytes(data, 12, pointer);
    pointer := pointer + 12;
    var reserved2 := ReadBytes(data, 18, pointer);
    pointer := pointer + 18;
    var accessRightsFlags := ReadBytes(data, 4, pointer);
    pointer := pointer + 4;
    var titleVersion := ReadBytes(data, 2, pointer);
    pointer := pointer + 2;
    var numberOfContents := ReadBytes(data, 2, pointer);
    pointer := pointer + 2;
    var bootIndex := ReadBytes(data, 2, pointer);
    pointer := pointer + 2;
    var padding2 := ReadBytes(data, 2, pointer);
    pointer := pointer + 2;

    var count := BigEndian(numberOfContents);
    var records: seq<ContentRecord> := [];
    for i := 0 to count
      invariant pointer == p + TMD_HEADER_SIZE + RECORD_SIZE * i
      invariant records == RecordsAt(data, p + TMD_HEADER_SIZE, i)
    {
      var size := ReadBytes(data, 8, pointer + 8);
      records := records + [ContentRecord(
        ReadBytes(data, 4, pointer), ReadBytes(data, 2, pointer + 4), ReadBytes(data, 2, pointer + 6),
        size, ReadBytes(data, HASH_SIZE, pointer + 16))];
      pointer := pointer + RECORD_SIZE;
    }

    tmd := Tmd(
      signatureType, signature, padding, issuer, fileVersion, caCrlVersion, signerCrlVersion, isVWii,
      systemVersionHigh, systemVersionLow, titleId, titleType, groupId, unknown, region, ratings,
      reserved, ipcMask, reserved2, accessRightsFlags, titleVersion, numberOfContents, bootIndex,
      padding2, records);
    next := pointer;
  }

  /** The bytes of one content record, fields in table order. */
  function RecordBytes(r: ContentRecord): (bs: Bytes)
    ensures |bs| == 16 + |r.hash|
  {
    r.id + r.index + r.contentType + r.size + r.hash
  }

  /** The record table, records in order. */
  function RecordsBytes(records: seq<ContentRecord>): (bs: Bytes)
    ensures (forall i | 0 <= i < |records| :: |records[i].hash| == HASH_SIZE) ==> |bs| == RECORD_SIZE * |records|
  {
    if records == [] then []
    else RecordsBytes(records[..|records| - 1]) + RecordBytes(records[|records| - 1])
  }

  /** The fixed header, fields in decode order, with the stored `NumberOfContents`. */
  function TmdHeaderBytes(t: Tmd): (bs: Bytes)
    ensures FixedWidths(t) ==> |bs| == TMD_HEADER_SIZE
  {
    t.signatureType + t.signature + t.padding + t.issuer
    + [t.fileVersion] + [t.caCrlVersion] + [t.signerCrlVersion] + [t.isVWii]
    + t.systemVersionHigh + t.systemVersionLow + t.titleId + t.titleType
    + t.groupId + t.unknown + t.region + t.ratings
    + t.reserved + t.ipcMask + t.reserved2 + t.accessRightsFlags
    + t.titleVersion + t.numberOfContents + t.bootIndex + t.padding2
  }

  /** What `GetTMD()` returns: the header and then every record, `484 + 36 * |contentRecords|` bytes. */
  function TmdBytes(t: Tmd): (bs: Bytes)
    ensures FixedWidths(t) ==> |bs| == TMD_HEADER_SIZE + RECORD_SIZE * |t.contentRecords|
  {
    TmdHeaderBytes(t) + RecordsBytes(t.contentRecords)
  }

  /** Appending record `i`'s fields one by one extends the table written so far by that record. */
  lemma AppendRecord(header: Bytes, records: seq<ContentRecord>, i: nat, before: Bytes)
    requires i < |records|
    requires before == header + RecordsBytes(records[..i])
    ensures var r := records[i];
      before + r.id + r.index + r.contentType + r.size + r.hash == header + RecordsBytes(records[..i + 1])
  {
    var r := records[i];
    assert records[..i + 1][..i] == records[..i];
    assert before + r.id + r.index + r.contentType + r.size + r.hash == before + RecordBytes(r);
  }

  /** `GetTMD()`: appends the header fields one by one, then every record's fields. */
  method GetTMD(tmd: Tmd) returns (r: Bytes)
    ensures r == TmdBytes(tmd)
  {
    var dataArray: Bytes := [];
    dataArray := dataArray + tmd.signatureType;
    assert dataArray == tmd.signatureType;
    dataArray := dataArray + tmd.signature;
    dataArray := dataArray + tmd.padding;
    dataArray := dataArray + tmd.issuer;
    dataArray := dataArray + [tmd.fileVersion];
    dataArray := dataArray + [tmd.caCrlVersion];
    dataArray := dataArray + [tmd.signerCrlVersion];
    dataArray := dataArray + [tmd.isVWii];
    dataArray := dataArray + tmd.systemVersionHigh;
    dataArray := dataArray + tmd.systemVersionLow;
    dataArray := dataArray + tmd.titleId;
    dataArray := dataArray + tmd.titleType;
    dataArray := dataArray + tmd.groupId;
    dataArray := dataArray + tmd.unknown;
    dataArray := dataArray + tmd.region;
    dataArray := dataArray + tmd.ratings;
    dataArray := dataArray + tmd.reserved;
    dataArray := dataArray + tmd.ipcMask;
    dataArray := dataArray + tmd.reserved2;
    dataArray := dataArray + tmd.accessRightsFlags;
    dataArray := dataArray + tmd.titleVersion;
    dataArray := dataArray + tmd.numberOfContents;
    dataArray := dataArray + tmd.bootIndex;
    dataArray := dataArray + tmd.padding2;
    assert dataArray == TmdHeaderBytes(tmd);

    var records := tmd.contentRecords;
    for i := 0 to |records|
      invariant dataArray == TmdHeaderBytes(tmd) + RecordsBytes(records[..i])
    {
      var record := records[i];
      ghost var before := dataArray;
      dataArray := dataArray + record.id;
      dataArray := dataArray + record.index;
      dataArray := dataArray + record.contentType;
      dataArray := dataArray + record.size;
      dataArray := dataArray + record.hash;
      AppendRecord(TmdHeaderBytes(tmd), records, i, before);
    }
    assert records[..|records|] == records;
    r := dataArray;
  }

  /**
    `GetTMD()` writes the stored `NumberOfContents` at offset 478, whatever
    the length of the record table: the count is not recomputed.
   */
  lemma GetTmdWritesStoredCount(t: Tmd)
    requires FixedWidths(t)
    ensures TmdBytes(t)[NUMBER_OF_CONTENTS_OFFSET..NUMBER_OF_CONTENTS_OFFSET + 2] == t.numberOfContents
  {
    var head := t.signatureType + t.signature + t.padding + t.issuer
      + [t.fileVersion] + [t.caCrlVersion] + [t.signerCrlVersion] + [t.isVWii]
      + t.systemVersionHigh + t.systemVersionLow + t.titleId + t.titleType
      + t.groupId + t.unknown + t.region + t.ratings
      + t.reserved + t.ipcMask + t.reserved2 + t.accessRightsFlags + t.titleVersion;
    assert |head| == NUMBER_OF_CONTENTS_OFFSET;
    var bs := TmdBytes(t);
    assert bs == head + t.numberOfContents + (t.bootIndex + t.padding2 + RecordsBytes(t.contentRecords));
    assert bs[478] == t.numberOfContents[0];
    assert bs[479] == t.numberOfContents[1];
  }

  /** The record table serialises back to the bytes it was read from. */
  lemma {:induction false} RecordsRoundTrip(data: Bytes, q: nat, n: nat)
    requires q + RECORD_SIZE * n <= |data|
    ensures RecordsBytes(RecordsAt(data, q, n)) == data[q..q + RECORD_SIZE * n]
  {
    if n > 0 {
      var records := RecordsAt(data, q, n);
      assert records[..n - 1] == RecordsAt(data, q, n - 1);
      RecordsRoundTrip(data, q, n - 1);
      var e := q + RECORD_SIZE * (n - 1);
      AdjacentSlices(data, e, e + 4, e + 6);
      AdjacentSlices(data, e, e + 6, e + 8);
      AdjacentSlices(data, e, e + 8, e + 16);
      AdjacentSlices(data, e, e + 16, e + 36);
      AdjacentSlices(data, q, e, e + 36);
    }
  }

  /** Bytes 0 to 388 of a decoded header serialise to the bytes they were read from. */
  lemma HeaderBytesFirst(data: Bytes, p: nat)
    requires TmdFits(data, p)
    ensures var t := TmdAt(data, p);
      t.signatureType + t.signature + t.padding + t.issuer
      + [t.fileVersion] + [t.caCrlVersion] + [t.signerCrlVersion] + [t.isVWii] == data[p..p + 388]
  {
    AdjacentSlices(data, p, p + 4, p + 260);
    AdjacentSlices(data, p, p + 260, p + 320);
    AdjacentSlices(data, p, p + 320, p + 384);
    assert [data[p + 384]] == data[p + 384..p + 385];
    AdjacentSlices(data, p, p + 384, p + 385);
    assert [data[p + 385]] == data[p + 385..p + 386];
    AdjacentSlices(data, p, p + 385, p + 386);
    assert [data[p + 386]] == data[p + 386..p + 387];
    AdjacentSlices(data, p, p + 386, p + 387);
    assert [data[p + 387]] == data[p + 387..p + 388];
    AdjacentSlices(data, p, p + 387, p + 388);
  }

  /** Bytes 388 to 430 of a decoded header serialise to the bytes they were read from. */
  lemma HeaderBytesSecond(data: Bytes, p: nat)
    requires TmdFits(data, p)
    ensures var t := TmdAt(data, p);
      t.systemVersionHigh + t.systemVersionLow + t.titleId + t.titleType
      + t.groupId + t.unknown + t.region + t.ratings == data[p + 388..p + 430]
  {
    AdjacentSlices(data, p + 388, p + 392, p + 396);
    AdjacentSlices(data, p + 388, p + 396, p + 404);
    AdjacentSlices(data, p + 388, p + 404, p + 408);
    AdjacentSlices(data, p + 388, p + 408, p + 410);
    AdjacentSlices(data, p + 388, p + 410, p + 412);
    AdjacentSlices(data, p + 388, p + 412, p + 414);
    AdjacentSlices(data, p + 388, p + 414, p + 430);
  }

  /** Bytes 430 to 484 of a decoded header serialise to the bytes they were read from. */
  lemma HeaderBytesThird(data: Bytes, p: nat)
    requires TmdFits(data, p)
    ensures var t := TmdAt(data, p);
      t.reserved + t.ipcMask + t.reserved2 + t.accessRightsFlags
      + t.titleVersion + t.numberOfContents + t.bootIndex + t.padding2 == data[p + 430..p + 484]
  {
    AdjacentSlices(data, p + 430, p + 442, p + 454);
    AdjacentSlices(data, p + 430, p + 454, p + 472);
    AdjacentSlices(data, p + 430, p + 472, p + 476);
    AdjacentSlices(data, p + 430, p + 476, p + 478);
    AdjacentSlices(data, p + 430, p + 478, p + 480);
    AdjacentSlices(data, p + 430, p + 480, p + 482);
    AdjacentSlices(data, p + 430, p + 482, p + 484);
  }

  /** The 484-byte header of a decoded TMD serialises to the bytes it was read from. */
  lemma HeaderRoundTrip(data: Bytes, p: nat)
    requires TmdFits(data, p)
    ensures TmdHeaderBytes(TmdAt(data, p)) == data[p..p + TMD_HEADER_SIZE]
  {
    HeaderBytesFirst(data, p);
    HeaderBytesSecond(data, p);
    HeaderBytesThird(data, p);
    HeaderOfThirds(TmdAt(data, p), data, p);
  }

  /** A header whose three runs of fields match three adjacent slices serialises to their union. */
  lemma HeaderOfThirds(t: Tmd, data: Bytes, p: nat)
    requires p + TMD_HEADER_SIZE <= |data|
    requires t.signatureType + t.signature + t.padding + t.issuer
      + [t.fileVersion] + [t.caCrlVersion] + [t.signerCrlVersion] + [t.isVWii] == data[p..p + 388]
    requires t.systemVersionHigh + t.systemVersionLow + t.titleId + t.titleType
      + t.groupId + t.unknown + t.region + t.ratings == data[p + 388..p + 430]
    requires t.reserved + t.ipcMask + t.reserved2 + t.accessRightsFlags
      + t.titleVersion + t.numberOfContents + t.bootIndex + t.padding2 == data[p + 430..p + 484]
    ensures TmdHeaderBytes(t) == data[p..p + TMD_HEADER_SIZE]
  {
    var a := t.signatureType + t.signature + t.padding + t.issuer
      + [t.fileVersion] + [t.caCrlVersion] + [t.signerCrlVersion] + [t.isVWii];
    var b := t.systemVersionHigh + t.systemVersionLow + t.titleId + t.titleType
      + t.groupId + t.unknown + t.region + t.ratings;
    var c := t.reserved + t.ipcMask + t.reserved2 + t.accessRightsFlags
      + t.titleVersion + t.numberOfContents + t.bootIndex + t.padding2;
    assert TmdHeaderBytes(t) == a + b + c;
    AdjacentSlices(data, p, p + 388, p + 430);
    AdjacentSlices(data, p, p + 430, p + 484);
  }

  /** `GetTMD(TMD.init(b))` reproduces the `484 + 36 * n` bytes the TMD was decoded from, verbatim. */
  lemma TmdRoundTrip(data: Bytes, p: nat)
    requires TmdFits(data, p)
    ensures TmdBytes(TmdAt(data, p)) == data[p..p + TMD_HEADER_SIZE + RECORD_SIZE * RecordCount(data, p)]
  {
    HeaderRoundTrip(data, p);
    TableRoundTrip(data, p);
    TmdBytesOfSlices(TmdAt(data, p), data, p, p + TMD_HEADER_SIZE, p + TMD_HEADER_SIZE + RECORD_SIZE * RecordCount(data, p));
  }

  /** The record table of a decoded TMD serialises to the bytes after its header. */
  lemma TableRoundTrip(data: Bytes, p: nat)
    requires TmdFits(data, p)
    ensures RecordsBytes(TmdAt(data, p).contentRecords)
      == data[p + TMD_HEADER_SIZE..p + TMD_HEADER_SIZE + RECORD_SIZE * RecordCount(data, p)]
  {
    assert TmdAt(data, p).contentRecords == RecordsAt(data, p + TMD_HEADER_SIZE, RecordCount(data, p));
    RecordsRoundTrip(data, p + TMD_HEADER_SIZE, RecordCount(data, p));
  }

  /** A header and a record table read from adjacent slices serialise to their union. */
  lemma TmdBytesOfSlices(t: Tmd, data: Bytes, i: nat, j: nat, k: nat)
    requires i <= j <= k <= |data|
    requires TmdHeaderBytes(t) == data[i..j]
    requires RecordsBytes(t.contentRecords) == data[j..k]
    ensures TmdBytes(t) == data[i..k]
  {
    AdjacentSlices(data, i, j, k);
  }
}
