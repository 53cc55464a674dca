/**
  The WAD container: a 32-byte header of eight section sizes, then the
  certificate chain, the certificate revocation list (CRL), the ticket, the
  TMD, the content area and the meta blob, each starting on a 64-byte
  boundary. Loading validates the header and reads the sections in that
  order with one advancing cursor; `GetWAD` rebuilds the header from the
  re-serialised sections and concatenates them, each padded to 64 bytes.
 */
module WadContainer {
  import opened Helpers
  import opened Keys
  import opened TicketCodec
  import opened TmdCodec
  import opened ContentCodec

  const HEADER_SIZE := 32
  const HEADER_FIELD_COUNT := 8

  /** One more than the largest `u32`. */
  const U32_LIMIT := 0x1_0000_0000

  /** The eight `u32` fields of the header, as raw memory bytes. */
  datatype WadHeader = WadHeader(
    headerSize: Raw32,
    wadType: Raw32,
    certificateSize: Raw32,
    crlSize: Raw32,
    ticketSize: Raw32,
    tmdSize: Raw32,
    dataSize: Raw32,
    metaSize: Raw32)

  /** The header fields in declaration order. */
  function HeaderFields(h: WadHeader): (fs: seq<Raw32>)
    ensures |fs| == HEADER_FIELD_COUNT
  {
    [h.headerSize, h.wadType, h.certificateSize, h.crlSize, h.ticketSize, h.tmdSize, h.dataSize, h.metaSize]
  }

  /** `readWadHeader`: field `i` is the four bytes at offset `4 * i`. */
  function ReadWadHeader(data: Bytes): (h: WadHeader)
    requires HEADER_SIZE <= |data|
    ensures forall i | 0 <= i < HEADER_FIELD_COUNT :: HeaderFields(h)[i] == data[4 * i..4 * i + 4]
  {
    WadHeader(data[0..4], data[4..8], data[8..12], data[12..16], data[16..20], data[20..24], data[24..28], data[28..32])
  }

  /** `withUnsafeBytes(of: field.bigEndian)`: the host-order bytes of the field's big-endian view. */
  function StoredBigEndian(raw: Raw32): (bs: Bytes)
    ensures |bs| == 4
  {
    HostBytes(BigEndian(raw), 4)
  }

  /** What `GetHeader()` returns for a header. */
  function HeaderBytes(h: WadHeader): (bs: Bytes)
    ensures |bs| == HEADER_SIZE
  {
    StoredBigEndian(h.headerSize) + StoredBigEndian(h.wadType) + StoredBigEndian(h.certificateSize)
    + StoredBigEndian(h.crlSize) + StoredBigEndian(h.ticketSize) + StoredBigEndian(h.tmdSize)
    + StoredBigEndian(h.dataSize) + StoredBigEndian(h.metaSize)
  }

  /** A field written through `.bigEndian` is its numeric value, most significant byte first. */
  lemma StoredBigEndianIsBigEndian(raw: Raw32)
    ensures StoredBigEndian(raw) == BigEndianBytes(HostValue(raw), 4)
    ensures StoredBigEndian(raw) == Reverse(raw)
  {
    HostBytesOfBigEndian(raw);
    BigEndianRoundTrip(Reverse(raw));
  }

  /** `GetHeader()` emits exactly 32 bytes: the eight field values as big-endian `u32`s, in order. */
  lemma HeaderBytesAreBigEndian(h: WadHeader)
    ensures HeaderBytes(h) ==
      BigEndianBytes(HostValue(h.headerSize), 4) + BigEndianBytes(HostValue(h.wadType), 4)
      + BigEndianBytes(HostValue(h.certificateSize), 4) + BigEndianBytes(HostValue(h.crlSize), 4)
      + BigEndianBytes(HostValue(h.ticketSize), 4) + BigEndianBytes(HostValue(h.tmdSize), 4)
      + BigEndianBytes(HostValue(h.dataSize), 4) + BigEndianBytes(HostValue(h.metaSize), 4)
  {
    StoredBigEndianIsBigEndian(h.headerSize);
    StoredBigEndianIsBigEndian(h.wadType);
    StoredBigEndianIsBigEndian(h.certificateSize);
    StoredBigEndianIsBigEndian(h.crlSize);
    StoredBigEndianIsBigEndian(h.ticketSize);
    StoredBigEndianIsBigEndian(h.tmdSize);
    StoredBigEndianIsBigEndian(h.dataSize);
    StoredBigEndianIsBigEndian(h.metaSize);
  }

  /**
    A header kept from `LoadWAD` is written back with every field's bytes
    reversed: the loaded value is the little-endian reading of big-endian
    bytes, and `.bigEndian` swaps it once more before it is stored.
   */
  lemma LoadedHeaderWrittenReversed(data: Bytes)
    requires HEADER_SIZE <= |data|
    ensures HeaderBytes(ReadWadHeader(data)) ==
      Reverse(data[0..4]) + Reverse(data[4..8]) + Reverse(data[8..12]) + Reverse(data[12..16])
      + Reverse(data[16..20]) + Reverse(data[20..24]) + Reverse(data[24..28]) + Reverse(data[28..32])
  {
    var h := ReadWadHeader(data);
    StoredBigEndianIsBigEndian(h.headerSize);
    StoredBigEndianIsBigEndian(h.wadType);
    StoredBigEndianIsBigEndian(h.certificateSize);
    StoredBigEndianIsBigEndian(h.crlSize);
    StoredBigEndianIsBigEndian(h.ticketSize);
    StoredBigEndianIsBigEndian(h.tmdSize);
    StoredBigEndianIsBigEndian(h.dataSize);
    StoredBigEndianIsBigEndian(h.metaSize);
  }

  lemma U32LimitIsPow256()
    ensures Pow256(4) == U32_LIMIT
  {
    assert Pow256(2) == 0x1_0000;
  }

  /** The header `GetWAD` builds: `u32` values stored in host order. */
  function NewHeader(wadType: WadType, certSize: nat, crlSize: nat, ticketSize: nat, tmdSize: nat,
                     dataSize: nat, metaSize: nat): (h: WadHeader)
    requires certSize < U32_LIMIT && crlSize < U32_LIMIT && ticketSize < U32_LIMIT
    requires tmdSize < U32_LIMIT && dataSize < U32_LIMIT && metaSize < U32_LIMIT
  {
    U32LimitIsPow256();
    WadHeader(
      HostBytes(HEADER_SIZE, 4), HostBytes(WadTypeRawValueAsWritten(wadType), 4), HostBytes(certSize, 4),
      HostBytes(crlSize, 4), HostBytes(ticketSize, 4), HostBytes(tmdSize, 4), HostBytes(dataSize, 4),
      HostBytes(metaSize, 4))
  }

  /** Header `h` read under `.bigEndian` gives size 32, the type's tag and these section lengths. */
  predicate DescribesSections(h: WadHeader, wadType: WadType, certSize: nat, crlSize: nat, ticketSize: nat,
                              tmdSize: nat, dataSize: nat, metaSize: nat)
  {
    && BigEndian(h.headerSize) == HEADER_SIZE && BigEndian(h.wadType) == WadTypeRawValueAsWritten(wadType)
    && BigEndian(h.certificateSize) == certSize && BigEndian(h.crlSize) == crlSize
    && BigEndian(h.ticketSize) == ticketSize && BigEndian(h.tmdSize) == tmdSize
    && BigEndian(h.dataSize) == dataSize && BigEndian(h.metaSize) == metaSize
  }

  /**
    A header built by `GetWAD` is written as big-endian numbers, so reading
    it back yields, under `.bigEndian`, exactly the numbers it was built
    from.
   */
  lemma NewHeaderReadsBack(wadType: WadType, certSize: nat, crlSize: nat, ticketSize: nat, tmdSize: nat,
                           dataSize: nat, metaSize: nat)
    requires certSize < U32_LIMIT && crlSize < U32_LIMIT && ticketSize < U32_LIMIT
    requires tmdSize < U32_LIMIT && dataSize < U32_LIMIT && metaSize < U32_LIMIT
    ensures DescribesSections(
      ReadWadHeader(HeaderBytes(NewHeader(wadType, certSize, crlSize, ticketSize, tmdSize, dataSize, metaSize))),
      wadType, certSize, crlSize, ticketSize, tmdSize, dataSize, metaSize)
  {
    U32LimitIsPow256();
    HeaderBytesReadBack(NewHeader(wadType, certSize, crlSize, ticketSize, tmdSize, dataSize, metaSize));
    StoredU32(HEADER_SIZE);
    StoredU32(WadTypeRawValueAsWritten(wadType));
    StoredU32(certSize);
    StoredU32(crlSize);
    StoredU32(ticketSize);
    StoredU32(tmdSize);
    StoredU32(dataSize);
    StoredU32(metaSize);
  }

  /**
    `GetWAD` with `WadTypeUnknown` writes the seven-digit raw value: bytes
    4 to 7 of its header are 04 26 B0 00 rather than the tag 'Bk'.
   */
  lemma UnknownTypeHeaderBytes(certSize: nat, crlSize: nat, ticketSize: nat, tmdSize: nat, dataSize: nat,
                               metaSize: nat)
    requires certSize < U32_LIMIT && crlSize < U32_LIMIT && ticketSize < U32_LIMIT
    requires tmdSize < U32_LIMIT && dataSize < U32_LIMIT && metaSize < U32_LIMIT
    ensures HeaderBytes(NewHeader(WadTypeUnknown, certSize, crlSize, ticketSize, tmdSize, dataSize, metaSize))[4..8]
      == [0x04, 0x26, 0xB0, 0x00]
  {
    U32LimitIsPow256();
    var h := NewHeader(WadTypeUnknown, certSize, crlSize, ticketSize, tmdSize, dataSize, metaSize);
    var v := WadTypeRawValueAsWritten(WadTypeUnknown);
    assert HeaderBytes(h)[4..8] == StoredBigEndian(h.wadType);
    StoredBigEndianIsBigEndian(h.wadType);
    HostBytesReversed(v, 4);
    WadTypeUnknownAsWrittenIsNotATag();
  }

  /** Reading `GetHeader()`'s bytes as a header gives back each stored field. */
  lemma HeaderBytesReadBack(h: WadHeader)
    ensures ReadWadHeader(HeaderBytes(h)) == WadHeader(
      StoredBigEndian(h.headerSize), StoredBigEndian(h.wadType), StoredBigEndian(h.certificateSize),
      StoredBigEndian(h.crlSize), StoredBigEndian(h.ticketSize), StoredBigEndian(h.tmdSize),
      StoredBigEndian(h.dataSize), StoredBigEndian(h.metaSize))
  {
    var bs := HeaderBytes(h);
    var s0, s1, s2, s3 := StoredBigEndian(h.headerSize), StoredBigEndian(h.wadType),
      StoredBigEndian(h.certificateSize), StoredBigEndian(h.crlSize);
    var s4, s5, s6, s7 := StoredBigEndian(h.ticketSize), StoredBigEndian(h.tmdSize),
      StoredBigEndian(h.dataSize), StoredBigEndian(h.metaSize);
    assert bs == s0 + s1 + s2 + s3 + s4 + s5 + s6 + s7;
    assert bs[0..4] == s0;
    assert bs[4..8] == s1;
    assert bs[8..12] == s2;
    assert bs[12..16] == s3;
    assert bs[16..20] == s4;
    assert bs[20..24] == s5;
    assert bs[24..28] == s6;
    assert bs[28..32] == s7;
  }

  /** A `u32` stored in host order and written through `.bigEndian` reads back, big-endian, as itself. */
  lemma StoredU32(n: nat)
    requires n < U32_LIMIT
    ensures U32_LIMIT == Pow256(4) && BigEndian(StoredBigEndian(HostBytes(n, 4))) == n
  {
    U32LimitIsPow256();
    StoredBigEndianIsBigEndian(HostBytes(n, 4));
    HostBytesReversed(n, 4);
  }

  /** The sum of the six declared section sizes that `LoadWAD` checks against the buffer. */
  function SectionSum(h: WadHeader): nat {
    BigEndian(h.certificateSize) + BigEndian(h.crlSize) + BigEndian(h.ticketSize)
    + BigEndian(h.tmdSize) + BigEndian(h.dataSize) + BigEndian(h.metaSize)
  }

  /** Where the certificate chain starts: the initial cursor 32, aligned. */
  function CertOffset(): nat {
    Align(HEADER_SIZE)
  }

  /** Where the CRL starts: after the declared certificate size, aligned. */
  function CrlOffset(h: WadHeader): nat {
    Align(CertOffset() + BigEndian(h.certificateSize))
  }

  /** Where the ticket starts: after the declared CRL size, aligned. */
  function TicketOffset(h: WadHeader): nat {
    Align(CrlOffset(h) + BigEndian(h.crlSize))
  }

  /** Where the TMD starts: 676 bytes after the ticket, aligned; the declared ticket size is not used. */
  function TmdOffset(h: WadHeader): nat {
    Align(TicketOffset(h) + TICKET_SIZE)
  }

  /** Every section starts on a 64-byte boundary no earlier than the end of the one before it. */
  lemma SectionOffsets(h: WadHeader)
    ensures CertOffset() == 64
    ensures CrlOffset(h) % ALIGNMENT == 0 && CertOffset() + BigEndian(h.certificateSize) <= CrlOffset(h)
    ensures TicketOffset(h) % ALIGNMENT == 0 && CrlOffset(h) + BigEndian(h.crlSize) <= TicketOffset(h)
    ensures TmdOffset(h) % ALIGNMENT == 0 && TicketOffset(h) + TICKET_SIZE <= TmdOffset(h)
  {
  }

  /** `bytes` holds `piece` at offset `at`. */
  predicate PlacedAt(bytes: Bytes, at: nat, piece: Bytes) {
    at + |piece| <= |bytes| && bytes[at..at + |piece|] == piece
  }

  /** Every section of a WAD, as the `WAD` struct holds them. */
  datatype WadParts = WadParts(
    header: WadHeader,
    certificateChain: Bytes,
    certificateRevocationList: Bytes,
    ticket: Ticket,
    tmd: Tmd,
    contents: seq<Content>,
    meta: Bytes)

  /**
    The checks `LoadWAD` makes before reading any section: the header is
    inside the buffer, its size field is 32, and the six section sizes add
    up, without overflowing a `u32`, to no more than the buffer holds.
   */
  function HeaderCheck(data: Bytes): (r: Result<WadHeader>)
    ensures r.Ok? ==> HEADER_SIZE <= |data| && r.value == ReadWadHeader(data)
    ensures r.Ok? ==> BigEndian(r.value.headerSize) == HEADER_SIZE && SectionSum(r.value) <= |data|
  {
    if |data| < HEADER_SIZE then Err(Trap(ReadPastEnd))
    else
      var h := ReadWadHeader(data);
      if BigEndian(h.headerSize) != HEADER_SIZE then Err(MismatchingHeaderSize)
      else if SectionSum(h) >= U32_LIMIT then Err(Trap(ArithmeticOverflow))
      else if SectionSum(h) > |data| then Err(IncorrectFileSize)
      else Ok(h)
  }

  /** The certificate chain and the CRL, each read at its offset with its declared size. */
  function BlobsAt(data: Bytes, h: WadHeader): (r: Result<(Bytes, Bytes)>)
    ensures r.Err? ==> r.error == Trap(ReadPastEnd)
    ensures r.Ok? ==> |r.value.0| == BigEndian(h.certificateSize) && |r.value.1| == BigEndian(h.crlSize)
  {
    if CertOffset() + BigEndian(h.certificateSize) > |data| then Err(Trap(ReadPastEnd))
    else if CrlOffset(h) + BigEndian(h.crlSize) > |data| then Err(Trap(ReadPastEnd))
    else
      Ok((data[CertOffset()..CertOffset() + BigEndian(h.certificateSize)],
          data[CrlOffset(h)..CrlOffset(h) + BigEndian(h.crlSize)]))
  }

  /** The ticket, decoded at its offset and its key unwrapped. */
  function TicketSection(data: Bytes, h: WadHeader, keys: KeyTable, cipher: Cipher): (r: Result<Ticket>)
    ensures r.Err? ==> r.error == Trap(ReadPastEnd) || r.error == CipherFailure
  {
    if TicketOffset(h) + TICKET_SIZE > |data| then Err(Trap(ReadPastEnd))
    else DecryptKey(TicketAt(data, TicketOffset(h), keys), keys, cipher)
  }

  /** The TMD, decoded at its offset. */
  function TmdSection(data: Bytes, h: WadHeader): (r: Result<Tmd>)
    ensures r.Err? ==> r.error.Trap?
    ensures r.Ok? <==> TmdFits(data, TmdOffset(h))
  {
    match TmdTrap(data, TmdOffset(h))
    case Some(reason) => Err(Trap(reason))
    case None => Ok(TmdAt(data, TmdOffset(h)))
  }

  /** Where the cursor stands after the record table of `tmd`. */
  function TmdEnd(h: WadHeader, tmd: Tmd): nat {
    TmdOffset(h) + TMD_HEADER_SIZE + RECORD_SIZE * |tmd.contentRecords|
  }

  /** The meta blob of `metaSize` bytes where the content loop left the cursor, after the contents it loaded. */
  function MetaAfter(data: Bytes, metaSize: nat, loaded: Result<(seq<Content>, nat)>): (r: Result<(seq<Content>, Bytes)>)
    ensures loaded.Err? ==> r == Err(loaded.error)
    ensures loaded.Ok? && loaded.value.1 + metaSize <= |data| ==>
      r == Ok((loaded.value.0, data[loaded.value.1..loaded.value.1 + metaSize]))
    ensures loaded.Ok? && loaded.value.1 + metaSize > |data| ==> r == Err(Trap(ReadPastEnd))
  {
    if loaded.Err? then Err(loaded.error)
    else if loaded.value.1 + metaSize > |data| then Err(Trap(ReadPastEnd))
    else Ok((loaded.value.0, data[loaded.value.1..loaded.value.1 + metaSize]))
  }

  /** The contents, read from the aligned end of the TMD, and the meta blob right after them. */
  function ContentSection(data: Bytes, h: WadHeader, tmd: Tmd): (r: Result<(seq<Content>, Bytes)>)
    ensures r.Err? ==> r.error.Trap?
    ensures r.Ok? ==> |r.value.0| == |tmd.contentRecords| && |r.value.1| == BigEndian(h.metaSize)
  {
    MetaAfter(data, BigEndian(h.metaSize), ContentsAt(data, tmd.contentRecords, Align(TmdEnd(h, tmd))))
  }

  /** The content stage's contents are the ones `LoadData` reads at the aligned end of the TMD. */
  lemma ContentSectionLoads(data: Bytes, h: WadHeader, tmd: Tmd)
    requires ContentSection(data, h, tmd).Ok?
    ensures ContentsAt(data, tmd.contentRecords, Align(TmdEnd(h, tmd))).Ok?
    ensures ContentSection(data, h, tmd).value.0 == ContentsAt(data, tmd.contentRecords, Align(TmdEnd(h, tmd))).value.0
  {
  }

  /**
    The result of `LoadWAD(data:)` with the cursor at its initial value 32,
    in the order the checks and reads happen.
   */
  function LoadedWad(data: Bytes, keys: KeyTable, cipher: Cipher): (r: Result<WadParts>)
  {
    var h :- HeaderCheck(data);
    var blobs :- BlobsAt(data, h);
    var ticket :- TicketSection(data, h, keys, cipher);
    var tmd :- TmdSection(data, h);
    var rest :- ContentSection(data, h, tmd);
    Ok(WadParts(h, blobs.0, blobs.1, ticket, tmd, rest.0, rest.1))
  }

  /**
    `LoadWAD` fails with `mismatchingHeaderSize` exactly when the header's
    big-endian size field is not 32, whatever follows the header.
   */
  lemma HeaderSizeChecked(data: Bytes, keys: KeyTable, cipher: Cipher)
    requires HEADER_SIZE <= |data|
    ensures LoadedWad(data, keys, cipher) == Err(MismatchingHeaderSize) <==> BigEndian(data[0..4]) != HEADER_SIZE
  {
  }

  /** A header whose size field is not 32 is refused whatever bytes follow it. */
  lemma HeaderSizeCheckedFirst(header: Bytes, rest: Bytes, keys: KeyTable, cipher: Cipher)
    requires |header| == HEADER_SIZE
    requires BigEndian(header[0..4]) != HEADER_SIZE
    ensures LoadedWad(header + rest, keys, cipher) == Err(MismatchingHeaderSize)
  {
    assert (header + rest)[0..4] == header[0..4];
  }

  /**
    With a valid header size and a sum that fits a `u32`, `LoadWAD` fails
    with `incorrectFileSize` exactly when the six declared sizes add up to
    more than the buffer holds.
   */
  lemma FileSizeChecked(data: Bytes, keys: KeyTable, cipher: Cipher)
    requires HEADER_SIZE <= |data|
    requires BigEndian(data[0..4]) == HEADER_SIZE
    requires SectionSum(ReadWadHeader(data)) < U32_LIMIT
    ensures LoadedWad(data, keys, cipher) == Err(IncorrectFileSize) <==> SectionSum(ReadWadHeader(data)) > |data|
  {
  }

  /** A loaded WAD keeps the header it read and the certificate chain read at offset 64. */
  lemma LoadedCertificateChain(data: Bytes, keys: KeyTable, cipher: Cipher)
    requires LoadedWad(data, keys, cipher).Ok?
    ensures var w := LoadedWad(data, keys, cipher).value;
      && w.header == ReadWadHeader(data)
      && |w.certificateChain| == BigEndian(w.header.certificateSize)
      && PlacedAt(data, 64, w.certificateChain)
  {
    LoadedStages(data, keys, cipher);
    BlobsPlaced(data, HeaderCheck(data).value);
    assert CertOffset() == 64;
  }

  /** The CRL is read at `CrlOffset`, the 64-aligned position after the declared certificate size. */
  lemma LoadedCrl(data: Bytes, keys: KeyTable, cipher: Cipher)
    requires LoadedWad(data, keys, cipher).Ok?
    ensures var w := LoadedWad(data, keys, cipher).value;
      && |w.certificateRevocationList| == BigEndian(w.header.crlSize)
      && PlacedAt(data, CrlOffset(w.header), w.certificateRevocationList)
  {
    LoadedStages(data, keys, cipher);
    BlobsPlaced(data, HeaderCheck(data).value);
  }

  /** `BlobsAt` reads the chain and the CRL at their offsets. */
  lemma BlobsPlaced(data: Bytes, h: WadHeader)
    requires BlobsAt(data, h).Ok?
    ensures PlacedAt(data, CertOffset(), BlobsAt(data, h).value.0)
    ensures PlacedAt(data, CrlOffset(h), BlobsAt(data, h).value.1)
  {
  }

  /** A loaded WAD is assembled from the five stages, each of which succeeded. */
  lemma LoadedStages(data: Bytes, keys: KeyTable, cipher: Cipher)
    requires LoadedWad(data, keys, cipher).Ok?
    ensures HeaderCheck(data).Ok?
    ensures var h := HeaderCheck(data).value;
      && BlobsAt(data, h).Ok?
      && TicketSection(data, h, keys, cipher).Ok?
      && TmdSection(data, h).Ok?
      && ContentSection(data, h, TmdSection(data, h).value).Ok?
      && LoadedWad(data, keys, cipher).value == WadParts(h, BlobsAt(data, h).value.0, BlobsAt(data, h).value.1,
           TicketSection(data, h, keys, cipher).value, TmdSection(data, h).value,
           ContentSection(data, h, TmdSection(data, h).value).value.0,
           ContentSection(data, h, TmdSection(data, h).value).value.1)
  {
  }

  /** The ticket is decoded at `TicketOffset`, the 64-aligned position after the declared CRL size. */
  lemma LoadedTicket(data: Bytes, keys: KeyTable, cipher: Cipher)
    requires LoadedWad(data, keys, cipher).Ok?
    ensures var w := LoadedWad(data, keys, cipher).value;
      && TicketOffset(w.header) + TICKET_SIZE <= |data|
      && DecryptKey(TicketAt(data, TicketOffset(w.header), keys), keys, cipher).Ok?
      && w.ticket == DecryptKey(TicketAt(data, TicketOffset(w.header), keys), keys, cipher).value
  {
    LoadedStages(data, keys, cipher);
  }

  /** The TMD is decoded at `TmdOffset`, the 64-aligned position 676 bytes after the ticket's start. */
  lemma LoadedTmd(data: Bytes, keys: KeyTable, cipher: Cipher)
    requires LoadedWad(data, keys, cipher).Ok?
    ensures var w := LoadedWad(data, keys, cipher).value;
      && TmdFits(data, TmdOffset(w.header))
      && w.tmd == TmdAt(data, TmdOffset(w.header))
  {
    LoadedStages(data, keys, cipher);
  }

  /** The contents are read from the 64-aligned end of the TMD's record table, one per record. */
  lemma LoadedContents(data: Bytes, keys: KeyTable, cipher: Cipher)
    requires LoadedWad(data, keys, cipher).Ok?
    ensures var w := LoadedWad(data, keys, cipher).value;
      && ContentsAt(data, w.tmd.contentRecords, Align(TmdEnd(w.header, w.tmd))).Ok?
      && w.contents == ContentsAt(data, w.tmd.contentRecords, Align(TmdEnd(w.header, w.tmd))).value.0
      && |w.meta| == BigEndian(w.header.metaSize)
  {
    LoadedStages(data, keys, cipher);
    var h := HeaderCheck(data).value;
    ContentSectionLoads(data, h, TmdSection(data, h).value);
  }

  /**
    A WAD whose certificate chain and CRL are empty and whose TMD has one
    record: the ticket is read at 64, the TMD at 768 and the content area at
    1344 (that is `64 + 676 + pad(676) + 520 + pad(520)`), and a declared
    size of 32 gives a 32-byte block.
   */
  lemma SingleContentLayout(data: Bytes, keys: KeyTable, cipher: Cipher)
    requires HEADER_SIZE <= |data| && LoadedWad(data, keys, cipher).Ok?
    requires var h := ReadWadHeader(data); BigEndian(h.certificateSize) == 0 && BigEndian(h.crlSize) == 0
    requires 768 + TMD_HEADER_SIZE <= |data| && RecordCount(data, 768) == 1
    ensures var w := LoadedWad(data, keys, cipher).value;
      && TicketOffset(w.header) == 64
      && TmdOffset(w.header) == 768
      && |w.tmd.contentRecords| == 1 && |w.contents| == 1
      && (DeclaredSize(w.tmd.contentRecords[0]) == 32 ==>
            1376 <= |data| && w.contents[0].rawData == data[1344..1376])
  {
    var w := LoadedWad(data, keys, cipher).value;
    LoadedCertificateChain(data, keys, cipher);
    OffsetsWithoutCertificates(w.header);
    LoadedTmd(data, keys, cipher);
    LoadedContents(data, keys, cipher);
    ContentAreaAfterOneRecord(w.header, w.tmd);
    if DeclaredSize(w.tmd.contentRecords[0]) == 32 {
      SingleContentAt(data, w.tmd.contentRecords);
    }
  }

  /** With an empty certificate chain and CRL, the ticket is read at 64 and the TMD at 768. */
  lemma OffsetsWithoutCertificates(h: WadHeader)
    requires BigEndian(h.certificateSize) == 0 && BigEndian(h.crlSize) == 0
    ensures TicketOffset(h) == 64 && TmdOffset(h) == 768
  {
    assert CertOffset() == 64;
    assert GetPadding(740) == 28;
  }

  /** A TMD at 768 with one record ends at 1288, so the content area starts at 1344. */
  lemma ContentAreaAfterOneRecord(h: WadHeader, tmd: Tmd)
    requires TmdOffset(h) == 768 && |tmd.contentRecords| == 1
    ensures Align(TmdEnd(h, tmd)) == 1344
  {
    assert GetPadding(1288) == 56;
  }

  /** One record of declared size 32, loaded at 1344, is the 32 bytes there. */
  lemma SingleContentAt(data: Bytes, records: seq<ContentRecord>)
    requires |records| == 1 && DeclaredSize(records[0]) == 32
    requires ContentsAt(data, records, 1344).Ok?
    ensures ContentsAt(data, records, 1344).value.0[0].rawData == data[1344..1376]
  {
    assert records[..0] == [];
    ContentsAtStep(data, records, 1344, 0);
    assert records[..1] == records;
  }

  /** The record table after `GetWAD`'s refresh loop: content `i`'s size and hash copied into record `i`. */
  function RefreshRecords(records: seq<ContentRecord>, contents: seq<Content>): (r: seq<ContentRecord>)
    requires |contents| <= |records|
    ensures |r| == |records|
    ensures forall i | 0 <= i < |records| ::
      && r[i].id == records[i].id && r[i].index == records[i].index && r[i].contentType == records[i].contentType
    ensures forall i | 0 <= i < |contents| ::
      r[i].size == contents[i].contentRecord.size && r[i].hash == contents[i].contentRecord.hash
    ensures forall i | |contents| <= i < |records| :: r[i] == records[i]
  {
    seq(|records|, i requires 0 <= i < |records| =>
      if i < |contents| then
        records[i].(size := contents[i].contentRecord.size, hash := contents[i].contentRecord.hash)
      else records[i])
  }

  /** What `GetWAD` produces besides its bytes: the refreshed TMD and the new header. */
  datatype Image = Image(tmd: Tmd, header: WadHeader, bytes: Bytes)

  /**
    The TMD after `GetWAD`'s loop: each content's size and hash copied into
    the record at its index. A content without a record stops the program.
   */
  function RefreshedTmd(tmd: Tmd, contents: seq<Content>): (r: Result<Tmd>)
    ensures r.Err? <==> |contents| > |tmd.contentRecords|
    ensures r.Err? ==> r.error == Trap(IndexOutOfRange)
  {
    if |contents| > |tmd.contentRecords| then Err(Trap(IndexOutOfRange))
    else Ok(tmd.(contentRecords := RefreshRecords(tmd.contentRecords, contents)))
  }

  /**
    The header `GetWAD` builds for sections of these lengths. A length that
    does not fit a `u32` stops the program.
   */
  function ImageHeader(wadType: WadType, cert: Bytes, crl: Bytes, ticketBytes: Bytes, tmdBytes: Bytes,
                       area: Bytes, meta: Bytes): (r: Result<WadHeader>)
    ensures r.Err? ==> r.error == Trap(ArithmeticOverflow)
  {
    if || |cert| >= U32_LIMIT || |crl| >= U32_LIMIT || |ticketBytes| >= U32_LIMIT
       || |tmdBytes| >= U32_LIMIT || |area| >= U32_LIMIT || |meta| >= U32_LIMIT
    then
      Err(Trap(ArithmeticOverflow))
    else
      Ok(NewHeader(wadType, |cert|, |crl|, |ticketBytes|, |tmdBytes|, |area|, |meta|))
  }

  /** The bytes `GetWAD` returns: every section but the CRL, each padded to 64 bytes, in file order. */
  function Assemble(header: WadHeader, cert: Bytes, ticketBytes: Bytes, tmdBytes: Bytes, area: Bytes,
                    meta: Bytes): Bytes
  {
    Padded(HeaderBytes(header)) + Padded(cert) + Padded(ticketBytes) + Padded(tmdBytes) + Padded(area) + Padded(meta)
  }

  /**
    The result of `GetWAD(wadType:)`: the ticket re-wrapped and serialised,
    the TMD with refreshed records, the padded contents, a header of the
    actual lengths, and the padded concatenation of header, certificate
    chain, ticket, TMD, content area and meta. The CRL is counted in the
    header but not written.
   */
  function WadImage(w: WadParts, wadType: WadType, keys: KeyTable, cipher: Cipher): (r: Result<Image>)
  {
    var ticketBytes :- SerializedTicket(w.ticket, keys, cipher);
    var tmd :- RefreshedTmd(w.tmd, w.contents);
    var header :- ImageHeader(wadType, w.certificateChain, w.certificateRevocationList, ticketBytes,
      TmdBytes(tmd), DataArea(w.contents), w.meta);
    Ok(Image(tmd, header, Assemble(header, w.certificateChain, ticketBytes, TmdBytes(tmd), DataArea(w.contents), w.meta)))
  }

  /**
    What `GetWAD` promises for `image`, the result of `WadImage` on the WAD
    before the call: it returns the image's bytes and leaves the image's TMD
    and header in the WAD, or it fails with the image's error; a failure
    that is not a trap leaves the TMD and the header as they were.
   */
  predicate GetWadOutcome(image: Result<Image>, r: Result<Bytes>, tmd: Tmd, header: WadHeader,
                          oldTmd: Tmd, oldHeader: WadHeader)
  {
    && (r.Ok? <==> image.Ok?)
    && (r.Err? ==> r.error == image.error)
    && (r.Ok? ==> r.value == image.value.bytes && tmd == image.value.tmd && header == image.value.header)
    && (r.Err? && !r.error.Trap? ==> tmd == oldTmd && header == oldHeader)
  }

  /** Returning an image's bytes with its TMD and header in place is `GetWAD`'s promise for that image. */
  lemma OutcomeOfImage(image: Result<Image>, r: Result<Bytes>, tmd: Tmd, header: WadHeader,
                       oldTmd: Tmd, oldHeader: WadHeader)
    requires image.Ok? && r == Ok(image.value.bytes) && tmd == image.value.tmd && header == image.value.header
    ensures GetWadOutcome(image, r, tmd, header, oldTmd, oldHeader)
  {
  }

  /** Failing with the image's error is `GetWAD`'s promise when a trap, or nothing, has changed the state. */
  lemma OutcomeOfError(e: Error, tmd: Tmd, header: WadHeader, oldTmd: Tmd, oldHeader: WadHeader)
    requires e.Trap? || (tmd == oldTmd && header == oldHeader)
    ensures GetWadOutcome(Err(e), Err(e), tmd, header, oldTmd, oldHeader)
  {
  }

  /** A ticket that cannot be re-wrapped fails `GetWAD` with the cipher's error. */
  lemma ImageTicketFailure(w: WadParts, wadType: WadType, keys: KeyTable, cipher: Cipher)
    requires SerializedTicket(w.ticket, keys, cipher).Err?
    ensures WadImage(w, wadType, keys, cipher) == Err(SerializedTicket(w.ticket, keys, cipher).error)
  {
  }

  /** More contents than TMD records stops `GetWAD` in its refresh loop. */
  lemma ImageRecordFailure(w: WadParts, wadType: WadType, keys: KeyTable, cipher: Cipher)
    requires SerializedTicket(w.ticket, keys, cipher).Ok?
    requires |w.contents| > |w.tmd.contentRecords|
    ensures WadImage(w, wadType, keys, cipher) == Err(Trap(IndexOutOfRange))
  {
  }

  /** A section whose length does not fit a `u32` stops `GetWAD` when it builds the header. */
  lemma ImageOverflow(w: WadParts, wadType: WadType, keys: KeyTable, cipher: Cipher, ticketBytes: Bytes, tmd: Tmd)
    requires SerializedTicket(w.ticket, keys, cipher) == Ok(ticketBytes)
    requires RefreshedTmd(w.tmd, w.contents) == Ok(tmd)
    requires ImageHeader(wadType, w.certificateChain, w.certificateRevocationList, ticketBytes, TmdBytes(tmd),
      DataArea(w.contents), w.meta).Err?
    ensures WadImage(w, wadType, keys, cipher) == Err(Trap(ArithmeticOverflow))
  {
  }

  /** `GetWAD`'s stages, each succeeding, give its image. */
  lemma ImageOfStages(w: WadParts, wadType: WadType, keys: KeyTable, cipher: Cipher, ticketBytes: Bytes, tmd: Tmd,
                      header: WadHeader, bytes: Bytes)
    requires SerializedTicket(w.ticket, keys, cipher) == Ok(ticketBytes)
    requires RefreshedTmd(w.tmd, w.contents) == Ok(tmd)
    requires ImageHeader(wadType, w.certificateChain, w.certificateRevocationList, ticketBytes, TmdBytes(tmd),
      DataArea(w.contents), w.meta) == Ok(header)
    requires bytes == Assemble(header, w.certificateChain, ticketBytes, TmdBytes(tmd), DataArea(w.contents), w.meta)
    ensures WadImage(w, wadType, keys, cipher) == Ok(Image(tmd, header, bytes))
  {
  }

  /**
    What the part of `GetWAD` after its loop promises on the sections `w`:
    it stores the header of their lengths and returns their padded
    concatenation, or it stops on a length that does not fit a `u32`
    without storing a header.
   */
  predicate WriteOutcome(w: WadParts, wadType: WadType, ticketBytes: Bytes, r: Result<Bytes>, header: WadHeader,
                         oldHeader: WadHeader)
  {
    var h := ImageHeader(wadType, w.certificateChain, w.certificateRevocationList, ticketBytes, TmdBytes(w.tmd),
      DataArea(w.contents), w.meta);
    && (r.Ok? <==> h.Ok?)
    && (r.Err? ==> r.error == h.error && header == oldHeader)
    && (r.Ok? ==> header == h.value)
    && (r.Ok? ==> r.value == Assemble(h.value, w.certificateChain, ticketBytes, TmdBytes(w.tmd), DataArea(w.contents),
                                      w.meta))
  }

  /**
    Writing the sections `refreshed`, which are `w` with a re-wrapped
    ticket and refreshed records, keeps `GetWAD`'s promise for `w`.
   */
  lemma ImageOfWrite(w: WadParts, wadType: WadType, keys: KeyTable, cipher: Cipher, ticketBytes: Bytes,
                     refreshed: WadParts, r: Result<Bytes>, header: WadHeader)
    requires SerializedTicket(w.ticket, keys, cipher) == Ok(ticketBytes)
    requires RefreshedTmd(w.tmd, w.contents) == Ok(refreshed.tmd)
    requires refreshed == w.(tmd := refreshed.tmd)
    requires WriteOutcome(refreshed, wadType, ticketBytes, r, header, w.header)
    ensures GetWadOutcome(WadImage(w, wadType, keys, cipher), r, refreshed.tmd, header, w.tmd, w.header)
  {
  }

  /** The padded header, and the padded header, chain and ticket, are prefixes of the output. */
  lemma AssemblePrefixes(header: WadHeader, cert: Bytes, ticketBytes: Bytes, tmdBytes: Bytes, area: Bytes, meta: Bytes)
    ensures Padded(HeaderBytes(header)) <= Assemble(header, cert, ticketBytes, tmdBytes, area, meta)
    ensures Padded(HeaderBytes(header)) + Padded(cert) + Padded(ticketBytes)
      <= Assemble(header, cert, ticketBytes, tmdBytes, area, meta)
  {
    var p0, p1, p2 := Padded(HeaderBytes(header)), Padded(cert), Padded(ticketBytes);
    var p3, p4, p5 := Padded(tmdBytes), Padded(area), Padded(meta);
    assert p0 + p1 + p2 <= p0 + p1 + p2 + p3;
    assert p0 + p1 + p2 + p3 <= p0 + p1 + p2 + p3 + p4;
    assert p0 + p1 + p2 + p3 + p4 <= p0 + p1 + p2 + p3 + p4 + p5;
    assert p0 <= p0 + p1 + p2;
  }

  /** `GetWAD` fails only by a failed re-wrap of the title key or a trap. */
  lemma ImageErrors(w: WadParts, wadType: WadType, keys: KeyTable, cipher: Cipher)
    requires WadImage(w, wadType, keys, cipher).Err?
    ensures var e := WadImage(w, wadType, keys, cipher).error; e == CipherFailure || e.Trap?
  {
  }

  /** Two byte strings of whole 64-byte blocks concatenate to whole blocks. */
  lemma AlignedConcat(a: Bytes, b: Bytes)
    requires |a| % ALIGNMENT == 0 && |b| % ALIGNMENT == 0
    ensures |a + b| % ALIGNMENT == 0
  {
    var k, m := |a| / ALIGNMENT, |b| / ALIGNMENT;
    assert |a + b| == ALIGNMENT * (k + m);
  }

  /** `GetWAD`'s output is a whole number of 64-byte blocks. */
  lemma ImageIsAligned(w: WadParts, wadType: WadType, keys: KeyTable, cipher: Cipher)
    requires WadImage(w, wadType, keys, cipher).Ok?
    ensures |WadImage(w, wadType, keys, cipher).value.bytes| % ALIGNMENT == 0
  {
    ImageStages(w, wadType, keys, cipher);
    var image := WadImage(w, wadType, keys, cipher).value;
    AssembleIsAligned(image.header, w.certificateChain, SerializedTicket(w.ticket, keys, cipher).value,
      TmdBytes(image.tmd), DataArea(w.contents), w.meta);
  }

  /** Six padded sections make whole 64-byte blocks. */
  lemma AssembleIsAligned(header: WadHeader, cert: Bytes, ticketBytes: Bytes, tmdBytes: Bytes, area: Bytes, meta: Bytes)
    ensures |Assemble(header, cert, ticketBytes, tmdBytes, area, meta)| % ALIGNMENT == 0
  {
    var p0, p1, p2 := Padded(HeaderBytes(header)), Padded(cert), Padded(ticketBytes);
    var p3, p4, p5 := Padded(tmdBytes), Padded(area), Padded(meta);
    AlignedConcat(p0, p1);
    AlignedConcat(p0 + p1, p2);
    AlignedConcat(p0 + p1 + p2, p3);
    AlignedConcat(p0 + p1 + p2 + p3, p4);
    AlignedConcat(p0 + p1 + p2 + p3 + p4, p5);
  }

  /**
    The header of `GetWAD`'s output reads back as header size 32, the
    type tag, and the byte length of each section it describes, so the
    output passes `LoadWAD`'s header-size check.
   */
  lemma ImageHeaderReadsBack(w: WadParts, wadType: WadType, keys: KeyTable, cipher: Cipher)
    requires WadImage(w, wadType, keys, cipher).Ok?
    ensures SerializedTicket(w.ticket, keys, cipher).Ok?
    ensures PlacedAt(WadImage(w, wadType, keys, cipher).value.bytes, 0,
      HeaderBytes(WadImage(w, wadType, keys, cipher).value.header))
    ensures DescribesSections(ReadWadHeader(WadImage(w, wadType, keys, cipher).value.bytes), wadType,
      |w.certificateChain|, |w.certificateRevocationList|, |SerializedTicket(w.ticket, keys, cipher).value|,
      |TmdBytes(WadImage(w, wadType, keys, cipher).value.tmd)|, |DataArea(w.contents)|, |w.meta|)
  {
    ImageStages(w, wadType, keys, cipher);
    var image := WadImage(w, wadType, keys, cipher).value;
    AssembledHeaderReadsBack(wadType, w.certificateChain, w.certificateRevocationList,
      SerializedTicket(w.ticket, keys, cipher).value, TmdBytes(image.tmd), DataArea(w.contents), w.meta, image.header);
  }

  /** The assembled bytes start with the header, which reads back as the lengths it was built from. */
  lemma AssembledHeaderReadsBack(wadType: WadType, cert: Bytes, crl: Bytes, ticketBytes: Bytes, tmdBytes: Bytes,
                                 area: Bytes, meta: Bytes, header: WadHeader)
    requires ImageHeader(wadType, cert, crl, ticketBytes, tmdBytes, area, meta) == Ok(header)
    ensures PlacedAt(Assemble(header, cert, ticketBytes, tmdBytes, area, meta), 0, HeaderBytes(header))
    ensures DescribesSections(ReadWadHeader(Assemble(header, cert, ticketBytes, tmdBytes, area, meta)), wadType,
      |cert|, |crl|, |ticketBytes|, |tmdBytes|, |area|, |meta|)
  {
    var bytes := Assemble(header, cert, ticketBytes, tmdBytes, area, meta);
    var headerBytes := HeaderBytes(header);
    AssemblePrefixes(header, cert, ticketBytes, tmdBytes, area, meta);
    assert bytes[..HEADER_SIZE] == Padded(headerBytes)[..HEADER_SIZE] == headerBytes;
    NewHeaderReadsBack(wadType, |cert|, |crl|, |ticketBytes|, |tmdBytes|, |area|, |meta|);
    ReadWadHeaderOfPrefix(bytes, headerBytes);
  }

  /** `readWadHeader` looks at the first 32 bytes only. */
  lemma ReadWadHeaderOfPrefix(data: Bytes, prefix: Bytes)
    requires |prefix| == HEADER_SIZE && HEADER_SIZE <= |data| && data[..HEADER_SIZE] == prefix
    ensures ReadWadHeader(data) == ReadWadHeader(prefix)
  {
    assert forall i, j | 0 <= i <= j <= HEADER_SIZE :: data[i..j] == prefix[i..j];
  }

  /** The stages of a successful `GetWAD`, named. */
  lemma ImageStages(w: WadParts, wadType: WadType, keys: KeyTable, cipher: Cipher)
    requires WadImage(w, wadType, keys, cipher).Ok?
    ensures SerializedTicket(w.ticket, keys, cipher).Ok?
    ensures RefreshedTmd(w.tmd, w.contents).Ok?
    ensures var image := WadImage(w, wadType, keys, cipher).value;
      && image.tmd == RefreshedTmd(w.tmd, w.contents).value
      && ImageHeader(wadType, w.certificateChain, w.certificateRevocationList,
           SerializedTicket(w.ticket, keys, cipher).value, TmdBytes(image.tmd), DataArea(w.contents), w.meta)
         == Ok(image.header)
      && image.bytes == Assemble(image.header, w.certificateChain, SerializedTicket(w.ticket, keys, cipher).value,
           TmdBytes(image.tmd), DataArea(w.contents), w.meta)
  {
  }

  /** `GetWAD` writes the serialised ticket right after the padded header and the padded certificate chain. */
  lemma ImageTicketPlacement(w: WadParts, wadType: WadType, keys: KeyTable, cipher: Cipher)
    requires WadImage(w, wadType, keys, cipher).Ok?
    ensures SerializedTicket(w.ticket, keys, cipher).Ok?
    ensures PlacedAt(WadImage(w, wadType, keys, cipher).value.bytes, ALIGNMENT + Align(|w.certificateChain|),
      SerializedTicket(w.ticket, keys, cipher).value)
  {
    ImageStages(w, wadType, keys, cipher);
    var ticketBytes := SerializedTicket(w.ticket, keys, cipher).value;
    var tmd := RefreshedTmd(w.tmd, w.contents).value;
    var header := WadImage(w, wadType, keys, cipher).value.header;
    ImageOfStages(w, wadType, keys, cipher, ticketBytes, tmd, header,
      Assemble(header, w.certificateChain, ticketBytes, TmdBytes(tmd), DataArea(w.contents), w.meta));
    AssembleTicketAt(header, w.certificateChain, ticketBytes, TmdBytes(tmd), DataArea(w.contents), w.meta,
      ALIGNMENT + Align(|w.certificateChain|));
  }

  /**
    The header of `GetWAD`'s output leaves room for the CRL between the
    certificate chain and the ticket, although the CRL is not written:
    `LoadWAD` looks for the ticket where `GetWAD` put it exactly when the
    CRL is empty.
   */
  lemma CrlOmissionMovesTicket(w: WadParts, wadType: WadType, keys: KeyTable, cipher: Cipher)
    requires WadImage(w, wadType, keys, cipher).Ok?
    ensures var image := WadImage(w, wadType, keys, cipher).value;
      && HEADER_SIZE <= |image.bytes|
      && (TicketOffset(ReadWadHeader(image.bytes)) == ALIGNMENT + Align(|w.certificateChain|)
          <==> |w.certificateRevocationList| == 0)
  {
    var image := WadImage(w, wadType, keys, cipher).value;
    ImageHeaderReadsBack(w, wadType, keys, cipher);
    TicketOffsetWithoutCrl(ReadWadHeader(image.bytes));
    ChainEnd(|w.certificateChain|);
  }

  /** The padded certificate chain ends one block past its padded length. */
  lemma ChainEnd(n: nat)
    ensures Align(CertOffset() + n) == ALIGNMENT + Align(n)
  {
    AlignShift(n);
    assert CertOffset() == 64;
  }

  /** `LoadWAD` looks for the ticket right after the padded certificate chain exactly when the CRL size is 0. */
  lemma TicketOffsetWithoutCrl(h: WadHeader)
    ensures TicketOffset(h) == Align(CertOffset() + BigEndian(h.certificateSize)) <==> BigEndian(h.crlSize) == 0
  {
    AlignStaysPut(CrlOffset(h), BigEndian(h.crlSize));
  }

  /** The serialised ticket follows the padded header and the padded certificate chain. */
  lemma AssembleTicketAt(header: WadHeader, cert: Bytes, ticketBytes: Bytes, tmdBytes: Bytes, area: Bytes, meta: Bytes,
                         at: nat)
    requires at == ALIGNMENT + Align(|cert|)
    ensures PlacedAt(Assemble(header, cert, ticketBytes, tmdBytes, area, meta), at, ticketBytes)
  {
    AssemblePrefixes(header, cert, ticketBytes, tmdBytes, area, meta);
    var p0, p1, p2 := Padded(HeaderBytes(header)), Padded(cert), Padded(ticketBytes);
    assert GetPadding(HEADER_SIZE) == 32;
    assert |p0 + p1| == at;
    assert (p0 + p1 + p2)[at..at + |ticketBytes|] == p2[..|ticketBytes|];
  }

  /** The `WAD` struct: the sections of one WAD, updated in place by `GetWAD`, `LoadTicket` and `LoadTMD`. */
  class Wad {
    var header: WadHeader
    var certificateChain: Bytes
    var certificateRevocationList: Bytes
    var ticket: Ticket
    var tmd: Tmd
    var contents: seq<Content>
    var meta: Bytes

    constructor (parts: WadParts)
      ensures Parts() == parts
    {
      header := parts.header;
      certificateChain := parts.certificateChain;
      certificateRevocationList := parts.certificateRevocationList;
      ticket := parts.ticket;
      tmd := parts.tmd;
      contents := parts.contents;
      meta := parts.meta;
    }

    /** The sections as a value. */
    function Parts(): WadParts
      reads this
    {
      WadParts(header, certificateChain, certificateRevocationList, ticket, tmd, contents, meta)
    }

    /** `GetHeader()`: appends each field's `.bigEndian` in host order. */
    method GetHeader() returns (byteArray: Bytes)
      ensures byteArray == HeaderBytes(header)
    {
      var h := header;
      byteArray := [];
      byteArray := byteArray + HostBytes(BigEndian(h.headerSize), 4);
      assert byteArray == StoredBigEndian(h.headerSize);
      byteArray := byteArray + HostBytes(BigEndian(h.wadType), 4);
      byteArray := byteArray + HostBytes(BigEndian(h.certificateSize), 4);
      byteArray := byteArray + HostBytes(BigEndian(h.crlSize), 4);
      byteArray := byteArray + HostBytes(BigEndian(h.ticketSize), 4);
      byteArray := byteArray + HostBytes(BigEndian(h.tmdSize), 4);
      byteArray := byteArray + HostBytes(BigEndian(h.dataSize), 4);
      byteArray := byteArray + HostBytes(BigEndian(h.metaSize), 4);
    }

    /**
      `GetWAD(wadType:)`: serialises the ticket, copies each content's size
      and hash into its TMD record, serialises the TMD and the contents,
      stores the new header and returns the padded sections. It stops
      before changing anything when the ticket cannot be re-wrapped.
     */
    method GetWAD(wadType: WadType, keys: KeyTable, cipher: Cipher) returns (r: Result<Bytes>)
      modifies this`tmd, this`header
      ensures GetWadOutcome(WadImage(old(Parts()), wadType, keys, cipher), r, tmd, header, old(tmd), old(header))
    {
      var serialized := GetTicket(ticket, keys, cipher);
      if serialized.Err? {
        ImageTicketFailure(old(Parts()), wadType, keys, cipher);
        OutcomeOfError(serialized.error, tmd, header, old(tmd), old(header));
        return Err(serialized.error);
      }
      var refreshed := RefreshContentRecords();
      if refreshed.Err? {
        ImageRecordFailure(old(Parts()), wadType, keys, cipher);
        OutcomeOfError(refreshed.error, tmd, header, old(tmd), old(header));
        return Err(refreshed.error);
      }
      ghost var refreshedParts := Parts();
      r := WriteImage(wadType, serialized.value);
      ImageOfWrite(old(Parts()), wadType, keys, cipher, serialized.value, refreshedParts, r, header);
    }

    /**
      The rest of `GetWAD` after its loop: serialises the TMD and the
      contents, builds and stores the header and returns the padded
      sections. A length that does not fit a `u32` stops the program.
     */
    method WriteImage(wadType: WadType, ticketBytes: Bytes) returns (r: Result<Bytes>)
      modifies this`header
      ensures WriteOutcome(old(Parts()), wadType, ticketBytes, r, header, old(header))
    {
      var cert, crl, items, metaBytes := certificateChain, certificateRevocationList, contents, meta;
      var tmdBytes := GetTMD(tmd);
      var area := GetData(items);
      var newHeader := MakeHeader(wadType, cert, crl, ticketBytes, tmdBytes, area, metaBytes);
      if newHeader.Err? {
        return Err(newHeader.error);
      }
      header := newHeader.value;
      var headerContents := GetHeader();
      var wad := WriteSections(headerContents, cert, ticketBytes, tmdBytes, area, metaBytes, newHeader.value);
      r := Ok(wad);
    }

    /**
      `GetWAD`'s loop over the contents: copies the size and hash of content
      `i` into TMD record `i`. A content without a record stops the program.
     */
    method RefreshContentRecords() returns (r: Result<()>)
      modifies this`tmd
      ensures var refreshed := RefreshedTmd(old(tmd), old(contents));
        && (r.Ok? <==> refreshed.Ok?)
        && (r.Err? ==> r.error == refreshed.error)
        && (r.Ok? ==> Parts() == old(Parts()).(tmd := refreshed.value))
    {
      ghost var records0 := tmd.contentRecords;
      var items := contents;
      for i := 0 to |items|
        invariant i <= |records0|
        invariant tmd == old(tmd).(contentRecords := RefreshRecords(records0, items[..i]))
      {
        if i >= |tmd.contentRecords| {
          return Err(Trap(IndexOutOfRange));
        }
        var content := items[i];
        var records := tmd.contentRecords;
        records := records[i := records[i].(size := content.contentRecord.size)];
        records := records[i := records[i].(hash := content.contentRecord.hash)];
        assert records == RefreshRecords(records0, items[..i + 1]);
        tmd := tmd.(contentRecords := records);
      }
      assert items[..|items|] == items;
      r := Ok(());
    }

    /**
      The `WADHeader` `GetWAD` builds: size 32, the type's tag and each
      length converted by `u32(_)`, which stops the program on a length that
      does not fit.
     */
    static method MakeHeader(wadType: WadType, cert: Bytes, crl: Bytes, ticketBytes: Bytes, tmdBytes: Bytes,
                             area: Bytes, meta: Bytes) returns (r: Result<WadHeader>)
      ensures r == ImageHeader(wadType, cert, crl, ticketBytes, tmdBytes, area, meta)
    {
      if || |cert| >= U32_LIMIT || |crl| >= U32_LIMIT || |ticketBytes| >= U32_LIMIT
         || |tmdBytes| >= U32_LIMIT || |area| >= U32_LIMIT || |meta| >= U32_LIMIT
      {
        return Err(Trap(ArithmeticOverflow));
      }
      r := Ok(NewHeader(wadType, |cert|, |crl|, |ticketBytes|, |tmdBytes|, |area|, |meta|));
    }

    /** `GetWAD`'s appends: each section padded to 64 bytes, in file order. */
    static method WriteSections(headerContents: Bytes, cert: Bytes, ticketBytes: Bytes, tmdBytes: Bytes,
                                area: Bytes, meta: Bytes, ghost header: WadHeader) returns (wad: Bytes)
      requires headerContents == HeaderBytes(header)
      ensures wad == Assemble(header, cert, ticketBytes, tmdBytes, area, meta)
    {
      wad := [];
      var padded := Pad(headerContents);
      wad := wad + padded;
      padded := Pad(cert);
      wad := wad + padded;
      padded := Pad(ticketBytes);
      wad := wad + padded;
      padded := Pad(tmdBytes);
      wad := wad + padded;
      padded := Pad(area);
      wad := wad + padded;
      padded := Pad(meta);
      wad := wad + padded;
    }

    /**
      `LoadTicket(data:)`: decodes a ticket at offset 0 of `data` and, on
      success, replaces this WAD's ticket and nothing else.
     */
    method LoadTicket(data: Bytes, keys: KeyTable, cipher: Cipher) returns (r: Result<()>)
      modifies this
      ensures r.Ok? <==> LoadedTicketAtStart(data, keys, cipher).Ok?
      ensures r.Err? ==> r.error == LoadedTicketAtStart(data, keys, cipher).error && Parts() == old(Parts())
      ensures r.Ok? ==> Parts() == old(Parts()).(ticket := LoadedTicketAtStart(data, keys, cipher).value)
    {
      if |data| < TICKET_SIZE {
        return Err(Trap(ReadPastEnd));
      }
      var loaded, _ := ParseTicket(data, 0, keys, cipher);
      var t :- loaded;
      ticket := t;
      r := Ok(());
    }

    /**
      `LoadTMD(data:)`: decodes a TMD at offset 0 of `data` and replaces this
      WAD's TMD and nothing else.
     */
    method LoadTMD(data: Bytes) returns (r: Result<()>)
      modifies this
      ensures r.Ok? <==> LoadedTmdAtStart(data).Ok?
      ensures r.Err? ==> r.error == LoadedTmdAtStart(data).error && Parts() == old(Parts())
      ensures r.Ok? ==> Parts() == old(Parts()).(tmd := LoadedTmdAtStart(data).value)
    {
      var trap := TmdTrap(data, 0);
      if trap.Some? {
        return Err(Trap(trap.value));
      }
      var t, _ := ParseTmd(data, 0);
      tmd := t;
      r := Ok(());
    }
  }

  /** The ticket `LoadTicket` decodes: the one at offset 0, its key unwrapped. */
  function LoadedTicketAtStart(data: Bytes, keys: KeyTable, cipher: Cipher): (r: Result<Ticket>)
    ensures r.Ok? ==> TICKET_SIZE <= |data| && r.value.titleId == data[TITLE_ID_OFFSET..TITLE_ID_OFFSET + 8]
    ensures r.Err? ==> r.error == Trap(ReadPastEnd) || r.error == CipherFailure
  {
    if |data| < TICKET_SIZE then Err(Trap(ReadPastEnd))
    else DecryptKey(TicketAt(data, 0, keys), keys, cipher)
  }

  /** The TMD `LoadTMD` decodes: the one at offset 0. */
  function LoadedTmdAtStart(data: Bytes): (r: Result<Tmd>)
    ensures r.Ok? <==> TmdFits(data, 0)
    ensures r.Ok? ==> |r.value.contentRecords| == RecordCount(data, 0)
  {
    match TmdTrap(data, 0)
    case Some(reason) => Err(Trap(reason))
    case None => Ok(TmdAt(data, 0))
  }

  /** How `LoadedWad` follows from its stages: the first stage that fails gives the error. */
  lemma LoadedWadByStages(data: Bytes, keys: KeyTable, cipher: Cipher)
    ensures HeaderCheck(data).Err? ==> LoadedWad(data, keys, cipher) == Err(HeaderCheck(data).error)
    ensures HeaderCheck(data).Ok? ==>
      var h := HeaderCheck(data).value;
      && (BlobsAt(data, h).Err? ==> LoadedWad(data, keys, cipher) == Err(BlobsAt(data, h).error))
      && (BlobsAt(data, h).Ok? && TicketSection(data, h, keys, cipher).Err? ==>
            LoadedWad(data, keys, cipher) == Err(TicketSection(data, h, keys, cipher).error))
      && (BlobsAt(data, h).Ok? && TicketSection(data, h, keys, cipher).Ok? && TmdSection(data, h).Err? ==>
            LoadedWad(data, keys, cipher) == Err(TmdSection(data, h).error))
    ensures HeaderCheck(data).Ok? ==>
      var h := HeaderCheck(data).value;
      BlobsAt(data, h).Ok? && TicketSection(data, h, keys, cipher).Ok? && TmdSection(data, h).Ok? ==>
      var tmd := TmdSection(data, h).value;
      && (ContentSection(data, h, tmd).Err? ==> LoadedWad(data, keys, cipher) == Err(ContentSection(data, h, tmd).error))
      && (ContentSection(data, h, tmd).Ok? ==>
            LoadedWad(data, keys, cipher) == Ok(WadParts(h, BlobsAt(data, h).value.0, BlobsAt(data, h).value.1,
              TicketSection(data, h, keys, cipher).value, tmd,
              ContentSection(data, h, tmd).value.0, ContentSection(data, h, tmd).value.1)))
  {
  }

  /**
    The first part of `LoadWAD`: reads the header and checks its size field
    and that the six section sizes, added as `u32`s, fit the buffer.
   */
  method ReadCheckedHeader(data: Bytes) returns (r: Result<WadHeader>)
    ensures r == HeaderCheck(data)
  {
    if |data| < HEADER_SIZE {
      return Err(Trap(ReadPastEnd));
    }
    var header := ReadWadHeader(data);
    if BigEndian(header.headerSize) != HEADER_SIZE {
      return Err(MismatchingHeaderSize);
    }
    var sum := BigEndian(header.certificateSize) + BigEndian(header.crlSize);
    if sum >= U32_LIMIT {
      return Err(Trap(ArithmeticOverflow));
    }
    sum := sum + BigEndian(header.ticketSize);
    if sum >= U32_LIMIT {
      return Err(Trap(ArithmeticOverflow));
    }
    sum := sum + BigEndian(header.tmdSize);
    if sum >= U32_LIMIT {
      return Err(Trap(ArithmeticOverflow));
    }
    sum := sum + BigEndian(header.dataSize);
    if sum >= U32_LIMIT {
      return Err(Trap(ArithmeticOverflow));
    }
    sum := sum + BigEndian(header.metaSize);
    if sum >= U32_LIMIT {
      return Err(Trap(ArithmeticOverflow));
    }
    if sum > |data| {
      return Err(IncorrectFileSize);
    }
    r := Ok(header);
  }

  /** The certificate chain and CRL reads of `LoadWAD`, and the aligned cursor after them. */
  method ReadBlobs(data: Bytes, header: WadHeader) returns (r: Result<(Bytes, Bytes)>, pointer: nat)
    ensures r == BlobsAt(data, header)
    ensures r.Ok? ==> pointer == TicketOffset(header)
  {
    pointer := HEADER_SIZE;
    pointer := pointer + GetPadding(pointer);
    var certSize := BigEndian(header.certificateSize);
    if pointer + certSize > |data| {
      return Err(Trap(ReadPastEnd)), pointer;
    }
    var cert := ReadBytes(data, certSize, pointer);
    pointer := pointer + certSize;
    pointer := pointer + GetPadding(pointer);

    var crlSize := BigEndian(header.crlSize);
    if pointer + crlSize > |data| {
      return Err(Trap(ReadPastEnd)), pointer;
    }
    var crl := ReadBytes(data, crlSize, pointer);
    pointer := pointer + crlSize;
    pointer := pointer + GetPadding(pointer);
    r := Ok((cert, crl));
  }

  /** The ticket read of `LoadWAD`, and the aligned cursor after its 676 bytes. */
  method ReadTicketSection(data: Bytes, header: WadHeader, pointer: nat, keys: KeyTable, cipher: Cipher)
    returns (r: Result<Ticket>, next: nat)
    requires pointer == TicketOffset(header)
    ensures r == TicketSection(data, header, keys, cipher)
    ensures r.Ok? ==> next == TmdOffset(header)
  {
    if pointer + TICKET_SIZE > |data| {
      return Err(Trap(ReadPastEnd)), pointer;
    }
    r, next := ParseTicket(data, pointer, keys, cipher);
    next := next + GetPadding(next);
  }

  /** The TMD read of `LoadWAD`, and the cursor after the record table. */
  method ReadTmdSection(data: Bytes, header: WadHeader, pointer: nat) returns (r: Result<Tmd>, next: nat)
    requires pointer == TmdOffset(header)
    ensures r == TmdSection(data, header)
    ensures r.Ok? ==> next == TmdEnd(header, r.value)
  {
    var trap := TmdTrap(data, pointer);
    if trap.Some? {
      return Err(Trap(trap.value)), pointer;
    }
    var tmd;
    tmd, next := ParseTmd(data, pointer);
    r := Ok(tmd);
  }

  /** The content and meta reads of `LoadWAD`, from the cursor after the TMD. */
  method ReadContentSection(data: Bytes, header: WadHeader, tmd: Tmd, pointer: nat)
    returns (r: Result<(seq<Content>, Bytes)>)
    requires pointer == TmdEnd(header, tmd)
    ensures r == ContentSection(data, header, tmd)
  {
    var loaded :- LoadData(data, tmd.contentRecords, pointer);
    var metaSize := BigEndian(header.metaSize);
    if loaded.1 + metaSize > |data| {
      return Err(Trap(ReadPastEnd));
    }
    var meta := ReadBytes(data, metaSize, loaded.1);
    r := Ok((loaded.0, meta));
  }

  /**
    `LoadWAD(data:)`: checks the header, reads the sections in order with
    one cursor that starts at 32 and is aligned before each section, and
    builds the `WAD`.
   */
  method LoadWAD(data: Bytes, keys: KeyTable, cipher: Cipher) returns (r: Result<Wad>)
    ensures r.Ok? <==> LoadedWad(data, keys, cipher).Ok?
    ensures r.Err? ==> r.error == LoadedWad(data, keys, cipher).error
    ensures r.Ok? ==> fresh(r.value) && r.value.Parts() == LoadedWad(data, keys, cipher).value
  {
    LoadedWadByStages(data, keys, cipher);
    var header :- ReadCheckedHeader(data);
    var blobs, pointer :- ReadBlobs(data, header);
    var ticket;
    ticket, pointer :- ReadTicketSection(data, header, pointer, keys, cipher);
    var tmd;
    tmd, pointer :- ReadTmdSection(data, header, pointer);
    var rest :- ReadContentSection(data, header, tmd, pointer);
    var wad := new Wad(WadParts(header, blobs.0, blobs.1, ticket, tmd, rest.0, rest.1));
    r := Ok(wad);
  }
}
