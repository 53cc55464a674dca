/**
  The content area: one encrypted block per content record, each block
  `Size` rounded up to 16 bytes and then padded to the next 64-byte
  boundary. Loading cuts the blocks out in table order; writing pads each
  block and concatenates them. Each block is decrypted and encrypted with
  the title key and an IV made from the record's index.
 */
module ContentCodec {
  import opened Helpers
  import opened Keys
  import opened TmdCodec

  /** AES block length: the on-disk length of a content is a multiple of it. */
  const BLOCK := 16

  /** `Int.max + 1` on a 64-bit platform: converting a larger `u64` to `Int` traps. */
  const INT_LIMIT := 0x8000_0000_0000_0000

  datatype Content = Content(contentRecord: ContentRecord, rawData: Bytes)

  /** `Size.bigEndian` of a record. */
  function DeclaredSize(r: ContentRecord): nat {
    BigEndian(r.size)
  }

  /** The size rounded up to a whole number of 16-byte blocks. */
  function BlockSize(size: nat): (r: nat)
    ensures r % BLOCK == 0
    ensures size <= r < size + BLOCK
    ensures size % BLOCK == 0 <==> r == size
  {
    var leftover := size % BLOCK;
    if leftover != 0 then size + (BLOCK - leftover) else size
  }

  /** The block length is the least multiple of 16 that holds the size. */
  lemma BlockSizeIsLeast(size: nat, k: nat)
    requires k % BLOCK == 0 && size <= k
    ensures BlockSize(size) <= k
  {
  }

  /** How far the cursor moves past a block: its length and then the padding to 64. */
  function Stride(blockSize: nat): (r: nat)
    ensures blockSize <= r < blockSize + ALIGNMENT
    ensures r % ALIGNMENT == 0
  {
    blockSize + GetPadding(blockSize)
  }

  /** From a 64-aligned cursor every step lands on a 64-aligned cursor again. */
  lemma StrideKeepsAlignment(q: nat, blockSize: nat)
    requires q % ALIGNMENT == 0
    ensures (q + Stride(blockSize)) % ALIGNMENT == 0
  {
  }

  /**
    The contents `LoadData` reads for `records` from the 64-aligned cursor
    `q`, and the cursor after the last block. A block whose length does not
    fit an `Int`, or that runs past the end of the buffer, stops the program.
   */
  function ContentsAt(data: Bytes, records: seq<ContentRecord>, q: nat): (r: Result<(seq<Content>, nat)>)
    ensures r.Err? ==> r.error.Trap?
    ensures r.Ok? ==> |r.value.0| == |records|
    ensures r.Ok? ==> q <= r.value.1
    decreases |records|
  {
    if records == [] then
      Ok(([], q))
    else
      var front := ContentsAt(data, records[..|records| - 1], q);
      if front.Err? then front
      else
      var contents := front.value.0;
      var pointer := front.value.1;
      var record := records[|records| - 1];
      var paddedSize := BlockSize(DeclaredSize(record));
      if paddedSize >= INT_LIMIT then
        Err(Trap(ArithmeticOverflow))
      else if pointer + paddedSize > |data| then
        Err(Trap(ReadPastEnd))
      else
        Ok((contents + [Content(record, data[pointer..pointer + paddedSize])], pointer + Stride(paddedSize)))
  }

  /**
    `LoadData` produces one content per record, in table order: content `i`
    carries record `i` unchanged and a block of `Size` rounded up to 16
    bytes, cut out of the buffer where the cursor stood.
   */
  lemma {:induction false} ContentsCarryRecords(data: Bytes, records: seq<ContentRecord>, q: nat)
    requires ContentsAt(data, records, q).Ok?
    ensures var contents := ContentsAt(data, records, q).value.0;
      forall i | 0 <= i < |records| ::
        && contents[i].contentRecord == records[i]
        && |contents[i].rawData| == BlockSize(DeclaredSize(records[i]))
    decreases |records|
  {
    if records != [] {
      var n := |records| - 1;
      ContentsCarryRecords(data, records[..n], q);
      LastContentLoaded(data, records, q);
      var pointer := ContentsAt(data, records[..n], q).value.1;
      CarriedByNextBlock(records, ContentsAt(data, records[..n], q).value.0,
        data[pointer..pointer + BlockSize(DeclaredSize(records[n]))], ContentsAt(data, records, q).value.0);
    }
  }

  /** A load one block longer carries the records before the last one as before, and the last one with its block. */
  lemma CarriedByNextBlock(records: seq<ContentRecord>, frontContents: seq<Content>, block: Bytes, contents: seq<Content>)
    requires records != []
    requires |frontContents| == |records| - 1
    requires forall i | 0 <= i < |records| - 1 ::
      && frontContents[i].contentRecord == records[..|records| - 1][i]
      && |frontContents[i].rawData| == BlockSize(DeclaredSize(records[..|records| - 1][i]))
    requires |block| == BlockSize(DeclaredSize(records[|records| - 1]))
    requires contents == frontContents + [Content(records[|records| - 1], block)]
    ensures forall i | 0 <= i < |records| ::
      && contents[i].contentRecord == records[i]
      && |contents[i].rawData| == BlockSize(DeclaredSize(records[i]))
  {
    forall i | 0 <= i < |records|
      ensures contents[i].contentRecord == records[i] && |contents[i].rawData| == BlockSize(DeclaredSize(records[i]))
    {
      if i < |records| - 1 {
        assert contents[i] == frontContents[i];
        assert records[..|records| - 1][i] == records[i];
      }
    }
  }

  /** The cursor is 64-aligned before the first block and after every block. */
  lemma {:induction false} LoadingKeepsAlignment(data: Bytes, records: seq<ContentRecord>, q: nat)
    requires q % ALIGNMENT == 0
    requires ContentsAt(data, records, q).Ok?
    ensures ContentsAt(data, records, q).value.1 % ALIGNMENT == 0
    decreases |records|
  {
    if records != [] {
      var front := records[..|records| - 1];
      LoadingKeepsAlignment(data, front, q);
      var pointer := ContentsAt(data, front, q).value.1;
      StrideKeepsAlignment(pointer, BlockSize(DeclaredSize(records[|records| - 1])));
    }
  }

  /** Loading one more record extends a successful load of the records before it by one block. */
  lemma ContentsAtStep(data: Bytes, records: seq<ContentRecord>, q: nat, i: nat)
    requires i < |records|
    requires ContentsAt(data, records[..i], q).Ok?
    ensures var contents := ContentsAt(data, records[..i], q).value.0;
      var pointer := ContentsAt(data, records[..i], q).value.1;
      var paddedSize := BlockSize(DeclaredSize(records[i]));
      ContentsAt(data, records[..i + 1], q) ==
        if paddedSize >= INT_LIMIT then Err(Trap(ArithmeticOverflow))
        else if pointer + paddedSize > |data| then Err(Trap(ReadPastEnd))
        else Ok((contents + [Content(records[i], data[pointer..pointer + paddedSize])], pointer + Stride(paddedSize)))
  {
    var prefix := records[..i + 1];
    assert prefix[..i] == records[..i];
  }

  /** Loading `records` from `q` succeeds with `contents` and leaves the cursor at `pointer`. */
  predicate LoadsAs(data: Bytes, records: seq<ContentRecord>, q: nat, contents: seq<Content>, pointer: nat) {
    ContentsAt(data, records, q) == Ok((contents, pointer))
  }

  /** A block that fits extends a load of the records before it by that block and one stride. */
  lemma ContentsAtNext(data: Bytes, records: seq<ContentRecord>, q: nat, i: nat, contents: seq<Content>, pointer: nat)
    requires i < |records|
    requires LoadsAs(data, records[..i], q, contents, pointer)
    requires BlockSize(DeclaredSize(records[i])) < INT_LIMIT
    requires pointer + BlockSize(DeclaredSize(records[i])) <= |data|
    ensures var paddedSize := BlockSize(DeclaredSize(records[i]));
      LoadsAs(data, records[..i + 1], q, contents + [Content(records[i], data[pointer..pointer + paddedSize])],
        pointer + paddedSize + GetPadding(paddedSize))
  {
    ContentsAtStep(data, records, q, i);
  }

  /** Once a prefix of the table fails to load, the whole table fails with the same trap. */
  lemma {:induction false} ContentsPrefixFails(data: Bytes, records: seq<ContentRecord>, q: nat, i: nat)
    requires i <= |records|
    requires ContentsAt(data, records[..i], q).Err?
    ensures ContentsAt(data, records, q) == ContentsAt(data, records[..i], q)
    decreases |records| - i
  {
    if i < |records| {
      var longer := records[..i + 1];
      assert longer[..i] == records[..i];
      assert ContentsAt(data, longer, q) == ContentsAt(data, records[..i], q);
      ContentsPrefixFails(data, records, q, i + 1);
    } else {
      assert records[..i] == records;
    }
  }

  /**
    `LoadData(data:)`: moves the cursor to the next 64-byte boundary, then
    reads one block per TMD record, in table order.
   */
  method LoadData(data: Bytes, records: seq<ContentRecord>, start: nat) returns (r: Result<(seq<Content>, nat)>)
    ensures r == ContentsAt(data, records, Align(start))
  {
    ghost var q := Align(start);
    var pointer: nat := start + GetPadding(start);
    var contents: seq<Content> := [];
    assert records[..0] == [];
    for i := 0 to |records|
      invariant LoadsAs(data, records[..i], q, contents, pointer)
    {
      var content := records[i];
      var paddedSize := DeclaredSize(content);
      var leftover := paddedSize % BLOCK;
      if leftover != 0 {
        paddedSize := paddedSize + (BLOCK - leftover);
      }
      assert paddedSize == BlockSize(DeclaredSize(content));
      if paddedSize >= INT_LIMIT {
        ContentsAtStep(data, records, q, i);
        ContentsPrefixFails(data, records, q, i + 1);
        return Err(Trap(ArithmeticOverflow));
      }
      if pointer + paddedSize > |data| {
        ContentsAtStep(data, records, q, i);
        ContentsPrefixFails(data, records, q, i + 1);
        return Err(Trap(ReadPastEnd));
      }
      var block := ReadBytes(data, paddedSize, pointer);
      assert block == data[pointer..pointer + paddedSize];
      ContentsAtNext(data, records, q, i, contents, pointer);
      contents := contents + [Content(content, block)];
      pointer := pointer + paddedSize + GetPadding(paddedSize);
    }
    assert records[..|records|] == records;
    r := Ok((contents, pointer));
  }

  /** What `GetData()` returns: every content's block, padded to 64 bytes, in order. */
  function DataArea(contents: seq<Content>): (r: Bytes)
    ensures |r| % ALIGNMENT == 0
  {
    if contents == [] then []
    else DataArea(contents[..|contents| - 1]) + Padded(contents[|contents| - 1].rawData)
  }

  /** `GetData()`: appends `pad(rawData)` of each content. */
  method GetData(contents: seq<Content>) returns (data: Bytes)
    ensures data == DataArea(contents)
  {
    data := [];
    for i := 0 to |contents|
      invariant data == DataArea(contents[..i])
    {
      assert contents[..i + 1][..i] == contents[..i];
      var padded := Pad(contents[i].rawData);
      data := data + padded;
    }
    assert contents[..|contents|] == contents;
  }

  /** Where block `i` of the table starts when loading begins at `q`: `q` plus the strides of the blocks before it. */
  function BlockStart(records: seq<ContentRecord>, q: nat, i: nat): (s: nat)
    requires i <= |records|
    ensures q <= s
  {
    if i == 0 then q else BlockStart(records, q, i - 1) + Stride(BlockSize(DeclaredSize(records[i - 1])))
  }

  /** Block starts depend only on the records before them. */
  lemma {:induction false} BlockStartOfPrefix(records: seq<ContentRecord>, j: nat, q: nat, i: nat)
    requires i <= j <= |records|
    ensures BlockStart(records[..j], q, i) == BlockStart(records, q, i)
    decreases i
  {
    if i > 0 {
      BlockStartOfPrefix(records, j, q, i - 1);
      assert records[..j][i - 1] == records[i - 1];
    }
  }

  /**
    `area`, laid over `data` from offset `q`, holds at `start` the `size`
    bytes stored there, followed by zeros up to the next 64-byte boundary.
   */
  predicate WritesBack(area: Bytes, data: Bytes, q: nat, start: nat, size: nat) {
    && q <= start && start - q + Stride(size) <= |area| && start + size <= |data|
    && (forall j | start - q <= j < start - q + size :: area[j] == data[q + j])
    && (forall j | start - q + size <= j < start - q + Stride(size) :: area[j] == 0)
  }

  /**
    Writing back what was loaded from `q` fills exactly the area it was read
    from: the load ends at the start the block sizes predict, and every
    block is written where it was read, byte for byte, followed by zeros in
    place of the gap before the next 64-byte boundary.
   */
  lemma {:induction false} DataAreaOfLoaded(data: Bytes, records: seq<ContentRecord>, q: nat)
    requires ContentsAt(data, records, q).Ok?
    ensures ContentsAt(data, records, q).value.1 == BlockStart(records, q, |records|)
    ensures |DataArea(ContentsAt(data, records, q).value.0)| == ContentsAt(data, records, q).value.1 - q
    ensures forall i | 0 <= i < |records| ::
      WritesBack(DataArea(ContentsAt(data, records, q).value.0), data, q, BlockStart(records, q, i),
        BlockSize(DeclaredSize(records[i])))
    decreases |records|
  {
    if records != [] {
      var n := |records| - 1;
      var front := records[..n];
      var frontContents := ContentsAt(data, front, q).value.0;
      var pointer := ContentsAt(data, front, q).value.1;
      var size := BlockSize(DeclaredSize(records[n]));
      assert ContentsAt(data, front, q).Ok? && pointer + size <= |data|
        && ContentsAt(data, records, q).value.0 == frontContents + [Content(records[n], data[pointer..pointer + size])]
        && ContentsAt(data, records, q).value.1 == pointer + Stride(size) by {
        LastContentLoaded(data, records, q);
      }
      DataAreaOfLoaded(data, front, q);
      AreaOfNextBlock(data, records, n, size, frontContents, pointer, q,
        ContentsAt(data, records, q).value.0, ContentsAt(data, records, q).value.1);
    }
  }

  /** A load one block longer writes back the earlier blocks as before, and the new block after them. */
  lemma AreaOfNextBlock(data: Bytes, records: seq<ContentRecord>, n: nat, size: nat, frontContents: seq<Content>,
                        pointer: nat, q: nat, contents: seq<Content>, next: nat)
    requires n == |records| - 1 && size == BlockSize(DeclaredSize(records[n]))
    requires pointer == BlockStart(records[..n], q, |records[..n]|)
    requires |DataArea(frontContents)| == pointer - q
    requires forall i | 0 <= i < |records[..n]| ::
      WritesBack(DataArea(frontContents), data, q, BlockStart(records[..n], q, i), BlockSize(DeclaredSize(records[..n][i])))
    requires pointer + size <= |data|
    requires contents == frontContents + [Content(records[n], data[pointer..pointer + size])]
    requires next == pointer + Stride(size)
    ensures next == BlockStart(records, q, |records|)
    ensures |DataArea(contents)| == next - q
    ensures forall i | 0 <= i < |records| ::
      WritesBack(DataArea(contents), data, q, BlockStart(records, q, i), BlockSize(DeclaredSize(records[i])))
  {
    var block := data[pointer..pointer + size];
    var frontArea := DataArea(frontContents);
    DataAreaStep(frontContents, Content(records[n], block), contents);
    BlockStartOfPrefix(records, n, q, n);
    BlocksWriteBack(records, n, q, frontArea, DataArea(contents), data, pointer, size);
  }

  /** Every block, the earlier ones and the one appended at `pointer`, is written back. */
  lemma BlocksWriteBack(records: seq<ContentRecord>, n: nat, q: nat, frontArea: Bytes, area: Bytes, data: Bytes,
                        pointer: nat, size: nat)
    requires n == |records| - 1 && size == BlockSize(DeclaredSize(records[n]))
    requires pointer == BlockStart(records, q, n) && |frontArea| == pointer - q && pointer + size <= |data|
    requires forall i | 0 <= i < |records[..n]| ::
      WritesBack(frontArea, data, q, BlockStart(records[..n], q, i), BlockSize(DeclaredSize(records[..n][i])))
    requires area == frontArea + Padded(data[pointer..pointer + size])
    ensures |area| == pointer + Stride(size) - q
    ensures forall i | 0 <= i < |records| ::
      WritesBack(area, data, q, BlockStart(records, q, i), BlockSize(DeclaredSize(records[i])))
  {
    EarlierBlocksWriteBack(records, n, q, frontArea, Padded(data[pointer..pointer + size]), area, data);
    LastBlockWritesBack(frontArea, area, data, q, pointer, size);
    AllBlocksWriteBack(records, n, q, area, data, pointer, size);
  }

  /** The blocks before record `n` together with the block of record `n` are all the blocks. */
  lemma AllBlocksWriteBack(records: seq<ContentRecord>, n: nat, q: nat, area: Bytes, data: Bytes, pointer: nat, size: nat)
    requires n == |records| - 1 && size == BlockSize(DeclaredSize(records[n])) && pointer == BlockStart(records, q, n)
    requires forall i | 0 <= i < n :: WritesBack(area, data, q, BlockStart(records, q, i), BlockSize(DeclaredSize(records[i])))
    requires WritesBack(area, data, q, pointer, size)
    ensures forall i | 0 <= i < |records| ::
      WritesBack(area, data, q, BlockStart(records, q, i), BlockSize(DeclaredSize(records[i])))
  {
    forall i | 0 <= i < |records|
      ensures WritesBack(area, data, q, BlockStart(records, q, i), BlockSize(DeclaredSize(records[i])))
    {
      if i == n {
        WritesBackAt(area, data, q, pointer, size, BlockStart(records, q, i), BlockSize(DeclaredSize(records[i])));
      }
    }
  }

  /** What an area writes back at a start and size, it writes back at any equal start and size. */
  lemma WritesBackAt(area: Bytes, data: Bytes, q: nat, start: nat, size: nat, start': nat, size': nat)
    requires WritesBack(area, data, q, start, size)
    requires start' == start && size' == size
    ensures WritesBack(area, data, q, start', size')
  {
  }

  /** The blocks before record `n` are written back as before once more bytes follow them. */
  lemma EarlierBlocksWriteBack(records: seq<ContentRecord>, n: nat, q: nat, frontArea: Bytes, tail: Bytes, area: Bytes,
                               data: Bytes)
    requires n <= |records| && area == frontArea + tail
    requires forall i | 0 <= i < |records[..n]| ::
      WritesBack(frontArea, data, q, BlockStart(records[..n], q, i), BlockSize(DeclaredSize(records[..n][i])))
    ensures forall i | 0 <= i < n ::
      WritesBack(area, data, q, BlockStart(records, q, i), BlockSize(DeclaredSize(records[i])))
  {
    forall i | 0 <= i < n
      ensures WritesBack(area, data, q, BlockStart(records, q, i), BlockSize(DeclaredSize(records[i])))
    {
      BlockStartOfPrefix(records, n, q, i);
      assert records[..n][i] == records[i];
      WritesBackExtends(frontArea, tail, area, data, q, BlockStart(records, q, i), BlockSize(DeclaredSize(records[i])));
    }
  }

  /** Appending to an area keeps what it writes back. */
  lemma WritesBackExtends(frontArea: Bytes, tail: Bytes, area: Bytes, data: Bytes, q: nat, start: nat, size: nat)
    requires WritesBack(frontArea, data, q, start, size)
    requires area == frontArea + tail
    ensures WritesBack(area, data, q, start, size)
  {
  }

  /** The padded block appended right after an area of `pointer - q` bytes writes back the block at `pointer`. */
  lemma LastBlockWritesBack(frontArea: Bytes, area: Bytes, data: Bytes, q: nat, pointer: nat, size: nat)
    requires q <= pointer && |frontArea| == pointer - q
    requires pointer + size <= |data|
    requires area == frontArea + Padded(data[pointer..pointer + size])
    ensures |area| == pointer + Stride(size) - q
    ensures WritesBack(area, data, q, pointer, size)
  {
    var block := data[pointer..pointer + size];
    assert |area| == |frontArea| + size + GetPadding(size);
    assert Padded(block) == block + Zeros(GetPadding(size));
    forall j | pointer - q <= j < pointer - q + size
      ensures area[j] == data[q + j]
    {
      assert area[j] == block[j - (pointer - q)];
    }
  }

  /** A table that loads loads all but its last record, then cuts the last block where the cursor stands. */
  lemma LastContentLoaded(data: Bytes, records: seq<ContentRecord>, q: nat)
    requires records != [] && ContentsAt(data, records, q).Ok?
    ensures var n := |records| - 1;
      var front := ContentsAt(data, records[..n], q);
      var pointer := front.value.1;
      var paddedSize := BlockSize(DeclaredSize(records[n]));
      && front.Ok?
      && pointer + paddedSize <= |data|
      && ContentsAt(data, records, q).value.0 == front.value.0 + [Content(records[n], data[pointer..pointer + paddedSize])]
      && ContentsAt(data, records, q).value.1 == pointer + Stride(paddedSize)
  {
  }

  /** Writing one more content appends its padded block. */
  lemma DataAreaStep(front: seq<Content>, last: Content, contents: seq<Content>)
    requires contents == front + [last]
    ensures DataArea(contents) == DataArea(front) + Padded(last.rawData)
  {
    assert contents[..|contents| - 1] == front;
  }

  /** The per-content IV: the record's 16-bit index, most significant byte first, then 14 zero bytes. */
  function ContentIV(index: Raw16): (iv: Bytes)
    ensures |iv| == BLOCK
    ensures BigEndian(iv[..2]) == BigEndian(index)
    ensures forall i | 2 <= i < BLOCK :: iv[i] == 0
  {
    index + Zeros(14)
  }

  /** The two leading IV bytes are the high and low byte of `Index.bigEndian`. */
  lemma IndexBytes(index: Raw16)
    ensures BigEndian(index) / 256 == index[0]
    ensures BigEndian(index) % 256 == index[1]
  {
    assert index[..1][..0] == [];
    assert BigEndian(index[..1]) == index[0];
    assert BigEndian(index) == index[0] as int * 256 + index[1] as int;
  }

  /** Fills a 16-byte IV array: zeros, then `Index.bigEndian >> 8` and `Index.bigEndian & 0xFF` in front. */
  method BuildContentIV(index: Raw16) returns (iv: Bytes)
    ensures iv == ContentIV(index)
  {
    var a := new byte[BLOCK](i => 0);
    var value := BigEndian(index);
    IndexBytes(index);
    a[0] := value / 256;
    a[1] := value % 256;
    iv := a[..];
    assert iv[..2] == index;
  }

  /**
    The result of `DecryptData(titleKey:)`. The hash is taken over the whole
    decrypted buffer, and `rawData` becomes its first `Size.bigEndian` bytes;
    a matching hash over a buffer at least that long always succeeds.
   */
  function DecryptedContent(c: Content, titleKey: Bytes, cipher: Cipher): (r: Result<Content>)
    ensures r.Ok? ==> r.value.contentRecord == c.contentRecord
    ensures r.Ok? ==> |r.value.rawData| == DeclaredSize(c.contentRecord)
    ensures r == Err(MismatchingSHA1) <==>
      var dec := cipher.decrypt(titleKey, ContentIV(c.contentRecord.index), c.rawData);
      dec.Some? && cipher.sha1(dec.value) != c.contentRecord.hash
    ensures var dec := cipher.decrypt(titleKey, ContentIV(c.contentRecord.index), c.rawData);
      r.Ok? ==>
        && dec.Some?
        && cipher.sha1(dec.value) == c.contentRecord.hash
        && DeclaredSize(c.contentRecord) <= |dec.value|
        && r.value.rawData == dec.value[..DeclaredSize(c.contentRecord)]
    ensures var dec := cipher.decrypt(titleKey, ContentIV(c.contentRecord.index), c.rawData);
      (&& dec.Some? && cipher.sha1(dec.value) == c.contentRecord.hash
       && DeclaredSize(c.contentRecord) < INT_LIMIT && DeclaredSize(c.contentRecord) <= |dec.value|)
      ==> r.Ok?
  {
    match cipher.decrypt(titleKey, ContentIV(c.contentRecord.index), c.rawData)
    case None => Err(CipherFailure)
    case Some(decryptedData) =>
      if cipher.sha1(decryptedData) != c.contentRecord.hash then Err(MismatchingSHA1)
      else if DeclaredSize(c.contentRecord) >= INT_LIMIT then Err(Trap(ArithmeticOverflow))
      else if DeclaredSize(c.contentRecord) > |decryptedData| then Err(Trap(ReadPastEnd))
      else Ok(c.(rawData := decryptedData[..DeclaredSize(c.contentRecord)]))
  }

  /**
    `DecryptData(titleKey:)`. On any failure the content is returned
    unchanged by the caller, since the Swift method throws before it
    assigns `rawData`.
   */
  method DecryptData(c: Content, titleKey: Bytes, cipher: Cipher) returns (r: Result<Content>)
    ensures r == DecryptedContent(c, titleKey, cipher)
  {
    var content := c.contentRecord;
    var iv := BuildContentIV(content.index);
    var decrypted := cipher.decrypt(titleKey, iv, c.rawData);
    if decrypted.None? {
      return Err(CipherFailure);
    }
    var decryptedData := decrypted.value;
    var hash := cipher.sha1(decryptedData);
    if hash != content.hash {
      return Err(MismatchingSHA1);
    }
    var size := BigEndian(content.size);
    if size >= INT_LIMIT {
      return Err(Trap(ArithmeticOverflow));
    }
    if size > |decryptedData| {
      return Err(Trap(ReadPastEnd));
    }
    r := Ok(c.(rawData := decryptedData[..size]));
  }

  /**
    The result of `EncryptData(titleKey:)` as written. The new hash and size
    go into a local copy of the record, which is then dropped; the size is
    stored in host order and read back with `.bigEndian`, so `rawData`
    becomes the first `BigEndian(HostBytes(count, 8))` bytes of the
    ciphertext.
   */
  function EncryptedContent(c: Content, titleKey: Bytes, cipher: Cipher): (r: Result<Content>)
    ensures r.Ok? ==> r.value.contentRecord == c.contentRecord
    ensures var enc := cipher.encrypt(titleKey, ContentIV(c.contentRecord.index), c.rawData);
      r.Ok? ==>
        && enc.Some?
        && |enc.value| < Pow256(8)
        && BigEndian(HostBytes(|enc.value|, 8)) <= |enc.value|
        && r.value.rawData == enc.value[..BigEndian(HostBytes(|enc.value|, 8))]
  {
    match cipher.encrypt(titleKey, ContentIV(c.contentRecord.index), c.rawData)
    case None => Err(CipherFailure)
    case Some(encryptedData) =>
      if |encryptedData| >= Pow256(8) then Err(Trap(ArithmeticOverflow))
      else
        var size := BigEndian(HostBytes(|encryptedData|, 8));
        if size >= INT_LIMIT then Err(Trap(ArithmeticOverflow))
        else if size > |encryptedData| then Err(Trap(ReadPastEnd))
        else Ok(c.(rawData := encryptedData[..size]))
  }

  /** `EncryptData(titleKey:)`, step for step. */
  method EncryptData(c: Content, titleKey: Bytes, cipher: Cipher) returns (r: Result<Content>)
    ensures r == EncryptedContent(c, titleKey, cipher)
  {
    var content := c.contentRecord;
    var iv := BuildContentIV(content.index);
    var encrypted := cipher.encrypt(titleKey, iv, c.rawData);
    if encrypted.None? {
      return Err(CipherFailure);
    }
    var encryptedData := encrypted.value;
    var hash := cipher.sha1(encryptedData);
    content := content.(hash := hash);
    if |encryptedData| >= Pow256(8) {
      return Err(Trap(ArithmeticOverflow));
    }
    content := content.(size := HostBytes(|encryptedData|, 8));
    var size := BigEndian(content.size);
    if size >= INT_LIMIT {
      return Err(Trap(ArithmeticOverflow));
    }
    if size > |encryptedData| {
      return Err(Trap(ReadPastEnd));
    }
    r := Ok(c.(rawData := encryptedData[..size]));
  }

  /**
    The byte-swapped count makes `EncryptData` read past the ciphertext, taken
    here as a trap, for every ciphertext of 1 to 255 bytes: the length it
    reads back is the count times 2^56.
   */
  lemma EncryptDataTrapsOnShortCiphertext(c: Content, titleKey: Bytes, cipher: Cipher)
    requires var enc := cipher.encrypt(titleKey, ContentIV(c.contentRecord.index), c.rawData);
      enc.Some? && 1 <= |enc.value| < 256
    ensures EncryptedContent(c, titleKey, cipher).Err?
    ensures EncryptedContent(c, titleKey, cipher).error.Trap?
  {
    var enc := cipher.encrypt(titleKey, ContentIV(c.contentRecord.index), c.rawData).value;
    SwappedShortLength(|enc|);
  }

  /** A count of 1 to 255 stored in host order and read back big-endian is larger than the count. */
  lemma SwappedShortLength(n: nat)
    requires 1 <= n < 256
    ensures n < Pow256(8)
    ensures BigEndian(HostBytes(n, 8)) > n
  {
    BigEndianBytesOfByte(n, 8);
    var swapped := HostBytes(n, 8);
    assert swapped == [n as byte] + Zeros(7);
    BigEndianOfLeadingByte(n, 7);
    assert BigEndian(swapped) == n * Pow256(7);
    assert Pow256(8) == 256 * Pow256(7);
  }
}
