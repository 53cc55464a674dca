/**
  The ticket: a 676-byte record that carries the title key wrapped with one of
  the fixed keys. Decoding reads the fields in order and unwraps the key;
  encoding wraps a copy of the key again and writes the fields back in the
  same order.
 */
module TicketCodec {
  import opened Helpers
  import opened Keys

  const TICKET_SIZE := 676
  const TITLE_KEY_OFFSET := 447
  const TITLE_KEY_SIZE := 16
  const TITLE_ID_OFFSET := 476
  const KEY_TYPE_OFFSET := 497
  const TIME_LIMITS_OFFSET := 612
  const TIME_LIMIT_COUNT := 8

  /** One `(code, limit)` entry of the time-limit table. */
  datatype TimeLimitEntry = TimeLimitEntry(code: Raw32, limit: Raw32)

  datatype Ticket = Ticket(
    signatureType: Raw32,
    signature: Bytes,
    padding: Bytes,
    issuer: Bytes,
    ecdhData: Bytes,
    fileVersion: byte,
    caCrlVersion: byte,
    signerCrlVersion: byte,
    titleKey: Bytes,
    padding2: byte,
    ticketId: Raw64,
    consoleId: Raw32,
    titleId: Bytes,
    systemAccessMask: Raw16,
    titleVersion: Raw16,
    accessTitleId: Raw32,
    accessTitleMask: Raw32,
    licenseType: byte,
    keyType: KeyType,
    unknown: Bytes,
    timeLimits: seq<TimeLimitEntry>)

  /**
    The byte arrays other than the title key have the widths decoding gives
    them. The title key is left out: once unwrapped it is whatever the cipher
    returned.
   */
  predicate FixedWidths(t: Ticket) {
    && |t.signature| == 256 && |t.padding| == 60 && |t.issuer| == 64 && |t.ecdhData| == 60
    && |t.titleId| == 8 && |t.unknown| == 114 && |t.timeLimits| == TIME_LIMIT_COUNT
  }

  /** `KeyTypes(rawValue:) ?? .common`. */
  function DecodeKeyType(keys: KeyTable, b: byte): KeyType {
    match FromRawValue(keys, b)
    case Some(k) => k
    case None => Common
  }

  /** An unrecognised key-type byte decodes to `common`, and a recognised one to its own case. */
  lemma DecodeKeyTypeCases(keys: KeyTable, b: byte)
    ensures b == keys.koreanRaw ==> DecodeKeyType(keys, b) == Korean
    ensures b == keys.vWiiRaw ==> DecodeKeyType(keys, b) == VWii
    ensures b != keys.koreanRaw && b != keys.vWiiRaw ==> DecodeKeyType(keys, b) == Common
    ensures RawValue(keys, DecodeKeyType(keys, b)) == b <==> FromRawValue(keys, b).Some?
  {
  }

  /** The `n` time-limit entries stored from `q` on, eight bytes each. */
  function TimeLimitsAt(data: Bytes, q: nat, n: nat): (r: seq<TimeLimitEntry>)
    requires q + 8 * n <= |data|
    ensures |r| == n
  {
    if n == 0 then
      []
    else
      var e := q + 8 * (n - 1);
      TimeLimitsAt(data, q, n - 1) + [TimeLimitEntry(data[e..e + 4], data[e + 4..e + 8])]
  }

  /** The ticket stored at `p`, field by field at its offset, with the title key still wrapped. */
  function TicketAt(data: Bytes, p: nat, keys: KeyTable): (t: Ticket)
    requires p + TICKET_SIZE <= |data|
    ensures FixedWidths(t) && |t.titleKey| == TITLE_KEY_SIZE
  {
    Ticket(
      data[p..p + 4], data[p + 4..p + 260], data[p + 260..p + 320], data[p + 320..p + 384],
      data[p + 384..p + 444], data[p + 444], data[p + 445], data[p + 446],
      data[p + 447..p + 463], data[p + 463], data[p + 464..p + 472], data[p + 472..p + 476],
      data[p + 476..p + 484], data[p + 484..p + 486], data[p + 486..p + 488],
      data[p + 488..p + 492], data[p + 492..p + 496], data[p + 496],
      DecodeKeyType(keys, data[p + 497]), data[p + 498..p + 612],
      TimeLimitsAt(data, p + TIME_LIMITS_OFFSET, TIME_LIMIT_COUNT))
  }

  /** `selectCommonKey()`. */
  function SelectCommonKey(keys: KeyTable, k: KeyType): Bytes {
    match k
    case Common => keys.commonKey
    case Korean => keys.koreanKey
    case VWii => keys.vWiiKey
  }

  /** The key a ticket's key-type byte selects: the Korean or vWii key for their raw values, the common key otherwise. */
  lemma SelectedKeyOfByte(keys: KeyTable, b: byte)
    ensures SelectCommonKey(keys, DecodeKeyType(keys, b)) ==
      if b == keys.koreanRaw then keys.koreanKey
      else if b == keys.vWiiRaw then keys.vWiiKey
      else keys.commonKey
  {
  }

  /** The IV for wrapping and unwrapping: the title id and then eight zero bytes. */
  function TitleKeyIV(titleId: Bytes): (iv: Bytes)
    ensures |iv| == |titleId| + 8
    ensures iv[..|titleId|] == titleId
  {
    titleId + Zeros(8)
  }

  /** The IV ends in eight zero bytes. */
  lemma TitleKeyIVEndsInZeros(titleId: Bytes)
    ensures forall i | |titleId| <= i < |TitleKeyIV(titleId)| :: TitleKeyIV(titleId)[i] == 0
  {
  }

  /** `decryptKey()`: replaces the wrapped title key by its decryption and changes nothing else. */
  function DecryptKey(t: Ticket, keys: KeyTable, cipher: Cipher): (r: Result<Ticket>)
    ensures r.Err? ==> r.error == CipherFailure
    ensures r.Ok? <==> cipher.decrypt(SelectCommonKey(keys, t.keyType), TitleKeyIV(t.titleId), t.titleKey).Some?
    ensures r.Ok? ==> r.value.(titleKey := t.titleKey) == t
  {
    var key := SelectCommonKey(keys, t.keyType);
    var iv := TitleKeyIV(t.titleId);
    match cipher.decrypt(key, iv, t.titleKey)
    case None => Err(CipherFailure)
    case Some(decryptedKey) => Ok(t.(titleKey := decryptedKey))
  }

  /** The title key `encryptKey()` stores: the first 16 bytes of the cipher's output. */
  function WrappedTitleKey(t: Ticket, keys: KeyTable, cipher: Cipher): (r: Result<Bytes>)
    ensures r.Ok? ==> |r.value| == TITLE_KEY_SIZE
  {
    var key := SelectCommonKey(keys, t.keyType);
    var iv := TitleKeyIV(t.titleId);
    match cipher.encrypt(key, iv, t.titleKey)
    case None => Err(CipherFailure)
    case Some(encryptedKey) =>
      if |encryptedKey| < TITLE_KEY_SIZE then Err(Trap(ShortCipherOutput))
      else Ok(encryptedKey[..TITLE_KEY_SIZE])
  }

  /** `encryptKey()`: copies the first 16 bytes of the cipher's output one at a time into the title key. */
  method EncryptKey(t: Ticket, keys: KeyTable, cipher: Cipher) returns (r: Result<Ticket>)
    ensures r.Err? <==> WrappedTitleKey(t, keys, cipher).Err?
    ensures r.Err? ==> r.error == WrappedTitleKey(t, keys, cipher).error
    ensures r.Ok? ==> r.value == t.(titleKey := WrappedTitleKey(t, keys, cipher).value)
  {
    var key := SelectCommonKey(keys, t.keyType);
    var iv := TitleKeyIV(t.titleId);
    var encrypted := cipher.encrypt(key, iv, t.titleKey);
    if encrypted.None? {
      return Err(CipherFailure);
    }
    var encryptedKey := encrypted.value;
    var goodKey: Bytes := [];
    for i := 0 to TITLE_KEY_SIZE
      invariant i <= |encryptedKey|
      invariant goodKey == encryptedKey[..i]
    {
      if i >= |encryptedKey| {
        return Err(Trap(ShortCipherOutput));
      }
      goodKey := goodKey + [encryptedKey[i]];
    }
    r := Ok(t.(titleKey := goodKey));
  }

  /**
    Unwrapping and then wrapping again use the same key and the same IV, both
    taken from the ticket as it was decoded: wrapping a decoded ticket
    encrypts the unwrapped key under exactly the parameters it was
    unwrapped with.
   */
  lemma WrapUsesUnwrapParameters(t: Ticket, keys: KeyTable, cipher: Cipher)
    requires DecryptKey(t, keys, cipher).Ok?
    ensures var key := SelectCommonKey(keys, t.keyType);
      var iv := TitleKeyIV(t.titleId);
      var plain := cipher.decrypt(key, iv, t.titleKey).value;
      WrappedTitleKey(DecryptKey(t, keys, cipher).value, keys, cipher) ==
        WrappedTitleKey(t.(titleKey := plain), keys, cipher)
  {
  }

  /** The cipher, at one key and IV, encrypts the decryption of `wrapped` back to a buffer that starts with `wrapped`. */
  ghost predicate RewrapsTo(cipher: Cipher, key: Bytes, iv: Bytes, wrapped: Bytes) {
    && cipher.decrypt(key, iv, wrapped).Some?
    && var e := cipher.encrypt(key, iv, cipher.decrypt(key, iv, wrapped).value);
    && e.Some? && |e.value| >= |wrapped| && e.value[..|wrapped|] == wrapped
  }

  /** Where the cipher undoes its own unwrapping, wrapping a decoded ticket gives back the key bytes that were on disk. */
  lemma WrapRestoresStoredKey(t: Ticket, keys: KeyTable, cipher: Cipher)
    requires |t.titleKey| == TITLE_KEY_SIZE
    requires RewrapsTo(cipher, SelectCommonKey(keys, t.keyType), TitleKeyIV(t.titleId), t.titleKey)
    ensures DecryptKey(t, keys, cipher).Ok?
    ensures WrappedTitleKey(DecryptKey(t, keys, cipher).value, keys, cipher) == Ok(t.titleKey)
  {
  }

  function TimeLimitBytes(limits: seq<TimeLimitEntry>): (r: Bytes)
    ensures |r| == 8 * |limits|
  {
    if limits == [] then
      []
    else
      var last := limits[|limits| - 1];
      TimeLimitBytes(limits[..|limits| - 1]) + last.code + last.limit
  }

  /** The fields in front of the time-limit table, in decode order. */
  function TicketFieldBytes(t: Ticket, keys: KeyTable): Bytes {
    t.signatureType + t.signature + t.padding + t.issuer + t.ecdhData
    + [t.fileVersion] + [t.caCrlVersion] + [t.signerCrlVersion] + t.titleKey + [t.padding2]
    + t.ticketId + t.consoleId + t.titleId + t.systemAccessMask + t.titleVersion
    + t.accessTitleId + t.accessTitleMask + [t.licenseType] + [RawValue(keys, t.keyType)]
    + t.unknown
  }

  /** The bytes `GetTicket()` writes for a ticket whose key is already wrapped. */
  function TicketBytes(t: Ticket, keys: KeyTable): (r: Bytes)
    ensures FixedWidths(t) ==> |r| == TICKET_SIZE - TITLE_KEY_SIZE + |t.titleKey|
  {
    TicketFieldBytes(t, keys) + TimeLimitBytes(t.timeLimits)
  }

  /** What `GetTicket()` returns: the ticket with a wrapped copy of its key, serialised. */
  function SerializedTicket(t: Ticket, keys: KeyTable, cipher: Cipher): (r: Result<Bytes>)
    ensures r.Ok? <==> WrappedTitleKey(t, keys, cipher).Ok?
    ensures r.Ok? && FixedWidths(t) ==> |r.value| == TICKET_SIZE
  {
    match WrappedTitleKey(t, keys, cipher)
    case Err(e) => Err(e)
    case Ok(k) => Ok(TicketBytes(t.(titleKey := k), keys))
  }

  /** The time-limit table serialises back to the bytes it was read from. */
  lemma {:induction false} TimeLimitsRoundTrip(data: Bytes, q: nat, n: nat)
    requires q + 8 * n <= |data|
    ensures TimeLimitBytes(TimeLimitsAt(data, q, n)) == data[q..q + 8 * n]
  {
    if n > 0 {
      var limits := TimeLimitsAt(data, q, n);
      assert limits[..n - 1] == TimeLimitsAt(data, q, n - 1);
      TimeLimitsRoundTrip(data, q, n - 1);
      var e := q + 8 * (n - 1);
      AdjacentSlices(data, q, e, e + 4);
      AdjacentSlices(data, q, e + 4, e + 8);
    }
  }

  /** The fields in front of the title key serialise to the bytes they were read from. */
  lemma TicketHeadBytes(data: Bytes, p: nat, keys: KeyTable)
    requires p + TICKET_SIZE <= |data|
    ensures var t := TicketAt(data, p, keys);
      t.signatureType + t.signature + t.padding + t.issuer + t.ecdhData
      + [t.fileVersion] + [t.caCrlVersion] + [t.signerCrlVersion] == data[p..p + TITLE_KEY_OFFSET]
  {
    AdjacentSlices(data, p, p + 4, p + 260);
    AdjacentSlices(data, p, p + 260, p + 320);
    AdjacentSlices(data, p, p + 320, p + 384);
    AdjacentSlices(data, p, p + 384, p + 444);
    assert [data[p + 444]] == data[p + 444..p + 445];
    AdjacentSlices(data, p, p + 444, p + 445);
    assert [data[p + 445]] == data[p + 445..p + 446];
    AdjacentSlices(data, p, p + 445, p + 446);
    assert [data[p + 446]] == data[p + 446..p + 447];
    AdjacentSlices(data, p, p + 446, p + 447);
  }

  /** The fields between the title key and the key-type byte serialise to the bytes they were read from. */
  lemma TicketMiddleBytes(data: Bytes, p: nat, keys: KeyTable)
    requires p + TICKET_SIZE <= |data|
    ensures var t := TicketAt(data, p, keys);
      [t.padding2] + t.ticketId + t.consoleId + t.titleId + t.systemAccessMask
      + t.titleVersion + t.accessTitleId + t.accessTitleMask + [t.licenseType]
      == data[p + 463..p + KEY_TYPE_OFFSET]
  {
    assert [data[p + 463]] == data[p + 463..p + 464];
    AdjacentSlices(data, p + 463, p + 464, p + 472);
    AdjacentSlices(data, p + 463, p + 472, p + 476);
    AdjacentSlices(data, p + 463, p + 476, p + 484);
    AdjacentSlices(data, p + 463, p + 484, p + 486);
    AdjacentSlices(data, p + 463, p + 486, p + 488);
    AdjacentSlices(data, p + 463, p + 488, p + 492);
    AdjacentSlices(data, p + 463, p + 492, p + 496);
    assert [data[p + 496]] == data[p + 496..p + 497];
    AdjacentSlices(data, p + 463, p + 496, p + 497);
  }

  /**
    A decoded ticket, with any 16-byte key put in place of its title key,
    serialises to the bytes it was decoded from around that key; the only
    other byte that can differ is the key type, written as the raw value of
    the case it decoded to.
   */
  lemma TicketBytesOfDecoded(data: Bytes, p: nat, keys: KeyTable, k: Bytes)
    requires p + TICKET_SIZE <= |data|
    requires |k| == TITLE_KEY_SIZE
    ensures TicketBytes(TicketAt(data, p, keys).(titleKey := k), keys) ==
      data[p..p + TITLE_KEY_OFFSET] + k + data[p + 463..p + KEY_TYPE_OFFSET]
      + [RawValue(keys, DecodeKeyType(keys, data[p + KEY_TYPE_OFFSET]))] + data[p + 498..p + TICKET_SIZE]
  {
    var t0 := TicketAt(data, p, keys);
    var t := t0.(titleKey := k);
    var code := RawValue(keys, t.keyType);
    var a := t.signatureType + t.signature + t.padding + t.issuer + t.ecdhData
      + [t.fileVersion] + [t.caCrlVersion] + [t.signerCrlVersion];
    var b := [t.padding2] + t.ticketId + t.consoleId + t.titleId + t.systemAccessMask
      + t.titleVersion + t.accessTitleId + t.accessTitleMask + [t.licenseType];
    TicketHeadBytes(data, p, keys);
    TicketMiddleBytes(data, p, keys);
    assert TicketFieldBytes(t, keys) == a + k + b + [code] + t.unknown;
    TimeLimitsRoundTrip(data, p + TIME_LIMITS_OFFSET, TIME_LIMIT_COUNT);
    AdjacentSlices(data, p + 498, p + 612, p + 676);
    assert TicketBytes(t, keys) == a + k + b + [code] + (t.unknown + TimeLimitBytes(t.timeLimits));
  }

  /** A ticket whose key-type byte is a known raw value serialises to exactly the bytes it was decoded from. */
  lemma TicketBytesRoundTrip(data: Bytes, p: nat, keys: KeyTable)
    requires p + TICKET_SIZE <= |data|
    requires FromRawValue(keys, data[p + KEY_TYPE_OFFSET]).Some?
    ensures TicketBytes(TicketAt(data, p, keys), keys) == data[p..p + TICKET_SIZE]
  {
    var t := TicketAt(data, p, keys);
    TicketBytesOfDecoded(data, p, keys, t.titleKey);
    assert t.(titleKey := t.titleKey) == t;
    AdjacentSlices(data, p, p + 447, p + 463);
    AdjacentSlices(data, p, p + 463, p + 497);
    assert [data[p + 497]] == data[p + 497..p + 498];
    AdjacentSlices(data, p, p + 497, p + 498);
    AdjacentSlices(data, p, p + 498, p + 676);
  }

  /**
    `GetTicket()` of a ticket decoded from `data` at `p`: every byte outside
    the title-key window and the key-type byte is reproduced, and the window
    holds the re-wrapped key.
   */
  lemma GetTicketOfParsed(data: Bytes, p: nat, keys: KeyTable, cipher: Cipher)
    requires p + TICKET_SIZE <= |data|
    requires DecryptKey(TicketAt(data, p, keys), keys, cipher).Ok?
    ensures var t := DecryptKey(TicketAt(data, p, keys), keys, cipher).value;
      SerializedTicket(t, keys, cipher).Ok? ==>
        SerializedTicket(t, keys, cipher).value ==
          data[p..p + TITLE_KEY_OFFSET] + WrappedTitleKey(t, keys, cipher).value
          + data[p + 463..p + KEY_TYPE_OFFSET]
          + [RawValue(keys, DecodeKeyType(keys, data[p + KEY_TYPE_OFFSET]))] + data[p + 498..p + TICKET_SIZE]
  {
    var t0 := TicketAt(data, p, keys);
    var t := DecryptKey(t0, keys, cipher).value;
    var w := WrappedTitleKey(t, keys, cipher);
    if w.Ok? {
      assert t.(titleKey := w.value) == t0.(titleKey := w.value);
      TicketBytesOfDecoded(data, p, keys, w.value);
    }
  }

  /**
    Decoding and then `GetTicket()` reproduce the ticket's bytes exactly when
    the key-type byte is a known raw value and the cipher re-wraps the
    unwrapped key to the stored one.
   */
  lemma GetTicketRoundTrip(data: Bytes, p: nat, keys: KeyTable, cipher: Cipher)
    requires p + TICKET_SIZE <= |data|
    requires FromRawValue(keys, data[p + KEY_TYPE_OFFSET]).Some?
    requires RewrapsTo(cipher,
      SelectCommonKey(keys, DecodeKeyType(keys, data[p + KEY_TYPE_OFFSET])),
      TitleKeyIV(data[p + TITLE_ID_OFFSET..p + TITLE_ID_OFFSET + 8]),
      data[p + TITLE_KEY_OFFSET..p + TITLE_KEY_OFFSET + TITLE_KEY_SIZE])
    ensures DecryptKey(TicketAt(data, p, keys), keys, cipher).Ok?
    ensures SerializedTicket(DecryptKey(TicketAt(data, p, keys), keys, cipher).value, keys, cipher)
      == Ok(data[p..p + TICKET_SIZE])
  {
    var t0 := TicketAt(data, p, keys);
    WrapRestoresStoredKey(t0, keys, cipher);
    var t := DecryptKey(t0, keys, cipher).value;
    assert t.(titleKey := t0.titleKey) == t0;
    TicketBytesRoundTrip(data, p, keys);
  }

  /**
    `Ticket.init(data:)` at cursor `p`: reads every field in order, advancing
    the cursor past it, reads the eight time-limit entries in a loop, and
    unwraps the title key.
   */
  method ParseTicket(data: Bytes, p: nat, keys: KeyTable, cipher: Cipher) returns (r: Result<Ticket>, next: nat)
    requires p + TICKET_SIZE <= |data|
    ensures next == p + TICKET_SIZE
    ensures r == DecryptKey(TicketAt(data, p, keys), keys, cipher)
    ensures r.Ok? ==> r.value.titleId == data[p + TITLE_ID_OFFSET..p + TITLE_ID_OFFSET + 8]
    ensures r.Ok? ==> r.value.keyType == DecodeKeyType(keys, data[p + KEY_TYPE_OFFSET])
    ensures r.Ok? ==> r.value.titleKey == cipher.decrypt(
      SelectCommonKey(keys, DecodeKeyType(keys, data[p + KEY_TYPE_OFFSET])),
      data[p + TITLE_ID_OFFSET..p + TITLE_ID_OFFSET + 8] + Zeros(8),
      data[p + TITLE_KEY_OFFSET..p + TITLE_KEY_OFFSET + TITLE_KEY_SIZE]).value
  {
    var pointer := p;
    var signatureType := ReadBytes(data, 4, pointer);
    pointer := pointer + 4;
    var signature := ReadBytes(data, 256, pointer);
    pointer := pointer + 256;
    var padding := ReadBytes(data, 60, pointer);
    pointer := pointer + 60;
    var issuer := ReadBytes(data, 64, pointer);
    pointer := pointer + 64;
    var ecdhData := ReadBytes(data, 60, pointer);
    pointer := pointer + 60;
    var fileVersion := data[pointer];
    pointer := pointer + 1;
    var caCrlVersion := data[pointer];
    pointer := pointer + 1;
    var signerCrlVersion := data[pointer];
    pointer := pointer + 1;
    var titleKey := ReadBytes(data, 16, pointer);
    pointer := pointer + 16;
    var padding2 := data[pointer];
    pointer := pointer + 1;
    var ticketId := ReadBytes(data, 8, pointer);
    pointer := pointer + 8;
    var consoleId := ReadBytes(data, 4, pointer);
    pointer := pointer + 4;
    var titleId := ReadBytes(data, 8, pointer);
    pointer := pointer + 8;
    var systemAccessMask := ReadBytes(data, 2, pointer);
    pointer := pointer + 2;
    var titleVersion := ReadBytes(data, 2, pointer);
    pointer := pointer + 2;
    var accessTitleId := ReadBytes(data, 4, pointer);
    pointer := pointer + 4;
    var accessTitleMask := ReadBytes(data, 4, pointer);
    pointer := pointer + 4;
    var licenseType := data[pointer];
    pointer := pointer + 1;
    var keyType := DecodeKeyType(keys, data[pointer]);
    pointer := pointer + 1;
    var unknown := ReadBytes(data, 114, pointer);
    pointer := pointer + 114;

    var timeLimits: seq<TimeLimitEntry> := [];
    for i := 0 to TIME_LIMIT_COUNT
      invariant pointer == p + TIME_LIMITS_OFFSET + 8 * i
      invariant timeLimits == TimeLimitsAt(data, p + TIME_LIMITS_OFFSET, i)
    {
      timeLimits := timeLimits + [TimeLimitEntry(ReadBytes(data, 4, pointer), ReadBytes(data, 4, pointer + 4))];
      pointer := pointer + 8;
    }

    var ticket := Ticket(
      signatureType, signature, padding, issuer, ecdhData, fileVersion, caCrlVersion,
      signerCrlVersion, titleKey, padding2, ticketId, consoleId, titleId, systemAccessMask,
      titleVersion, accessTitleId, accessTitleMask, licenseType, keyType, unknown, timeLimits);
    r := DecryptKey(ticket, keys, cipher);
    next := pointer;
  }

  /** `GetTicket()`: wraps the key of a copy of the ticket, then appends the copy's fields one by one. */
  method GetTicket(t: Ticket, keys: KeyTable, cipher: Cipher) returns (r: Result<Bytes>)
    ensures r == SerializedTicket(t, keys, cipher)
  {
    var ticket :- EncryptKey(t, keys, cipher);

    var dataArray: Bytes := [];
    dataArray := dataArray + ticket.signatureType;
    assert dataArray == ticket.signatureType;
    dataArray := dataArray + ticket.signature;
    dataArray := dataArray + ticket.padding;
    dataArray := dataArray + ticket.issuer;
    dataArray := dataArray + ticket.ecdhData;
    dataArray := dataArray + [ticket.fileVersion];
    dataArray := dataArray + [ticket.caCrlVersion];
    dataArray := dataArray + [ticket.signerCrlVersion];
    dataArray := dataArray + ticket.titleKey;
    dataArray := dataArray + [ticket.padding2];
    dataArray := dataArray + ticket.ticketId;
    dataArray := dataArray + ticket.consoleId;
    dataArray := dataArray + ticket.titleId;
    dataArray := dataArray + ticket.systemAccessMask;
    dataArray := dataArray + ticket.titleVersion;
    dataArray := dataArray + ticket.accessTitleId;
    dataArray := dataArray + ticket.accessTitleMask;
    dataArray := dataArray + [ticket.licenseType];
    dataArray := dataArray + [RawValue(keys, ticket.keyType)];
    dataArray := dataArray + ticket.unknown;
    assert dataArray == TicketFieldBytes(ticket, keys);

    for i := 0 to |ticket.timeLimits|
      invariant dataArray == TicketFieldBytes(ticket, keys) + TimeLimitBytes(ticket.timeLimits[..i])
    {
      var limit := ticket.timeLimits[i];
      assert ticket.timeLimits[..i + 1][..i] == ticket.timeLimits[..i];
      dataArray := dataArray + limit.code;
      dataArray := dataArray + limit.limit;
    }
    assert ticket.timeLimits[..|ticket.timeLimits|] == ticket.timeLimits;
    return Ok(dataArray);
  }
}
