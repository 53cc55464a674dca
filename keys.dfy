/**
  The collaborators of the codec whose definitions the shown files only use:
  the `KeyTypes` enum and the three fixed keys that wrap title keys, and the
  AES-128-CBC and SHA-1 primitives of the cipher library. They are parameters
  of the model rather than constants, so every property proved holds for any
  key table and any cipher.
 */
module Keys {
  import opened Helpers

  /** The `KeyTypes` enum of a ticket. */
  datatype KeyType = Common | Korean | VWii

  /**
    The fixed keys `CommonKey`, `KoreanKey` and `WiiUvWiiKey`, and the raw
    values of the three `KeyTypes` cases. An enum's raw values are distinct.
   */
  datatype KeyTableData = KeyTable(
    commonKey: Bytes, koreanKey: Bytes, vWiiKey: Bytes,
    commonRaw: byte, koreanRaw: byte, vWiiRaw: byte)

  type KeyTable = k: KeyTableData
    | k.commonRaw != k.koreanRaw && k.commonRaw != k.vWiiRaw && k.koreanRaw != k.vWiiRaw
    witness KeyTable([], [], [], 0, 1, 2)

  /** `KeyType.rawValue`. */
  function RawValue(keys: KeyTable, k: KeyType): byte {
    match k
    case Common => keys.commonRaw
    case Korean => keys.koreanRaw
    case VWii => keys.vWiiRaw
  }

  /** `KeyTypes(rawValue:)`: the case with that raw value, if there is one. */
  function FromRawValue(keys: KeyTable, b: byte): (r: Option<KeyType>)
    ensures r.Some? <==> b in {keys.commonRaw, keys.koreanRaw, keys.vWiiRaw}
    ensures r.Some? ==> RawValue(keys, r.value) == b
  {
    if b == keys.commonRaw then Some(Common)
    else if b == keys.koreanRaw then Some(Korean)
    else if b == keys.vWiiRaw then Some(VWii)
    else None
  }

  /** Every case is recovered from its raw value. */
  lemma FromRawValueOfRawValue(keys: KeyTable, k: KeyType)
    ensures FromRawValue(keys, RawValue(keys, k)) == Some(k)
  {
  }

  /**
    The cipher library. `decrypt(key, iv, data)` and `encrypt(key, iv, data)`
    are `AES(key:blockMode: CBC(iv:))` followed by `decrypt`/`encrypt`, `None`
    when the library throws; `sha1` is the 20-byte digest.
   */
  datatype Cipher = Cipher(
    decrypt: (Bytes, Bytes, Bytes) -> Option<Bytes>,
    encrypt: (Bytes, Bytes, Bytes) -> Option<Bytes>,
    sha1: Bytes -> Bytes)
}
