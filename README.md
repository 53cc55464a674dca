# libwad WAD container codec

This project models the structural codec of `libwad` for the Wii WAD container.

- **Layout.** A WAD is a 32-byte header, then a certificate chain, a CRL, a 676-byte ticket, a TMD (title metadata), the content area and a meta blob. Every section starts on a 64-byte boundary.
- **Loading.** `LoadWAD` checks the header, cuts each section out of the buffer and decodes the ticket, the TMD and the contents.
- **Writing.** `GetWAD` re-wraps the title key, copies each content's size and hash into its TMD record, and writes header, chain, ticket, TMD, contents and meta, each padded to 64 bytes.
- **Crypto bookkeeping.** The title key is unwrapped and wrapped with an IV made of the title id. Each content is decrypted and checked against its SHA-1, and encrypted, with an IV made of the record's index.

The model has one module per source file:

| module | file | form |
|---|---|---|
| `Helpers` | `helpers.dfy` | padding, bounds-checked reads, big-endian and host-order numbers, the `WADType` tags |
| `Keys` | `keys.dfy` | the `KeyTypes` enum, the three fixed keys and the cipher library, as parameters |
| `TicketCodec` | `ticket.dfy` | the ticket layout, key selection, key unwrap and wrap, `GetTicket` |
| `TmdCodec` | `tmd.dfy` | the TMD header and record table, `GetTMD` |
| `ContentCodec` | `contents.dfy` | the content area, `LoadData`, `GetData`, `DecryptData`, `EncryptData` |
| `WadContainer` | `wad.dfy` | the header, `LoadWAD`, the `Wad` class with `GetHeader`, `GetWAD`, `LoadTicket`, `LoadTMD` |

How the model is built:

- **Loops become methods.** Each step-by-step decoder or encoder of the source is a method with a loop or a chain of appends. Its `ensures` ties the result to a specification function, such as `TicketAt`, `TmdAt`, `ContentsAt`, `TmdBytes`, `DataArea` or `WadImage`. The lemmas prove what the format promises about those functions.
- **`WAD` is a class.** `GetWAD`, `LoadTicket` and `LoadTMD` update the struct's fields in place, so `Wad` is a class with `modifies` clauses on those methods.
- **An explicit cursor.** The source threads a global `pointer`. The model passes an explicit cursor through each decoder and returns the next one.
- **Raw integer fields.** The ticket's and TMD's integer fields are raw byte groups in memory order. They are loaded and stored in host order, so they round-trip byte for byte. A field is decoded to a number only where the code calls `.bigEndian`.
- **A little-endian host.** The model assumes one. It matters where the code swaps a value it loaded, or a count it computed, and then uses the result other than by storing it through `.bigEndian` again (see "## Left out").
- **Traps are errors.** Swift stops the program on a slice past the end, on the empty range `1...0`, on an index out of range (such as a cipher output shorter than 16 bytes in `encryptKey`) and on an integer overflow. Each is an `Err(Trap(reason))` result. Thrown errors are the other `Error` cases.
- **Undefined reads are errors too.** Some reads past the end are undefined behaviour rather than traps: `Data(bytes:count:)` with a count larger than the buffer (Contents.swift:70 and :89), and the unchecked `load(fromByteOffset:)` reads (Helpers.swift:51-82). The model abstracts each as an `Err(Trap(reason))` result, as if it stopped the program. It does not model what such a read would actually return.

## Model

| member | source | states |
|---|---|---|
| Helpers.GetPadding | Sources/libwad/Helpers.swift:98-111 | the padding is below 64, brings the size to a multiple of 64, and is 0 exactly when the size already is one (0 included) |
| Helpers.Align | Sources/libwad/WAD.swift:52 | `pointer += getPadding(size: pointer)` moves to the next multiple of 64 at or after the cursor, and stays put on an aligned cursor |
| Helpers.PaddingIsLeast | Sources/libwad/Helpers.swift:98-111 | no smaller non-negative amount reaches a multiple of 64 |
| Helpers.PaddingIdempotent | Sources/libwad/Helpers.swift:98-111 | an aligned position needs no further padding |
| Helpers.AlignShift | Sources/libwad/Helpers.swift:98-111 | moving a position by 64 moves its aligned position by 64 |
| Helpers.AlignStaysPut | Sources/libwad/Helpers.swift:98-111 | aligning an aligned position plus c gives the same position exactly when c is 0 |
| Helpers.Padded | Sources/libwad/Helpers.swift:113-122 | the padded data has length `|d| + getPadding(|d|)`, a multiple of 64, starts with `d` and continues with zeros |
| Helpers.Pad | Sources/libwad/Helpers.swift:113-122 | the append loop produces exactly the padded data |
| Helpers.ReadBytes | Sources/libwad/Helpers.swift:39-46 | the read requires `position + length <= |data|` and returns the `length` bytes at `position` |
| Helpers.BigEndianBytes | Sources/libwad/WAD.swift:135-140 | the width-byte big-endian encoding of a number that fits has that width and decodes back to the number |
| Helpers.BigEndianRoundTrip | Sources/libwad/Helpers.swift:66-73 | re-encoding a field's big-endian value at its width gives the raw bytes back |
| Helpers.HostBytesOfBigEndian | Sources/libwad/WAD.swift:105-112 | storing the `.bigEndian` of a raw field in host order writes the raw bytes reversed |
| Helpers.HostBytesReversed | Sources/libwad/WAD.swift:135-140 | a number stored in host order reads back as that number and, reversed, is its big-endian encoding |
| Helpers.ReverseReverse | Sources/libwad/WAD.swift:105-112 | swapping byte order twice changes nothing |
| Helpers.WadTypeTagsAreTwoLetters | Sources/libwad/Helpers.swift:22-26 | with the corrected raw values, each `WADType` is two ASCII letters followed by two zero bytes |
| Helpers.WadTypeUnknownAsWrittenIsNotATag | Sources/libwad/Helpers.swift:25 | the raw value as written is stored as `04 26 B0 00`, whose first byte is not a letter |
| Keys.FromRawValue | Sources/libwad/Ticket.swift:72 | `KeyTypes(rawValue:)` succeeds exactly on the three raw values, and returns the case with that raw value |
| Keys.FromRawValueOfRawValue | Sources/libwad/Ticket.swift:72 | every case is recovered from its raw value |
| TicketCodec.DecodeKeyTypeCases | Sources/libwad/Ticket.swift:72 | an unrecognised key-type byte decodes to `.common`, and a recognised one to its own case; the byte is reproduced exactly when it is recognised |
| TicketCodec.TicketAt | Sources/libwad/Ticket.swift:35-93 | the decoded ticket has every field at its fixed width, a 16-byte title key and 8 time limits |
| TicketCodec.ParseTicket | Sources/libwad/Ticket.swift:35-93 | the field-by-field decode advances the cursor by exactly 676 bytes, takes the title id from +476 and the key type from +497, and unwraps the 16 bytes at +447 with IV `TitleID ++ [0 × 8]` |
| TicketCodec.SelectedKeyOfByte | Sources/libwad/Ticket.swift:103-114 | the selected key is the Korean or vWii key for their raw values and the common key for any other byte |
| TicketCodec.TitleKeyIV | Sources/libwad/Ticket.swift:118 | the IV is the title id followed by 8 more bytes |
| TicketCodec.TitleKeyIVEndsInZeros | Sources/libwad/Ticket.swift:118 | those 8 bytes are zero |
| TicketCodec.DecryptKey | Sources/libwad/Ticket.swift:116-126 | unwrapping fails with the cipher's error exactly when the cipher throws, and otherwise changes only the title key |
| TicketCodec.WrappedTitleKey | Sources/libwad/Ticket.swift:128-145 | a wrapped key is exactly 16 bytes |
| TicketCodec.EncryptKey | Sources/libwad/Ticket.swift:128-145 | the truncating copy loop keeps the first 16 bytes of the cipher output and changes only the title key; a short output traps |
| TicketCodec.WrapUsesUnwrapParameters | Sources/libwad/Ticket.swift:116-145 | unwrap and wrap use the same key and the same IV, so wrapping an unwrapped ticket wraps its plaintext key under the stored parameters |
| TicketCodec.WrapRestoresStoredKey | Sources/libwad/Ticket.swift:116-145 | when the cipher re-wraps a key to itself, unwrapping then wrapping gives the stored key back |
| TicketCodec.TimeLimitBytes | Sources/libwad/Ticket.swift:178-181 | each time-limit entry is written as 8 bytes |
| TicketCodec.TicketBytes | Sources/libwad/Ticket.swift:154-183 | a ticket with fixed-width fields is written as 676 bytes |
| TicketCodec.SerializedTicket | Sources/libwad/Ticket.swift:150-184 | `GetTicket` succeeds exactly when the key can be wrapped, and then writes 676 bytes |
| TicketCodec.TimeLimitsRoundTrip | Sources/libwad/Ticket.swift:77-88 | the time-limit table is written back byte for byte |
| TicketCodec.TicketBytesRoundTrip | Sources/libwad/Ticket.swift:35-93 | a decoded ticket with a recognised key type is written back as the 676 bytes it was read from |
| TicketCodec.GetTicketOfParsed | Sources/libwad/Ticket.swift:150-184 | serialising a loaded ticket reproduces every input byte outside the title-key window and the key-type byte, with the wrapped key inside the window. The key-type byte at +0x1F1 comes back as the raw value of its decoded key type, so an unrecognised byte is written as common's raw value |
| TicketCodec.GetTicketRoundTrip | Sources/libwad/Ticket.swift:35-184 | when the cipher re-wraps the key to itself, `GetTicket` of a loaded ticket is exactly the 676 bytes it was loaded from |
| TicketCodec.GetTicket | Sources/libwad/Ticket.swift:150-184 | the append chain wraps a copy of the ticket, so the stored ticket is unchanged, and writes the serialised ticket |
| TmdCodec.TmdTrap | Sources/libwad/TMD.swift:37-109 | `TMD.init` stops exactly when the TMD does not fit, and stops on the empty range `1...0` exactly when the count is 0 |
| TmdCodec.RecordsAt | Sources/libwad/TMD.swift:90-106 | the table holds `NumberOfContents.bigEndian` records, record i cut 36·i bytes after the header |
| TmdCodec.TmdAt | Sources/libwad/TMD.swift:37-109 | the decoded TMD has fixed-width fields, as many records as the count, and the stored count at +478 |
| TmdCodec.RecordLayout | Sources/libwad/TMD.swift:92-102 | record i's ID, Index, ContentType, Size and Hash sit at +0, +4, +6, +8..+15 and +16..+35 of its 36 bytes |
| TmdCodec.ParseTmd | Sources/libwad/TMD.swift:37-109 | the field-by-field decode and the counted loop produce the TMD at `p` and move the cursor past its 484 + 36n bytes |
| TmdCodec.RecordBytes | Sources/libwad/TMD.swift:152-158 | a record is written as 16 bytes and its hash |
| TmdCodec.TmdBytes | Sources/libwad/TMD.swift:122-161 | a TMD with fixed-width fields is written as 484 + 36·|records| bytes |
| TmdCodec.AppendRecord | Sources/libwad/TMD.swift:152-158 | appending the five fields of record i extends the bytes of records 0..i-1 by record i |
| TmdCodec.GetTMD | Sources/libwad/TMD.swift:122-161 | the append chain and the record loop write the fields in decode order and the records in table order |
| TmdCodec.GetTmdWritesStoredCount | Sources/libwad/TMD.swift:148 | `GetTMD` writes the stored `NumberOfContents`, not the length of the table |
| TmdCodec.RecordsRoundTrip | Sources/libwad/TMD.swift:90-106 | the record table is written back byte for byte |
| TmdCodec.HeaderRoundTrip | Sources/libwad/TMD.swift:38-150 | the 484 header bytes a TMD was decoded from are written back unchanged, field by field in decode order |
| TmdCodec.TableRoundTrip | Sources/libwad/TMD.swift:90-158 | the record table of a decoded TMD is written back as the bytes after its header |
| TmdCodec.TmdRoundTrip | Sources/libwad/TMD.swift:37-161 | `GetTMD(TMD.init(b))` reproduces the 484 + 36n input bytes |
| ContentCodec.BlockSize | Sources/libwad/Contents.swift:24-28 | the block length is a multiple of 16, at least the size and below size+16, and equals the size when it is already a multiple of 16 |
| ContentCodec.BlockSizeIsLeast | Sources/libwad/Contents.swift:24-28 | it is the least such multiple |
| ContentCodec.Stride | Sources/libwad/Contents.swift:32 | the cursor step is the block length rounded up to a multiple of 64 |
| ContentCodec.StrideKeepsAlignment | Sources/libwad/Contents.swift:32 | the cursor stays 64-aligned after each step |
| ContentCodec.ContentsAt | Sources/libwad/Contents.swift:18-36 | loading fails only by a trap, yields one content per record and never moves the cursor back |
| ContentCodec.ContentsAtStep | Sources/libwad/Contents.swift:23-33 | one more record either traps on an overflowing or out-of-range block or appends the block at the cursor and advances by one stride |
| ContentCodec.ContentsAtNext | Sources/libwad/Contents.swift:23-33 | a block that fits extends the load of the earlier records by that block and one stride |
| ContentCodec.ContentsCarryRecords | Sources/libwad/Contents.swift:19-35 | content i carries record i unchanged and a block of `Size` rounded up to 16 |
| ContentCodec.LoadingKeepsAlignment | Sources/libwad/Contents.swift:21-32 | from an aligned start the cursor is aligned after the last block |
| ContentCodec.ContentsPrefixFails | Sources/libwad/Contents.swift:23-33 | once a block fails to load, the whole load fails with that trap |
| ContentCodec.LoadData | Sources/libwad/Contents.swift:18-36 | the loop aligns the cursor, then cuts one block per record, trapping on a block that overflows `Int` or runs past the buffer |
| ContentCodec.DataArea | Sources/libwad/Contents.swift:39-47 | the written area is a multiple of 64 bytes |
| ContentCodec.GetData | Sources/libwad/Contents.swift:39-47 | the append loop writes `pad(rawData)` of each content, in order |
| ContentCodec.DataAreaOfLoaded | Sources/libwad/Contents.swift:18-47 | writing back what was loaded is as long as the area it was read from and ends where the load's cursor ends. Each record's block is written back at the offset it was cut from, byte for byte. The gap after each block up to the next 64-byte boundary is zeros |
| ContentCodec.BlockStart | Sources/libwad/Contents.swift:23-33 | the cursor at which record `i`'s block is cut, never before the start of the area |
| ContentCodec.LastContentLoaded | Sources/libwad/Contents.swift:23-33 | a load that succeeds loads all but the last record, then cuts the last block at the cursor |
| ContentCodec.DataAreaStep | Sources/libwad/Contents.swift:42-44 | one more content appends its padded block to the area |
| ContentCodec.ContentIV | Sources/libwad/Contents.swift:55-58 | the content IV is 16 bytes: the big-endian index in bytes 0-1, zeros after |
| ContentCodec.IndexBytes | Sources/libwad/Contents.swift:57-58 | `Index.bigEndian >> 8` and `& 0xFF` are the two index bytes |
| ContentCodec.BuildContentIV | Sources/libwad/Contents.swift:55-58 | filling the IV array gives the content IV |
| ContentCodec.DecryptedContent | Sources/libwad/Contents.swift:51-71 | decryption fails with `mismatchingSHA1` exactly when the hash of the decrypted data differs from the record's. On success the record is unchanged and `rawData` is the first `Size.bigEndian` decrypted bytes. A matching hash, with `Size.bigEndian` below 2^63 and no more than the decrypted length, always succeeds |
| ContentCodec.DecryptData | Sources/libwad/Contents.swift:51-71 | the method follows `DecryptData`'s control flow; on any failure the content is left as it was |
| ContentCodec.EncryptedContent | Sources/libwad/Contents.swift:73-90 | encryption keeps the record unchanged and keeps as many ciphertext bytes as the byte-swapped `uint64(count)` says |
| ContentCodec.EncryptData | Sources/libwad/Contents.swift:73-90 | the method follows `EncryptData` as written |
| ContentCodec.EncryptDataTrapsOnShortCiphertext | Sources/libwad/Contents.swift:88-89 | for a ciphertext of 1 to 255 bytes the swapped length exceeds the ciphertext, so `Data(bytes:count:)` reads past it, which the model takes as a trap |
| WadContainer.ReadWadHeader | Sources/libwad/WAD.swift:87-98 | field i of the header is the 4 bytes at offset 4·i |
| WadContainer.HeaderBytes | Sources/libwad/WAD.swift:101-115 | the written header is 32 bytes |
| WadContainer.HeaderBytesAreBigEndian | Sources/libwad/WAD.swift:101-115 | the written header is eight big-endian u32 values |
| WadContainer.LoadedHeaderWrittenReversed | Sources/libwad/WAD.swift:87-115 | a loaded header is written back with each field's bytes reversed |
| WadContainer.HeaderBytesReadBack | Sources/libwad/WAD.swift:87-115 | reading a written header gives each field's byte-swapped value |
| WadContainer.NewHeaderReadsBack | Sources/libwad/WAD.swift:132-144 | the header `GetWAD` builds reads back as size 32, the type's raw value as declared (`0x426b000` for `WADTypeUnknown`) and the given lengths |
| WadContainer.UnknownTypeHeaderBytes | Sources/libwad/WAD.swift:134 | the header `GetWAD` builds for `WADTypeUnknown` holds bytes `04 26 B0 00` at offsets 4 to 7 |
| WadContainer.SectionOffsets | Sources/libwad/WAD.swift:52-68 | the certificate starts at 64, and the CRL, ticket and TMD each start on a 64-byte boundary after the previous section |
| WadContainer.HeaderCheck | Sources/libwad/WAD.swift:39-49 | a header that passes has size 32 and section sizes adding up to no more than the buffer |
| WadContainer.HeaderSizeChecked | Sources/libwad/WAD.swift:41-44 | loading fails with `mismatchingHeaderSize` exactly when the big-endian size field is not 32 |
| WadContainer.HeaderSizeCheckedFirst | Sources/libwad/WAD.swift:41-44 | that check comes before any section is read, whatever follows the header |
| WadContainer.FileSizeChecked | Sources/libwad/WAD.swift:46-49 | with a valid size field, loading fails with `incorrectFileSize` exactly when the sections add up to more than the buffer |
| WadContainer.BlobsAt | Sources/libwad/WAD.swift:52-63 | the chain and the CRL have their declared sizes, and a read past the end traps |
| WadContainer.TmdSection | Sources/libwad/WAD.swift:68-71 | the TMD loads exactly when it fits at the aligned position after the 676-byte ticket |
| WadContainer.TicketSection | Sources/libwad/WAD.swift:62-66 | decoding the ticket at its offset fails only by a read past the end or by the cipher failing to unwrap the key |
| WadContainer.ContentSection | Sources/libwad/WAD.swift:76-80 | one content per record and a meta blob of the declared size |
| WadContainer.MetaAfter | Sources/libwad/WAD.swift:76-80 | the meta blob is the declared number of bytes at the cursor the content loop left, a read past the end traps, and a failed content load passes its error on |
| WadContainer.LoadedWadByStages | Sources/libwad/WAD.swift:38-84 | loading fails with the first failing stage's error, and otherwise assembles the stages' results |
| WadContainer.LoadedCertificateChain | Sources/libwad/WAD.swift:52-54 | the chain is the declared number of bytes at offset 64 |
| WadContainer.LoadedCrl | Sources/libwad/WAD.swift:56-60 | the CRL is the declared number of bytes at the aligned end of the chain |
| WadContainer.LoadedTicket | Sources/libwad/WAD.swift:62-66 | the ticket is decoded at the aligned end of the CRL |
| WadContainer.LoadedTmd | Sources/libwad/WAD.swift:68-71 | the TMD is decoded at the aligned end of the 676-byte ticket |
| WadContainer.LoadedContents | Sources/libwad/WAD.swift:74-80 | the contents are loaded from the aligned end of the TMD's records, and the meta blob has its declared size |
| WadContainer.SingleContentLayout | Sources/libwad/WAD.swift:38-84 | without chain and CRL the ticket is at 64 and the TMD at 768; a single 32-byte content is the bytes 1344..1376 |
| WadContainer.ReadCheckedHeader | Sources/libwad/WAD.swift:39-49 | the method reads the header and makes the two checks |
| WadContainer.ReadBlobs | Sources/libwad/WAD.swift:52-63 | the method reads chain and CRL and leaves the cursor at the ticket |
| WadContainer.ReadTicketSection | Sources/libwad/WAD.swift:66-68 | the method decodes the ticket and leaves the cursor at the TMD |
| WadContainer.ReadTmdSection | Sources/libwad/WAD.swift:71 | the method decodes the TMD and leaves the cursor after its records |
| WadContainer.ReadContentSection | Sources/libwad/WAD.swift:74-80 | the method loads the contents and then the meta blob at the cursor |
| WadContainer.LoadWAD | Sources/libwad/WAD.swift:38-84 | a new WAD holding exactly the loaded sections, or the first stage's error |
| WadContainer.RefreshRecords | Sources/libwad/WAD.swift:121-124 | record i takes content i's size and hash and keeps its ID, index and type; records without a content are unchanged |
| WadContainer.RefreshedTmd | Sources/libwad/WAD.swift:121-124 | the refresh traps exactly when there are more contents than records |
| WadContainer.ImageHeader | Sources/libwad/WAD.swift:132-141 | `u32(_)` of a length that does not fit stops the program |
| WadContainer.ImageErrors | Sources/libwad/WAD.swift:117-157 | `GetWAD` fails only with the cipher's error or a trap |
| WadContainer.ImageTicketFailure | Sources/libwad/WAD.swift:118 | a ticket that cannot be re-wrapped fails `GetWAD` with the cipher's error |
| WadContainer.ImageRecordFailure | Sources/libwad/WAD.swift:121-124 | more contents than records stops `GetWAD` in the refresh loop |
| WadContainer.ImageOverflow | Sources/libwad/WAD.swift:132-141 | a section length that does not fit a `u32` stops `GetWAD` |
| WadContainer.ImageStages | Sources/libwad/WAD.swift:117-157 | a successful `GetWAD` re-wraps the ticket, refreshes the TMD, builds the header of the actual lengths and writes the padded sections |
| WadContainer.ImageIsAligned | Sources/libwad/WAD.swift:147-156 | the output length is a multiple of 64 |
| WadContainer.ImageHeaderReadsBack | Sources/libwad/WAD.swift:132-156 | the output starts with the new header, which reads back as size 32, the type's raw value as declared and the length of each serialised or stored section |
| WadContainer.ImageTicketPlacement | Sources/libwad/WAD.swift:149-151 | the ticket follows the padded chain directly: the CRL is not written |
| WadContainer.CrlOmissionMovesTicket | Sources/libwad/WAD.swift:132-154 | the ticket offset the output's own header implies is where the ticket was written exactly when the CRL is empty |
| WadContainer.Wad.GetHeader | Sources/libwad/WAD.swift:101-115 | the append chain writes each field's `.bigEndian` in host order |
| WadContainer.Wad.RefreshContentRecords | Sources/libwad/WAD.swift:121-124 | the loop refreshes the stored TMD's records and nothing else, or traps on a content without a record |
| WadContainer.Wad.MakeHeader | Sources/libwad/WAD.swift:132-141 | the method builds the header of size 32, the type's raw value as declared and the sections' lengths |
| WadContainer.Wad.WriteSections | Sources/libwad/WAD.swift:146-156 | the appends write the six padded sections in file order |
| WadContainer.Wad.WriteImage | Sources/libwad/WAD.swift:127-156 | stores the header of the sections' lengths and returns the padded sections, or traps on an overflowing length without storing it |
| WadContainer.ImageOfWrite | Sources/libwad/WAD.swift:117-157 | writing the refreshed sections keeps `GetWAD`'s promise for the WAD before the call |
| WadContainer.Wad.GetWAD | Sources/libwad/WAD.swift:117-157 | returns the image of the WAD before the call and leaves its refreshed TMD and new header stored; fails with the image's error, changing nothing when the ticket cannot be re-wrapped |
| WadContainer.Wad.LoadTicket | Sources/libwad/Ticket.swift:187-196 | the ticket decoded at offset 0 replaces the stored one and nothing else changes; on failure nothing changes |
| WadContainer.Wad.LoadTMD | Sources/libwad/TMD.swift:164-173 | the TMD decoded at offset 0 replaces the stored one and nothing else changes; on failure nothing changes |
| WadContainer.LoadedTicketAtStart | Sources/libwad/Ticket.swift:187-196 | the ticket is decoded at offset 0 |
| WadContainer.LoadedTmdAtStart | Sources/libwad/TMD.swift:164-173 | the TMD is decoded at offset 0, and loads exactly when it fits |

## Left out

- AES-128-CBC and SHA-1 from CryptoSwift are parameters (`Keys.Cipher`). Nothing is assumed about them, so no property relies on wrap and unwrap being inverse. `TicketCodec.WrapRestoresStoredKey` and `TicketCodec.GetTicketRoundTrip` name the one cipher fact they need as a requirement.
- The fixed keys `CommonKey`, `KoreanKey` and `WiiUvWiiKey` and the raw values of `KeyTypes` are not part of this model. They are a parameter (`Keys.KeyTable`) whose only constraint is that the three raw values differ.
- The global `pointer` is replaced by an explicit cursor. Its leakage across calls is not modelled: it is never reset between `LoadWAD` calls, and `LoadTicket` and `LoadTMD` do not restore it when decoding stops.
- The host is assumed little-endian. `GetWAD`'s new header is written the same on either host, because a value stored in host order and then swapped by `.bigEndian` is always written most significant byte first. What depends on the host is the re-writing of loaded values. `GetHeader` of a loaded header writes each field reversed here (`WadContainer.LoadedHeaderWrittenReversed`), but on a big-endian host it would write the raw bytes unchanged. The `uint64(count).bigEndian` length in `EncryptData` is also host-dependent.
- `Data`/`NSRange` plumbing, the `Codable` conformance and the `print` in `DecryptData` are left out.
- Package.swift is a build manifest and is not part of this model.
- Swift's `Int` is taken as 64 bits. Converting a `u64` size of 2^63 or more to `Int` is a trap.
- The sanity sum at WAD.swift:47 is a sum of `u32` values, and Swift stops the program when it overflows. The model makes that overflow a trap rather than computing the sum unbounded.
- `DecryptData` hashes the whole decrypted buffer, before truncation to `Size`. The model follows the code.
- `ContentCodec.EncryptedContent` is modelled as written. It keeps `uint64(count).bigEndian` bytes of the ciphertext, which on a little-endian host is the byte-swapped count. It reads past the ciphertext, which is undefined behaviour taken here as a trap, for every ciphertext of 1 to 255 bytes, and in practice for almost every length. No round trip with `DecryptData` is claimed.
- `GetWAD` does not write the CRL, but its header counts it. This is modelled as written (`WadContainer.ImageTicketPlacement`, `WadContainer.CrlOmissionMovesTicket`).
- A full `GetWAD(LoadWAD(b)) == b` round trip is not stated. The new header, the re-wrapped key, the missing CRL and the padding of the content area all make the bytes differ. Each section's round trip is proved instead.
- `LoadWAD` ignores the declared ticket and TMD sizes: the TMD always starts after 676 ticket bytes. The model does the same.
- These source members become module-level members over the one section they touch: `LoadData` (`ContentCodec.LoadData`, with the cursor as a parameter), `GetTicket`, `GetTMD` and `GetData`. `LoadWAD` builds the `Wad` object after the contents are loaded, rather than before. Since `WAD` is a value type, the result is the same.
- `WadContainer.Wad.GetWAD` reads the chain, CRL, contents and meta after the refresh loop. The loop changes only the TMD, so this is the same as reading them through `self`.

## Findings

| source | as written | input that shows it | evidently intended | confidence | as-written member | corrected member |
|---|---|---|---|---|---|---|
| Sources/libwad/Helpers.swift:25 | `WADTypeUnknown = 0x426b000` has seven hex digits | `GetWAD(wadType: .WADTypeUnknown)` writes type bytes `04 26 B0 00` | `0x426b0000`, the tag `Bk` followed by two zero bytes, like `Is` and `ib` | not executed | WadContainer.UnknownTypeHeaderBytes | Helpers.WadTypeTagsAreTwoLetters |

`GetWAD` is modelled as written: its header uses `Helpers.WadTypeRawValueAsWritten`. `Helpers.WadTypeRawValue` is the corrected table, with `0x426b0000` for `WADTypeUnknown`. `Helpers.WadTypeUnknownAsWrittenIsNotATag` shows that the two tables differ there.
