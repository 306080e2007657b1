# Bytestack, modelled and proved in Dafny

Bytestack packs many small payloads into *stacks*. A stack is three append-only files: `.data` holds
4 KiB-aligned slots, `.idx` holds 28-byte index records, `.meta` holds JSON lines. Writers append to
all three and move to a new stack when one is full. Readers come back with an index id, or scan
without ever seeking. This project models the writers, the readers, the codecs between them, the
checksum and the controller, and proves what they promise each other.

How the pieces fit:

- `StackLog` says what the three files of a list of records contain, byte for byte. Every writer is
  proved to produce exactly those bytes and every reader is judged against them, so the writers and
  the readers never have to be compared with each other.
- `Bytes`, `Digits`, `Records`, `MetaJson`, `IndexId` and `Paths` are the codecs: little-endian structs,
  printed numbers, slots, JSON lines, index ids and file names. `Formats` says what they look like, byte by
  byte. `MetaRoundTrip` has the JSON proofs, `MetaPrefix` shows that a line cut short is never taken for a
  record, and `MetaGrammar` which texts are taken for one.
- `Crc32c` has the table-driven checksum, its bit-serial definition and polynomial division, and the
  algebra behind burst detection. `CrcCheck` checks that it is CRC-32C: the polynomial and the standard check
  value.
- `Reader` has `fetch`, `list_stack` and the two iterators; `ReadBack` proves what they return for a
  stack, and `Outcomes` what they return for any bytes at all.
- `Crash` says what a disk with synced lengths may lose. `LocalWriter` is the Rust writer over a
  directory that records the disk after every single file operation; `LocalRun` states its promises
  over whole runs and over every crash. `TornPuts` says what becomes of a stack when the writes of a put fail.
- `S3Writer` is the Rust S3 writer in place, next to functions that say what each of its calls does;
  `S3Published` proves what the object store shows at every step of every run, and `Locations` where readers
  find it.
- `CoreWriter` is the core library's writer, with every write, close and request free to fail;
  `CoreRun` states its promises over whole runs.
- `StackIds` is the controller's counter and the uniqueness of index ids across writers; `IdRuns` shows
  that runs of the S3 writer are runs of that machine. `Fleet` interleaves the calls of any number of S3
  writers that share a bucket prefix and a controller.
- `Preload` is the controller's replica reconciler in one session; `PreloadRuns` interleaves any number of
  sessions.

Conventions. Text is kept as UTF-8 bytes. Rust casts are written out: `AsU32` and `AsU64` truncate, and
offsets wrap as they do in a release build. A CRC register is a sequence of 32 booleans, lowest bit
first. Random cookies, the clock, and the controller's answers are parameters. A panic is a result,
not a precondition.

## Where the code and its documents differ

The model follows the code.

- `validate_magic` compares the end magic with itself (`core/src/types/data.rs:91-94`), so only the start
  magic is checked.
- An index record has 28 bytes; the layout comment that says 30 (`core/src/types/index.rs:40`) is stale.
- `size_data` is `len as u32` although the limit is 5 GiB (`sdk/rust/src/writer.rs:39`,
  `sdk/rust/src/writer.rs:261`), and the length of a meta line is cast alike (`sdk/rust/src/writer.rs:274`).
  Reading back is therefore stated as equivalences: `fetch` works exactly for payloads shorter than 2^32 bytes
  (`ReadBack.FetchBack`), and a scan delivers exactly the records put if and only if every payload and every
  meta line is shorter than that (`ReadBack.ScanExact`). The size `list_al` reports is right exactly while the
  sum is below 2^32.
- A stack written in local mode carries `u64::MAX` in its headers and the reader asserts that header and
  file name agree (`core/src/sdk/bs_opendal_reader.rs:244-245`): listing works exactly if they do. `fetch`
  does not look at the header and works in both modes.
- The core writer writes the index record first (`core/src/sdk/bs_opendal_writer.rs:121-137`), against section
  6.3 of `docs/RFC.md`: a later write that fails leaves an index record that lacks some of its bytes, unless
  it failed only after the last byte of the slot (`CoreWriter.DanglingEntry`). Its id still fetches if and only
  if header and payload got through; a fault in the padding does not matter to it. A fault inside the index
  record itself makes the whole stack unlistable (`CoreWriter.DanglingFetch`).
- A local put whose own write fails leaves the writer open with its old offsets
  (`sdk/rust/src/writer.rs:285-302`). Once magic and cookie of a slot are torn into the data file, the next put
  answers Ok with an id that finds the torn slot (`TornPuts.TornLoses`), and bytes of a torn index entry make
  the stack unlistable (`TornPuts.TornUnlists`). A put that leaves no byte of its slot, or all of them synced,
  harms no id, wherever it fails (`TornPuts.AttemptsFetch`).
- `S3Writer::close` is documented as safe to call repeatedly; after a failed close the second call returns
  Ok without uploading. Everything is published then if and only if it already was before the first close or
  that close got as far as its idx object (`S3Published.ClosePublishes`, `S3Published.CloseTwiceExample`).
- A rotation of `S3Writer` gives its buffers up before it asks for the next stack id. If that request fails,
  the writer is left with empty buffers under the old id, and its next upload overwrites the published
  objects. `S3Published.RotationNeedsId` says that this is the only way to lose a published stack;
  `S3Published.StrandedLoses` and `S3Published.StrandedExample` show the loss by a close,
  `S3Published.StrandedOverwrites` by a put. A put that still fits is accepted under an id that its payload can
  never be fetched by (`S3Published.StrandedAccepts`).
- `S3Writer` puts a slash between its prefix and a file name (`sdk/rust/src/writer_s3.rs:149-153`), the reader
  nothing (`core/src/utils/path.rs:6-16`). So one location `s3://bucket/prefix` serves both only without a
  prefix; with one, the reader needs a slash behind it (`Locations.OneLocation`,
  `Locations.ReturnedAtLocation`).
- `mongo_adjust_preload_replicas` locks the live preloads it sees, so starting from none it locks nothing.
  Two such calls at once add up, and one of them also spoils the count of a call that does hold locks
  (`PreloadRuns.DoubledExample`, `PreloadRuns.BesideLockExample`). A commit that held a lock leaves exactly its
  target if and only if no call that had seen none committed for the stack since its snapshot
  (`PreloadRuns.CommitIsExact`).
- A request for fewer than zero replicas passes the cap, and the deletion loop then never ends
  (`Preload.DeleteRounds`).

## Model

| member | source | states |
|---|---|---|
| `Crc32c.ShiftLinear` | sdk/python/bytestack_sdk/_crc32c.py:16-20 | the one-bit step is linear over xor |
| `Crc32c.ShiftInjective` | sdk/python/bytestack_sdk/_crc32c.py:8-20 | the one-bit step loses nothing, because the polynomial's top bit is set |
| `Crc32c.FeedLinear` | sdk/python/bytestack_sdk/_crc32c.py:33-36 | the register after a xor of messages from a xor of registers is the xor of the two registers |
| `Crc32c.FeedInjective` | sdk/python/bytestack_sdk/_crc32c.py:33-36 | equal suffixes keep different registers different |
| `Crc32c.FeedConcat` | sdk/python/bytestack_sdk/_crc32c.py:34-35 | feeding a concatenation is feeding one part after the other |
| `Crc32c.WindowSeparates` | sdk/python/bytestack_sdk/_crc32c.py:34-35 | from one register, two different words of at most 32 bits lead to different registers |
| `Crc32c.ChecksumResumes` | sdk/python/bytestack_sdk/_crc32c.py:33-36 | the checksum of a concatenation is computed from the checksum of its first part |
| `Crc32c.BurstDetected` | sdk/python/bytestack_sdk/_crc32c.py:25-36 | two equally long payloads that differ only inside some 32 consecutive bits have different checksums |
| `Crc32c.ChecksumIsRemainder` | sdk/python/bytestack_sdk/_crc32c.py:8-36 | the checksum is the remainder of the polynomial long division that section 12.1 of RFC 3720 describes, with all-ones start and final complement |
| `Crc32c.ChecksumAffine` | sdk/python/bytestack_sdk/_crc32c.py:25-36 | over equally long payloads the checksum of a three-way xor is the xor of the three checksums |
| `Crc32c.TableStep` | sdk/python/bytestack_sdk/_crc32c.py:34-35 | one table lookup equals eight one-bit steps, for any right table |
| `Crc32c.Crc32cModule.MakeTable` | sdk/python/bytestack_sdk/_crc32c.py:12-22 | the loops build the table whose entry i is i shifted eight times |
| `Crc32c.Crc32cModule.MakeEntry` | sdk/python/bytestack_sdk/_crc32c.py:15-20 | the inner loop is eight one-bit steps |
| `Crc32c.Crc32cModule.Crc32c` | sdk/python/bytestack_sdk/_crc32c.py:25-36 | the table loop with its cached table computes the bit-serial checksum of every byte string |
| `CrcCheck.Generator` | sdk/python/bytestack_sdk/_crc32c.py:8 | the divisor is the polynomial of CRC-32C: the remainder of x^32 has exactly the exponents section 12.1 of RFC 3720 lists |
| `CrcCheck.CheckValue` | sdk/python/tests/test_writer.py:9-11 | the checksum of "123456789" is 0xE3069283 and that of nothing 0 |
| `Digits.NumberOfPrint` | core/src/types/index.rs:86-88 | reading a printed number in either base gives the number |
| `Digits.PaddedReads` | core/src/utils/path.rs:6-16 | a zero-padded hex number reads back within its limit |
| `Digits.PrintOfNumber` | core/src/utils/index_id.rs:26-27 | printing what was read gives the digits back when they are canonical |
| `Digits.RadixExact` | core/src/utils/index_id.rs:17-27 | from_str_radix reads exactly the digit strings below the limit, with or without one plus in front |
| `IndexId.RecordIdWidth` | core/src/utils/index_id.rs:18-21 | the hex part has 9 to 24 digits, so the length test never rejects a printed id |
| `IndexId.PrintParse` | core/src/utils/index_id.rs:15-35 | parsing the printed id gives the triple back, for all stack ids, offsets and cookies |
| `IndexId.PrintInjective` | core/src/types/index.rs:86-88 | two triples print alike only if they are the same |
| `IndexId.ParsePrint` | core/src/utils/index_id.rs:15-35 | printing what was parsed gives the text back exactly if the text was canonical |
| `IndexId.ParseTable` | core/src/utils/index_id.rs:15-35 | for any text around a comma: no id exactly if the stack number reads and the length is outside 8 to 24, an id exactly if all three numbers read, and a panic otherwise |
| `IndexId.ParsePieces` | core/src/utils/index_id.rs:15-35 | every text has such pieces or no comma, and then it is no id |
| `Paths.NameRoundTrip` | core/src/utils/path.rs:30-45 | a file name gives back its stack under its own suffix and is no stack under another |
| `Paths.NameExact` | core/src/utils/path.rs:30-45 | for any name: another file exactly without `0x` in front or the suffix behind, a stack exactly if what is between reads, and a panic otherwise |
| `Paths.PathInjective` | core/src/utils/path.rs:6-16 | no two files of any two stacks under one prefix share a path |
| `Records.MagicHeaderReads` | core/src/types/data.rs:12-27 | the 16-byte header gives back magic and stack id |
| `Records.SlotsAgree` | core/src/types/data.rs:133-140 | the branching padding, the double-modulo padding of Go and Python and the slot length agree: the least multiple of 4096 that holds header and payload |
| `Records.SlotBounds` | core/src/types/data.rs:166-170 | a slot is aligned and at most 4115 bytes longer than its payload |
| `Records.NewDataRecord` | core/src/types/data.rs:152-163 | header, payload and padding together are the slot, and its size is the slot's |
| `Records.DataRoundTrip` | core/src/types/data.rs:96-100 | decoding an encoded slot header gives it back |
| `Records.IndexRoundTrip` | core/src/types/index.rs:95-99 | decoding an encoded index record gives it back |
| `Formats.LeByte` | core/src/types/data.rs:96-100 | byte i of an encoded integer is its i-th digit to base 256, lowest first |
| `Formats.CastsKeepLowBytes` | sdk/rust/src/writer.rs:261 | a cast to u32 or u64 keeps the four or eight low bytes |
| `Formats.MagicHeadersAre` | core/src/types/data.rs:8-27 | the 16 bytes in front of the data and index file: the magic numbers byte by byte, and the stack id |
| `Formats.DataHeadIs` | sdk/rust/src/writer.rs:143-147 | the data file starts with its header and zeros up to byte 4096 |
| `Formats.SlotHeaderIs` | core/src/types/data.rs:52-86 | the 20 header bytes of a slot: magics byte by byte around cookie, size and checksum |
| `Formats.SlotIs` | core/src/types/data.rs:118-163 | header, payload, and nothing but zeros up to the next multiple of 4096 |
| `Formats.SlotExample` | core/src/types/data.rs:52-67 | the header of "123456789" under cookie 12345, as 20 numbers |
| `Formats.IndexExample` | core/src/types/index.rs:38-54 | the 28 bytes of an index record, as numbers |
| `Formats.NameExample` | core/src/utils/path.rs:6-16 | the files of stacks 31 and 0x12345 are named `0x001f.data` and `0x12345.idx` |
| `Formats.IdExample` | core/src/utils/index_id.rs:38-46 | the id of the source's own test is `100,7d400003039` |
| `Formats.EscapesAre` | core/src/types/meta.rs:77-85 | quote, backslash and five control characters have the short escapes, the other control characters two lower-case digits, and nothing else is escaped |
| `Formats.ArraysAre` | sdk/golang/bytestack/writer.go:84-98 | the text of the empty array and of three bytes, character by character |
| `Formats.HeaderLineIs` | core/src/types/meta.rs:11-35 | the meta header line, character by character around its stack id |
| `Formats.RecordLineIs` | core/src/types/meta.rs:37-45 | the meta line of a record, character by character around its six fields, in their order and without white space |
| `MetaRoundTrip.StringRoundTrip` | core/src/types/meta.rs:37-45 | a string printed with the escapes of section 7 of RFC 8259 parses back, for every byte |
| `MetaRoundTrip.ArrayRoundTrip` | sdk/golang/bytestack/writer.go:84-98 | an integer array printed from bytes parses back |
| `MetaRoundTrip.MarshalExtra` | sdk/golang/bytestack/writer.go:84-98 | the hand-written loop prints exactly the JSON integer array |
| `MetaRoundTrip.ObjectRoundTrip` | core/src/types/meta.rs:77-80 | a printed object parses back to its members |
| `MetaRoundTrip.RecordRoundTrip` | core/src/types/meta.rs:77-85 | parsing a printed meta line gives back all six fields |
| `MetaRoundTrip.ObjectIsLine` | core/src/types/meta.rs:83-85 | a printed object holds no newline, so with one behind it it is exactly one line |
| `MetaRoundTrip.SplitConcat` | core/src/types/meta.rs:83-85 | splitting at newlines splits a concatenation of lines where they meet |
| `MetaPrefix.MembersMore` | core/src/types/meta.rs:77-80 | parsing an object stops at its closing brace: whatever follows plays no part in it |
| `MetaPrefix.RecordCut` | core/src/types/meta.rs:77-80 | a meta line that lost more than its newline parses as no record, wherever it was cut |
| `MetaGrammar.Utf8Exact` | core/src/types/meta.rs:77-80 | a `\u` escape stands for the one UTF-8 text of its code point after section 3 of RFC 3629, and surrogates for none |
| `MetaGrammar.ObjectExact` | core/src/types/meta.rs:77-80 | the parser accepts exactly the texts of a grammar after RFC 8259, white space and escapes included, and reads from each exactly what it means |
| `MetaGrammar.FieldsExact` | core/src/types/meta.rs:37-45 | members make up a record exactly if each of the six fields is there once, with the value and type it has in the record |
| `MetaGrammar.RecordExact` | core/src/types/meta.rs:77-80 | so a text parses to a record if and only if it is such an object with those fields |
| `StackLog.SlotAt` | sdk/rust/src/writer.rs:281-290 | record k occupies exactly its slot of the data file, at the offset its predecessors add up to |
| `StackLog.LineAt` | sdk/rust/src/writer.rs:292-296 | record k occupies exactly its line of the meta file |
| `StackLog.CodeAt` | sdk/rust/src/writer.rs:298-300 | record k occupies exactly its 28 bytes of the index file |
| `StackLog.FilesGrow` | sdk/rust/src/writer.rs:281-302 | more records only append to all three files |
| `StackLog.DataAligned` | core/src/types/data.rs:166-170 | every slot starts on a multiple of 4096 |
| `StackLog.DataSize` | sdk/rust/src/writer.rs:290-304 | the data offset is at least 4096 plus the raw bytes and at most 4115 a record above that |
| `Reader.Cursor.ReadExact` | core/src/sdk/bs_opendal_reader.rs:96-102 | all the bytes asked for and a cursor right behind them, or an error |
| `Reader.Fetch` | core/src/sdk/bs_opendal_reader.rs:436-499 | the steps of fetch, with their early returns, come to the outcome `Fetched` gives |
| `Reader.ListStack` | core/src/sdk/bs_opendal_reader.rs:213-267 | listing, with its assertions on the header, comes to `Listed` |
| `Reader.DecodeAll` | core/src/sdk/bs_opendal_reader.rs:257-265 | the chunk loop decodes 28 bytes at a time and fails on a torn tail |
| `Reader.FullSize` | core/src/sdk/bs_opendal_reader.rs:184-189 | the loop computes the u32 sum that wraps |
| `Reader.DataIterator.Advance` | core/src/sdk/bs_opendal_reader.rs:69-117 | one next() with its two cursors is one step of `Next` |
| `Reader.MetaIterator.Advance` | core/src/sdk/bs_opendal_reader.rs:34-56 | one next() with its cursor is one step of `NextMeta` |
| `Outcomes.FetchExact` | core/src/sdk/bs_opendal_reader.rs:436-499 | over any store and any id text: exactly when fetch panics, returns these bytes, or objects to the cookie; everything else is an I/O error |
| `Outcomes.EndMagicUnread` | core/src/types/data.rs:91-94 | whatever the four bytes of the end magic are, fetch does the same |
| `Outcomes.ListExact` | core/src/sdk/bs_opendal_reader.rs:213-267 | over any store: listing returns these records exactly if the index file is the header and their codes and nothing else, panics exactly if the first 16 bytes are not that header, and fails otherwise, also without a file |
| `Outcomes.OpenExact` | core/src/sdk/bs_opendal_reader.rs:402-433 | over any store: the scan opens exactly if the index lists and the other two files reach behind their headers, with the cursors there |
| `Outcomes.NextExact` | core/src/sdk/bs_opendal_reader.rs:69-117 | over any files and cursors: exactly when a call delivers this item or panics; it drops one record in any case, and where it leaves both cursors |
| `Outcomes.NextMetaExact` | core/src/sdk/bs_opendal_reader.rs:34-56 | the same for the iterator over meta records |
| `ReadBack.FetchSlot` | core/src/sdk/bs_opendal_reader.rs:458-498 | a stored slot is fetched as the part of its payload that the cast to u32 keeps: all of it exactly below 2^32 bytes, cut without an error above, unless the checksum test objects |
| `ReadBack.FetchCut` | core/src/sdk/bs_opendal_reader.rs:458-498 | a slot cut short fetches its payload exactly if the cut is behind it and it is under 2^32 bytes; less than the header announces is an error |
| `ReadBack.CookieGuards` | core/src/sdk/bs_opendal_reader.rs:477-481 | a wrong cookie never reads a stored slot |
| `ReadBack.FetchDetectsBurst` | core/src/sdk/bs_opendal_reader.rs:490-497 | damage inside 32 consecutive bits never passes a checked fetch |
| `ReadBack.FetchBack` | core/src/sdk/bs_opendal_reader.rs:436-499 | the id put returns fetches exactly its payload from any store that holds the slot, if and only if it is under 2^32 bytes |
| `ReadBack.ListBack` | core/src/sdk/bs_opendal_reader.rs:213-267 | a stack lists as its records, in order, exactly if its header carries its file id; otherwise the assertion panics |
| `ReadBack.ListTorn` | core/src/sdk/bs_opendal_reader.rs:247-266 | an index cut behind its header lists its whole records after a clean cut and fails after any other |
| `ReadBack.ListHeaderCut` | core/src/sdk/bs_opendal_reader.rs:222-245 | an index cut inside its header panics, or fails if the zeros of the buffer happen to complete the header |
| `ReadBack.FullSizeExact` | core/src/sdk/bs_opendal_reader.rs:184-189 | the reported size equals the raw bytes put exactly while those are below 2^32 |
| `ReadBack.OpenBack` | core/src/sdk/bs_opendal_reader.rs:402-433 | the scan opens with both cursors exactly at the first record, behind a header whose length is recomputed |
| `ReadBack.ScanStep` | core/src/sdk/bs_opendal_reader.rs:69-117 | one next() delivers record k and leaves both cursors exactly at record k + 1, if and only if payload and line are under 2^32 bytes |
| `ReadBack.ScanExact` | core/src/sdk/bs_opendal_reader.rs:69-117 | over any stored stack whose header carries its id, the scan opens, and delivers exactly the records put and then nothing if and only if every payload and every line is under 2^32 bytes |
| `ReadBack.ItemIs` | core/src/sdk/bs_opendal_reader.rs:69-117 | the item of a record has cookie, time, name, extra bytes and payload as put, and the offsets and cast sizes of its slot and line |
| `ReadBack.ScanEqualsIndex` | core/src/sdk/bs_opendal_reader.rs:69-117 | the scan delivers every record in order and then nothing, if and only if all payloads and lines are under 2^32 bytes; each item carries its index record, its meta record and the payload, which is what fetching its id returns exactly below 2^32 bytes |
| `ReadBack.ScanTorn` | core/src/sdk/bs_opendal_reader.rs:69-117 | files whose index ends cleanly behind record n, with data and meta reaching at least as far, scan as exactly the first n records, if and only if the sizes of those fit |
| `ReadBack.ScanOpens` | core/src/sdk/bs_opendal_reader.rs:402-433 | behind a clean index the scan opens exactly if the headers of meta and data are there whole, and is an error otherwise |
| `ReadBack.MetaScanEqualsIndex` | core/src/sdk/bs_opendal_reader.rs:34-56 | the meta iterator delivers the index and meta record of every record in order and then nothing, if and only if every line is under 2^32 bytes |
| `ReadBack.MetaLines` | core/src/types/meta.rs:29-45 | the meta file splits at newlines into the header and one line a record |
| `ReadBack.MetaCut` | core/src/types/index.rs:49-53 | offset and size of each index record cut out exactly its line, which parses to all six fields, if and only if it is under 2^32 bytes; what is cut out of a longer one is no record |
| `Crash.SatisfiedReads` | core/src/sdk/bs_opendal_reader.rs:436-499 | a record whose entry, slot and line are whole decodes, parses and fetches |
| `Crash.CrashKeepsOrder` | sdk/rust/src/writer.rs:281-302 | in every crash image of a disk in order, each complete surviving index record is one of the stack's and names a slot and a line that survive whole |
| `Crash.CrashKeepsLines` | sdk/rust/src/writer.rs:285-296 | and each line that survives, if only in part, has its slot, whole |
| `Crash.CrashImages` | sdk/rust/src/writer.rs:289 | a crash may leave of each file any beginning that holds what was synced, whatever it leaves of the others, and nothing else |
| `Crash.CrashSafe` | sdk/rust/src/writer.rs:281-306 | the same for every stack at a safe instant, and each returned id still fetches its payload |
| `Crash.WriteOrdered` | sdk/rust/src/writer.rs:285-300 | a write of the next bytes keeps a disk in order, an index write only behind synced data and meta |
| `Crash.PlanKeepsSafe` | sdk/rust/src/writer.rs:222-307 | what a later put will write never makes an earlier instant unsafe |
| `LocalWriter.TakenRun` | sdk/rust/src/writer.rs:110-116 | a run of taken ids is no longer than the directory, because names are injective |
| `LocalWriter.Probe` | sdk/rust/src/writer.rs:105-117 | the probe stops, at the least id at or after the clock whose data file is absent |
| `LocalWriter.LocalWriter.ResolveStackIds` | sdk/rust/src/writer.rs:99-119 | one id twice under a controller; without one a free timestamp and u64::MAX, or an error if the existence test fails |
| `LocalWriter.LocalWriter.Open` | sdk/rust/src/writer.rs:86-97 | a writer over one new empty stack, exactly if nothing keeps it from being opened, under the id the controller or the probe gives; or no stack at all, with the files a failure leaves |
| `LocalWriter.LocalWriter.OpenStack` | sdk/rust/src/writer.rs:121-168 | three new files with exactly their headers and fields that describe them, exactly if every create and header write works and the three names are free (under the controller's id, or the first id from the clock on without a data file); any failure leaves the writer closed, every stack as it was, and of the new files exactly what was written; no other file is touched |
| `LocalWriter.LocalWriter.WriteHeaders` | sdk/rust/src/writer.rs:143-157 | the four header writes, in order, up to the first that fails, and the bytes it leaves; a stack exactly if none does |
| `LocalWriter.LocalWriter.CreateFiles` | sdk/rust/src/writer.rs:127-141 | it succeeds exactly if all three creates work and none of the names is taken, and leaves exactly the files created up to the first failure; on success none of them has ever held a byte |
| `LocalWriter.OpeningStops` | sdk/rust/src/writer.rs:127-157 | of the three creates and four header writes, each before the first that fails is done in full and none behind it is begun |
| `LocalWriter.LocalWriter.WriteRecord` | sdk/rust/src/writer.rs:281-302 | slot, line and entry are appended and each synced before the next |
| `LocalWriter.LocalWriter.AppendRecord` | sdk/rust/src/writer.rs:249-306 | exactly one record is added to the newest stack and its id returned |
| `LocalWriter.LocalWriter.RotateStack` | sdk/rust/src/writer.rs:170-175 | a new empty stack behind the current ones under the right id, exactly if every handle left can be synced and nothing keeps the next stack from being opened; otherwise an error, and which, with all stacks as they were |
| `LocalWriter.LocalWriter.FlushAndClose` | sdk/rust/src/writer.rs:177-184 | the file is on disk in full and the handle taken; on an error, or if it was taken before, nothing changes |
| `LocalWriter.LocalWriter.MakeRoom` | sdk/rust/src/writer.rs:240-243 | room for the payload in the newest stack, with a rotation exactly if it would overflow; it works exactly if none is needed or rotating works |
| `LocalWriter.LocalWriter.Put` | sdk/rust/src/writer.rs:222-307 | it answers exactly if the writer is open, the payload allowed, and there is room or rotating works, with the exact new stacks, the id, and the right id for a new stack; exactly when it is refused as closed or full or for want of an id, with no stack changed and the handles as close leaves them; no file of another stack is touched; the directory stays crash-safe and the rotation greedy |
| `LocalWriter.LocalWriter.Close` | sdk/rust/src/writer.rs:314-320 | data, meta and idx on disk in full and their handles taken, in this order up to the first failure, and exactly which handles are left; a later call goes on there, and one that finds no handle does nothing |
| `LocalWriter.LocalWriter.CloseStops` | sdk/rust/src/writer.rs:314-320 | close keeps exactly the handles from the first on that cannot be synced |
| `LocalWriter.AcceptedKeepsOrder` | sdk/rust/src/writer.rs:232-243 | rotation is a greedy partition of the accepted records, in order: no stack over the limit, and each ends only where the next payload would overflow it |
| `LocalRun.StackBounds` | sdk/rust/src/writer.rs:232-304 | in every reachable state a stack's raw bytes are within the limit and its data file is aligned, at least 4096 above its raw bytes and at most 4096 + limit + 4115 a record |
| `LocalRun.IdsDiffer` | sdk/rust/src/writer.rs:268-306 | within one directory no two records share an id |
| `LocalRun.LocatedStays` | sdk/rust/src/writer.rs:222-307 | later puts and rotations never change what an id names |
| `LocalRun.EveryIdFetches` | sdk/rust/src/writer.rs:222-307 | every record of a settled directory is fetched by its id exactly if it is under 2^32 bytes |
| `LocalRun.CrashAnyInstant` | sdk/rust/src/writer.rs:281-306 | at any instant of a run, in every crash image, each complete index record is one of the stack's and satisfied, and each line that is there, if only in part, has its slot whole |
| `LocalRun.CrashScan` | core/src/sdk/bs_opendal_reader.rs:69-117 | if the surviving index of a controller-mode stack ends cleanly behind record n, the scan delivers exactly the first n records, if and only if their sizes fit; behind the bare header it opens exactly if the other two headers survived whole |
| `LocalRun.ReturnedSurvives` | sdk/rust/src/writer.rs:281-306 | once put has returned an id, no crash at any later instant loses its payload |
| `LocalRun.PutAllAndClose` | sdk/rust/src/writer.rs:222-320 | after any sequence of puts, with rotations and failures of them, and close, every returned id fetches exactly its payload, if and only if it is under 2^32 bytes; with a working disk and new ids from the controller, an open writer answers exactly the payloads within the limit |
| `TornPuts.StackFiles.Append` | sdk/rust/src/writer.rs:281-306 | the writes of a put, with any of them and any sync failing, and its offsets come to `Appending` |
| `TornPuts.WholePut` | sdk/rust/src/writer.rs:281-306 | without faults a put takes the three files and the offsets of a stack to those with one more record, and returns its id |
| `TornPuts.FaultsLeave` | sdk/rust/src/writer.rs:281-306 | with any faults: how many bytes of slot, line and entry follow the files, none of a later one before the earlier is whole and synced, and which of the offsets have moved |
| `TornPuts.AppendingData` | sdk/rust/src/writer.rs:281-306 | a put answers exactly without a fault, with the id of its record; with its slot written and synced the data file and its offset are one record further, whatever becomes of line and entry, and otherwise the offset stays behind the bytes that landed |
| `TornPuts.AttemptsFetch` | sdk/rust/src/writer.rs:281-306 | over any sequence of puts with any faults, as long as none leaves part of a slot, or an unsynced one, in the data file, every id returned fetches exactly its payload, if and only if it is under 2^32 bytes |
| `TornPuts.TornLoses` | sdk/rust/src/writer.rs:285-290 | a failed put that leaves magic and cookie of its slot makes the next put return an id under which no payload can be fetched |
| `TornPuts.TornUnlists` | sdk/rust/src/writer.rs:298-302 | over any sequence of puts with any faults, unless the bytes of torn entries add up to whole entries, the stack can no longer be listed |
| `S3Writer.Bucket.PutObject` | sdk/rust/src/writer_s3.rs:154-166 | an upload publishes its object or not, and reports success only if it did |
| `S3Writer.S3Writer.Open` | sdk/rust/src/writer_s3.rs:107-134 | fresh buffers with the three headers, or no change at all without a stack id |
| `S3Writer.S3Writer.UploadCurrentStack` | sdk/rust/src/writer_s3.rs:136-173 | the loop publishes data, meta and idx in this order, stops at the first failure, and gives the buffers up only after all three |
| `S3Writer.S3Writer.Append` | sdk/rust/src/writer_s3.rs:236-287 | slot, line and entry go to the three buffers as `Appended` says |
| `S3Writer.S3Writer.Put` | sdk/rust/src/writer_s3.rs:213-288 | guards, rotation and append come to `Putting`, through every store visited |
| `S3Writer.S3Writer.Close` | sdk/rust/src/writer_s3.rs:294-303 | flag, upload and client come to `Closing` |
| `S3Published.SendingInOrder` | sdk/rust/src/writer_s3.rs:142-171 | every store an upload visits shows an idx no newer than its meta and a meta no newer than its data |
| `S3Published.SendingExact` | sdk/rust/src/writer_s3.rs:142-171 | an upload is heard exactly if all three objects are; each that got under way and was not lost is there in full, and no other object differs in any store on the way |
| `S3Published.PutAnswers` | sdk/rust/src/writer_s3.rs:213-234 | put answers closed, full, upload failed, no stack id or an id, each exactly when it is its turn |
| `S3Published.CloseAnswers` | sdk/rust/src/writer_s3.rs:294-303 | close is Ok exactly if called again or all three objects are heard of; only then the first call drops the client |
| `S3Published.InOrderSatisfied` | sdk/rust/src/writer_s3.rs:142-167 | so every visible index record is satisfied by visible bytes |
| `S3Published.PutRefused` | sdk/rust/src/writer_s3.rs:175-178 | a rotation whose upload fails changes no buffer and no offset, so the call can be repeated |
| `S3Published.PutKeeps` | sdk/rust/src/writer_s3.rs:213-288 | a put, with any upload failing, keeps every store in order and answers exactly when it accepted, unless it strands the writer |
| `S3Published.CloseKeeps` | sdk/rust/src/writer_s3.rs:294-303 | close keeps the order of every store and leaves the writer closed; a close that fails keeps the client |
| `S3Published.ClosePublishes` | sdk/rust/src/writer_s3.rs:294-303 | a close after a close returns Ok, and everything is published then if and only if the newest stack already was, or data and meta of the first close were heard to arrive and its idx was not lost |
| `S3Published.CloseTwiceExample` | sdk/rust/src/writer_s3.rs:294-303 | a close that fails, a second that returns Ok, and nothing published |
| `S3Published.RotationNeedsId` | sdk/rust/src/writer_s3.rs:175-178 | after any put, a close whose uploads arrive leaves every stack published whole if and only if the put did not lose its stack id behind a finished upload |
| `S3Published.StrandedLoses` | sdk/rust/src/writer_s3.rs:169-178 | otherwise each record of the stack was readable before that close and none is after it |
| `S3Published.StrandedAccepts` | sdk/rust/src/writer_s3.rs:236-288 | a stranded writer accepts a payload that still fits, under the id of the next record of the published stack, with its slot at the start of the buffer; after a close that id does not fetch it, whichever uploads arrive |
| `S3Published.StrandedOverwrites` | sdk/rust/src/writer_s3.rs:231-234 | with a payload that does not fit, and uploads that arrive, it publishes the empty objects at once, and no record of the published stack fetches any more |
| `S3Published.StrandedExample` | sdk/rust/src/writer_s3.rs:175-178 | two puts of one byte under a limit of one byte, the second without a stack id, get there |
| `S3Published.RunKeeps` | sdk/rust/src/writer_s3.rs:213-303 | over every run of puts and closes, repeated at will, all stores seen are in order and stacks only grow |
| `S3Published.SeenSatisfied` | sdk/rust/src/writer_s3.rs:136-173 | in every store of a run each visible index record is satisfied |
| `S3Published.ReturnedIsPublished` | sdk/rust/src/writer_s3.rs:213-303 | an id returned anywhere in a run fetches its payload, at the prefix with a slash behind it unless it is empty, once the client has been given up, if and only if it is under 2^32 bytes |
| `S3Published.OpenedInv` | sdk/rust/src/writer_s3.rs:73-105 | a writer just opened on an unused stack id starts such a run |
| `Locations.KeyIs` | sdk/rust/src/writer_s3.rs:149-153 | an object lies at its file name, behind the prefix and a slash unless the prefix is empty |
| `Locations.WriterExact` | sdk/rust/src/writer_s3.rs:73-86 | the writer takes exactly the locations that start with `s3://`, with the bucket up to the first slash and the prefix behind it |
| `Locations.ReaderExact` | core/src/sdk/bs_opendal.rs:163-175 | the reader takes bucket and prefix from the first match of its pattern anywhere in the location, and of the prefix the first line |
| `Locations.ReaderFinds` | core/src/utils/path.rs:6-16 | a reader at the writer's location with a slash behind a prefix looks for each file at the key the writer gave it |
| `Locations.SameLocation` | core/src/utils/path.rs:6-16 | at one and the same location it does so if and only if there is no prefix |
| `Locations.ReturnedAtLocation` | sdk/rust/src/writer_s3.rs:213-303 | a returned id fetches its payload by a reader at the location with the slash, if and only if it is under 2^32 bytes |
| `Locations.OneLocation` | core/src/sdk/bs_opendal.rs:163-175 | by a reader at the writer's own location it does without a prefix, and is an I/O error with one |
| `CoreWriter.InnerWriter.WriteIndex` | core/src/sdk/bs_opendal_writer.rs:51-58 | the index bytes, whole or up to the fault |
| `CoreWriter.InnerWriter.WriteMeta` | core/src/sdk/bs_opendal_writer.rs:61-69 | the line, whole or up to the fault, and its length |
| `CoreWriter.InnerWriter.WriteData` | core/src/sdk/bs_opendal_writer.rs:72-87 | header, payload and padding up to the first fault, and the slot's size |
| `CoreWriter.InnerWriter.Write` | core/src/sdk/bs_opendal_writer.rs:89-140 | the exact bytes in all three objects for every pattern of faults; an id exactly without one, with offsets equal to the bytes appended |
| `CoreWriter.InnerWriter.Fill` | core/src/sdk/bs_opendal_writer.rs:217-266 | what opening leaves of each of the three objects, up to the first failure; it succeeds exactly without one |
| `CoreWriter.OpeningStops` | core/src/sdk/bs_opendal_writer.rs:217-266 | of the three creations and three header writes, each before the first failure is done in full and none behind it is begun |
| `CoreWriter.InnerWriter.Close` | core/src/sdk/bs_opendal_writer.rs:37-48 | Ok exactly if all three closes work, and which objects are finished up to the first failure, with exactly the records in them |
| `CoreWriter.DanglingEntry` | core/src/sdk/bs_opendal_writer.rs:121-137 | after a fault behind the index write the index record is there, and satisfied if and only if the fault struck in the slot's last write and only after its last byte |
| `CoreWriter.DanglingFetch` | core/src/sdk/bs_opendal_writer.rs:72-140 | after any faults at all: the stack lists with the record, without it, or not at all, by how much of its entry got through; its id fetches the payload if and only if header and payload got through and it is under 2^32 bytes |
| `CoreWriter.DanglingExample` | core/src/sdk/bs_opendal_writer.rs:121-137 | the first record of a stack and a header write that fails at once get there |
| `CoreWriter.BytestackOpendalWriter.CreateNewWriters` | core/src/sdk/bs_opendal_writer.rs:217-266 | a writer over exactly the headers exactly if every step works, and what is left of each object if one fails |
| `CoreWriter.BytestackOpendalWriter.TakeWriter` | core/src/sdk/bs_opendal_writer.rs:180-205 | the writer held if the payload fits, else one over a new stack, exactly if the close of a full one, the request and the opening all work; otherwise which error, and what became of each stack |
| `CoreWriter.BytestackOpendalWriter.Put` | core/src/sdk/bs_opendal_writer.rs:169-215 | it answers exactly without a fault in its writes, and with room in the stack held or a close, an id and an opening that work; the exact new stacks, their fates, the total, and the bytes in the objects whatever fails; exactly when it is a close error or a panic, which poisons; no other stack's object is touched |
| `CoreWriter.BytestackOpendalWriter.Close` | core/src/sdk/bs_opendal_writer.rs:268-275 | what is held is closed or given up, its data object finished exactly if that close worked; nothing happens if nothing is held |
| `CoreWriter.FailStopThrough` | core/src/sdk/bs_opendal_writer.rs:169-215 | fail-stop composes: a stack closed or given up in one span of calls is not written in the next |
| `CoreRun.PerformAll` | core/src/sdk/bs_opendal_writer.rs:169-275 | over any sequence of puts and closes with any faults: which calls answer, by a gauge of the bytes held and the lock alone; a stack closed or given up never changes; every returned id whose stack ended closed fetches exactly its payload if it is under 2^32 bytes, and from the finished objects every returned id does if and only if the data object of its stack was finished |
| `CoreRun.FinishedFetches` | core/src/sdk/bs_opendal_writer.rs:37-48 | an id in a stack of any fate fetches from the finished objects if and only if the data object was finished, which it is in a closed stack |
| `CoreWriter.ClosedReads` | core/src/sdk/bs_opendal_writer.rs:37-48 | every stack closed without error holds whole records only, and lists, scans and fetches as them if and only if every payload and every line is under 2^32 bytes |
| `StackIds.Controller.NextStackId` | services/controller/src/server.rs:50-78 | the answer is the counter before its increment |
| `StackIds.ApplyKeeps` | services/controller/src/server.rs:50-78 | every step of every writer keeps stacks apart and grants behind offsets |
| `StackIds.IdsNeverRepeat` | core/src/types/index.rs:86-88 | over every interleaving of any number of writers, with lost answers and failed puts, no two puts return the same id, whatever the cookies |
| `StackIds.PutSimulated` | sdk/rust/src/writer.rs:240-306 | every accepted put of any of the writers is a run of the machine that grants exactly the id returned, moves no other writer, and takes a stack id exactly if it opens a stack |
| `StackIds.AttemptSimulated` | sdk/rust/src/writer.rs:281-306 | every put of a local writer with any faults is a step of the machine: with the id it returns, or none, and the offset it leaves |
| `StackIds.CounterCounts` | services/controller/src/server.rs:50-78 | every request for a stack id takes a number, heard of or not |
| `IdRuns.RunSimulated` | sdk/rust/src/writer_s3.rs:213-303 | every run of one S3 writer, from any world that follows it, is a run of the machine whose grants are exactly the ids returned, in order |
| `Fleet.ActKeeps` | sdk/rust/src/writer_s3.rs:107-303 | whichever writer is called next, or opened, its call leaves every other writer, its stacks and their objects sound, and no store holds an object of a stack still to be opened |
| `Fleet.FleetKeeps` | sdk/rust/src/writer_s3.rs:107-303 | so it stays over every interleaving of the calls of any number of writers, and no stack loses a record |
| `Fleet.FleetSimulated` | services/controller/src/server.rs:50-78 | every such interleaving is a run of the counter machine whose grants are exactly the ids returned by all writers, in order |
| `Fleet.NoIdTwice` | core/src/types/index.rs:86-88 | so no two puts of any of the writers return the same id |
| `Fleet.FleetSatisfied` | sdk/rust/src/writer_s3.rs:136-173 | in every state the shared bucket has been in, each visible index record of every writer is satisfied |
| `Fleet.FleetPublishes` | sdk/rust/src/writer_s3.rs:213-303 | an id any writer returned fetches its payload, at the prefix with a slash behind it unless it is empty, once that writer has given its client up, whatever the others do, if and only if it is under 2^32 bytes |
| `Preload.Clamp` | services/controller/src/server.rs:196-202 | five for more than five, and otherwise what was asked |
| `Preload.Session.InsertOne` | services/controller/src/server.rs:308-313 | exactly one new live preload under a fresh id, written down as such |
| `Preload.Session.DeleteOne` | services/controller/src/server.rs:318-323 | exactly one of the live preloads is gone, any one, if there is one; else nothing changes |
| `Preload.Adjust` | services/controller/src/server.rs:270-325 | both loops end; the transaction is aborted exactly if the target was met, and else leaves exactly the target, all live documents locked; with too few live preloads all of them stay and new ones come in their first state, with too many none comes; nothing else is touched |
| `Preload.DeleteRounds` | services/controller/src/server.rs:316-324 | how many live preloads the deletion loop has left after any number of rounds, for any target; so it is over, given enough rounds, if and only if the target is not below zero |
| `Preload.PreLoad` | services/controller/src/server.rs:196-237 | the target is the request, or five if that is less |
| `PreloadRuns.CommitLeaves` | services/controller/src/server.rs:293-325 | one commit leaves its target and the live preloads its session never saw; a session that saw too few removes none and one that saw too many adds none; those that stay keep their state, those that come are in the first; no other stack's and no deleting document changes |
| `PreloadRuns.NextKeeps` | services/controller/src/server.rs:293-303 | whatever begins or commits, each session is doomed to conflict, or sees all there is, or a call without a lock has added to its stack |
| `PreloadRuns.CommitCounts` | services/controller/src/server.rs:270-346 | in every interleaving, a commit leaves exactly its target if and only if its session had seen every live preload there is at the commit |
| `PreloadRuns.CommitIsExact` | services/controller/src/server.rs:270-346 | in every interleaving, a commit that held a lock leaves exactly its target if and only if no call that had seen no live preload committed for the stack since its snapshot; one that held none if and only if no live preload is there at its commit; without such a call every commit does |
| `PreloadRuns.RaceNeedsLock` | services/controller/src/server.rs:293-303 | of two adjusts with one snapshot the second is refused if and only if there was a live preload to lock; otherwise the targets add up |
| `PreloadRuns.DoubledExample` | services/controller/src/server.rs:293-314 | one replica asked for twice at once, for a stack that has none, makes two |
| `PreloadRuns.BesideLockExample` | services/controller/src/server.rs:293-314 | two replicas asked for under a lock, beside a call without one, make three |

## Left out

- The Go and Python local writers as state machines of their own. They put in the same order as the Rust
  LocalWriter; what they compute themselves is modelled: the padding formula, the integer array printer, the
  checksum loop, the probe. They differ elsewhere: Go closes its files on rotation without a sync and is left
  with nil handles and `closed == false` if the reopen fails, Python syncs in the order data, idx, meta on
  close, Go escapes HTML characters, and Python's `struct` refuses sizes of 2^32 and more.
- The Go and Python S3 writers: they repeat the same put over other buffers.
- LocalWriter.LocalWriter.Put: errors of the writes and syncs of the record itself are not part of this class,
  because partial bytes make the tracked offsets stale; crashes at any point of them are. `TornPuts` has those
  errors, for one open stack and without crashes. Errors of opening, rotating and closing are modelled, with a
  failed sync leaving the file as it was.
- LocalWriter.LocalWriter.WriteRecord: the same errors are in `TornPuts` only.
- LocalWriter.LocalWriter.AppendRecord: the same errors are in `TornPuts` only.
- TornPuts.TornLoses: with fewer than eight bytes torn, or equal cookies, what the next id finds depends on the
  bytes of both records.
- LocalWriter.LocalWriter.ResolveStackIds: the clock plus the number of files stays below 2^64, where the
  source's counter would overflow.
- LocalWriter.LocalWriter.Open: creating the directory itself and a clock before 1970 are not modelled.
- Several local writers at work in one directory at the same time; successive ones are modelled.
- The network, gRPC, the S3 and OpenDAL clients, async scheduling, the CLI, configuration and logging; of URL
  parsing only S3 locations are modelled. Storage is byte sequences with append, sync, publish and fail steps.
- Directory-entry durability: a created file is taken to exist after a crash.
- StackIds.Controller.NextStackId: the counter is unbounded; the ids it gives are assumed below 2^64.
- S3Published.PutKeeps: a stack id from the controller names no object seen before. For S3 writers that share
  a prefix and a controller `Fleet` derives it from the counter; nobody else may write under the prefix.
- Fleet.FleetKeeps: the writers' calls interleave call by call; that two uploads of different stacks could also
  interleave object by object is not modelled. Puts that strand their writer are left to `S3Published`.
- CoreRun.PerformAll: likewise, the controller's answers are new and never the same twice.
- Preload.Adjust: targets not below zero; what happens below is in Preload.DeleteRounds.
- Preload.PreLoad: the same, and one attempt only; the retry loops around the transaction and its commit are
  not modelled.
- PreloadRuns.CommitIsExact: other services that change preload states meanwhile are not modelled.
- MetaRoundTrip.RecordRoundTrip: the parser covers what the writers print and fields in any order; surrogate
  escapes, fractions, nested values and the rejection of invalid UTF-8 are not modelled.
- MetaGrammar.RecordExact: the same; other members of an object are passed over only if they are of the forms
  the writers print.
- `register_stack_source`, `locate_stack`, `batch_fetch`, the turbo service and the migration from local
  files to S3.
