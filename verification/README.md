# Verification of wish-c99

A Dafny model of the parts of wish-c99, a peer-to-peer core in C, that carry its hard guarantees, and
proofs of these guarantees. `dafny verify dfyconfig.toml` checks the whole project.

What the code changes in place is changed in place here: classes with fields, arrays and loops. Every
such method is tied to a function on plain values, and the theorems are about these functions.

| files | part of the core |
|---|---|
| Basics, Bytes | shared datatypes; bytes, C strings, little- and big-endian integers, frames |
| Utf8 | the UTF-8 check of the BSON library |
| BsonTree, BsonBuilder, BsonIterator, BsonPath | the BSON format as trees; the builder with its offset stack, back-patched lengths and growing buffer; the cursor; the pruned search by dotted path |
| BsonCopy, BsonVisit, BsonItems, BsonPatch | the copier, the rewriting visitors over a shared path buffer, edits of the list of all elements, and what an update means |
| BsonMemory, BsonUpdate | what a takeover does to the buffer it lands in, and the update of documents in place |
| BsonFields, BsonValues | single fields, as the identity database and the configuration read them; numbers, dates, timestamps and ids |
| RingBuffer, Nonce | the 16-bit ring buffer and the 64-bit counter in the IV |
| Protocol, Connection | the connection protocol as a function on values, and the slot that is changed in place |
| Chunking | how a stream is cut into reads makes no difference |
| Authentication, Integrity, Admission | runs of one slot under arbitrary input: whose signature was checked, what becomes of forged frames, whom the core serves |
| Transitions | the protocol as a table of what ends a connection and what comes next |
| SecureChannel, ChannelRuns | two honest cores, two byte pipes, all interleavings |
| AppServer, AppReads | the framing of local applications, and when a stream cut into reads is delivered |
| Timers, TimerSweep, Pool, PoolRuns, PoolPings | timers and the list swept in place; liveness, pings and parallel connections over all runs |
| IdentityRecord, IdentityFile, IdentityStore | one record, the file as a list of records, and the scans and rewrites through a temporary file |
| Inet, InetTexts | the parsers of IP addresses, and exactly which texts they take |
| Relay, Config | relay servers and their way through the configuration file |

## Main results

- **Secure channel.** No nonce travels on the wire, so both ends must count alike. In every state that any
  interleaving of arrival, processing and sending can reach, the ends hold crosswise equal keys, each
  out-counter is the peer's in-counter plus the encrypted frames on their way, no decryption has failed,
  and what was handed up is a prefix of what was sent (`ChannelRuns.RunsStayInStep`). There is no
  deadlock, and every run can be finished (`RestMeansComplete`, `EveryRunCanFinish`).
- **Authentication, integrity, admission.** Whatever arrives in whatever run: an open connection that is no
  friend request has had its peer's signature checked (`Authentication.OpenMeansAuthenticated`); a frame
  without the right tag ends the connection at once, and nothing is handed up but what a genuine frame
  opens to (`Integrity.RunObeysLaw`); a normal connection that is served began with a hello between two
  users of the database, the own one with its private key (`Admission.ServedMeansKnown`, and
  `HelloIsAnsweredIff` for one hello). `Transitions.FrameTable` says for every state exactly what ends a
  connection.
- **Chunking.** Any two ways of cutting a byte stream into chunks that find room in the ring buffer are
  equivalent (`Chunking.ChunkingDoesNotMatter`, `AppServer.ChunkingDoesNotMatter`). For a local application
  from its first byte on, all ways of cutting a stream are equivalent exactly if the stream fits the ring
  and starts with a known preamble or is shorter than two, or the ring cannot hold a preamble: an unknown
  preamble is dropped without going on, and a byte that finds no room is lost (`AppServer.ChunkingIff`).
  A stream of documents of any length is delivered whole exactly if every read finds room
  (`AppReads.DeliveredIffFits`); reads of up to m bytes always do exactly under a condition on the lengths
  of the documents (`ReadsDeliverIff`). With the ring of 65535 bytes and the reads of 100 bytes of the Unix
  port (port/unix/app_server.h:19, port/unix/app.c:931), documents of up to 65436 bytes are safe
  (`SmallDocumentsFit`).
- **BSON.** Building any tree gives its canonical bytes and walking them gives the tree; the pruned search
  equals the full one; edits touch one place of the list of all elements (`BsonItems.EditIsOfItems`);
  `bson_update` obeys its law and is idempotent.
- **Fixed buffers.** The flag "Force to use given buffer" (deps/bson/bson.h:79) holds only until the first
  update fits: a takeover overwrites it with the flag of a temporary, and the next growth hands memory that
  is not the library's to realloc (`BsonMemory.FlagIsLost`). Runs of updates are defined exactly if, once one has
  fitted, all later ones fit (`ExternalUpdatesIff`; `BorrowedIff` and `OnStackIff` for other memory).
- **Timers and the pool.** Timers are exact although callbacks append to the list that is being swept; no
  connection outlives 40 silent seconds, none is closed before without a reason, and each is pinged in time
  to answer for 30 seconds (`PoolPings.PingedInTime`, `ThirtySecondsToAnswer`); after every second a
  class of parallel connections has at most one member on the core that checks it, and it has one exactly
  if some member had been heard of in time (`PoolRuns.OneMemberAfterSecond`).
- **A false expectation.** "Only one of the two cores closes duplicates" does not follow from the tie-break
  alone: the one-second timer keeps a pointer to its slot, and when the slot is closed and taken again
  within that second by a connection to a host with a bigger id, the core closes duplicates that are its
  peer's to close (`PoolRuns.StaleCheckCloses`, for all 32-byte ids). The exact condition, on the pool and
  the timers before the second: a connection that is heard of survives if and only if the first pending
  check that finds a timely member of its class is its own, or there is none (`PoolRuns.SurvivesIff`,
  `ForeignClosedIff`). A test before opening a slot, that no check from its earlier use is pending unless
  this core is the one that checks, therefore excludes it (`PoolRuns.OnlyTheCloserCloses`).
- **Databases and texts.** The identity file is a list of records, as long as each fits one read. The code
  does not test that when it saves: a saved identity loads if and only if its record and all before it are
  short enough, and the next removal or update loses every record from the first long one on
  (`IdentityFile.SavedIsLoadedIff`, `TooLongIsLost`). The write that should truncate the temporary file does
  nothing, so what a leftover one holds beyond the new length comes back (`IdentityStore.Store.RemoveUid`).
  Identities and the relay list survive saving and loading; the IPv4 parser accepts exactly the decimal
  texts, and the IPv6 parser exactly the spellings of addresses (`InetTexts.AcceptedIff`).

## Assumptions

- Cryptography is a record of functions with the laws of `SecureChannel.Lawful`: opening undoes sealing,
  a signature verifies under its key, both ends compute the same secret. `HonestCoresExist` shows that
  the laws are consistent. The theorem on authentication assumes no law at all.
- Two honest cores know each other's keys, their sends succeed whole, frames fit the ring buffer, and the
  server's handshake document has at most 256 bytes (the client's buffer, src/wish_connection.c:966).
  The surroundings of an end (randomness, documents, database) are the same during one connection.
- Sizes stay where C arithmetic on `int` does not overflow: documents of at most `INT_MAX / 3` bytes, and
  timers that do not reach 2^32 seconds.
- `IdentityRecord.PEEK` is `sizeof(wish_identity_t) + 100` with 64-bit pointers (src/wish_identity.c:169).
- The rewriting operations are called only where `BsonMemory.NextIsDefinedIff` says that they are defined.
- Paths in visitors are shorter than 128 bytes (src and key buffers, deps/bson/bson.c:3187-3193).
- The shared secret has its full 384 bytes; a shorter one closes the connection in the model.

## Model

| member | source | states |
|---|---|---|
| Utf8.ValidateString | deps/bson/encoding.c:47-160 | a string is accepted exactly when it is a run of legal UTF-8 sequences of the lengths their lead bytes announce; which error bits are set |
| Utf8.PiecesAreAccepted | deps/bson/encoding.c:119-150 | any concatenation of legal sequences is accepted |
| Utf8.SplitIsUnique | deps/bson/encoding.c:119-150 | an accepted string splits into legal sequences in exactly one way |
| Utf8.ScalarTextIsAccepted | deps/bson/encoding.c:70-102 | every text of Unicode scalar values in the encoding of section 3 of RFC 3629 is accepted |
| Utf8.PieceIsScalarOrKnownExtra | deps/bson/encoding.c:70-102 | a legal sequence is the encoding of a scalar value or of one of exactly two families that RFC 3629 excludes (ED A0..BF and F4 00..7F) |
| BsonTree.DecodingIsUnique | deps/bson/bson.c:544-617 | the bytes of a document, whatever follows them, determine the tree: the format is prefix-free |
| BsonTree.EncodeIsInjective | deps/bson/bson.c:544-617 | two well-formed documents with the same bytes are the same document |
| BsonTree.ValueSizeIsRight | deps/bson/bson.c:554-611 | the size computed from type and leading bytes is the length of the encoded value |
| BsonBuilder.Bson.EnsureSpace | deps/bson/bson.c:918-963 | growth keeps all bytes and succeeds unless an external buffer is full, which sets the size-overflow bit; the new size, and the move of a stack buffer to the heap |
| BsonBuilder.Bson.InitOnStack | deps/bson/bson.c:878-886 | an open document on the stack array if the wanted capacity is below its size, else on the heap |
| BsonBuilder.Bson.InitWithData | deps/bson/bson.c:2468-2473 | a finished document where it lies, with no flag that tells where |
| BsonBuilder.Bson.AppendEStart | deps/bson/bson.c:1062-1089 | type byte, key and terminator are written, or nothing: exactly when the document is open, has room and the key is UTF-8 |
| BsonBuilder.Bson.AppendFixed | deps/bson/bson.c:1095-1133 | a fixed-size value becomes exactly its grammar element |
| BsonBuilder.Bson.AppendBool | deps/bson/bson.c:1116-1121 | any non-zero int is stored as 1 |
| BsonBuilder.Bson.AppendStringBase | deps/bson/bson.c:1135-1149 | length, text and terminator, or nothing |
| BsonBuilder.Bson.AppendBinary | deps/bson/bson.c:1200-1207 | length, subtype 0 and the data, or nothing |
| BsonBuilder.Bson.AppendRegex | deps/bson/bson.c:1224-1242 | pattern and options as two C strings; a pattern that is not UTF-8 is refused after the header has been written |
| BsonBuilder.Bson.AppendCodeWithScope | deps/bson/bson.c:1180-1194 | total size, code with its length and terminator, and the scope document, or nothing; the code is not checked |
| BsonBuilder.Bson.AppendStart | deps/bson/bson.c:1291-1314 | header and four open bytes; the offset of the open length goes on the stack |
| BsonBuilder.Bson.AppendFinish | deps/bson/bson.c:1316-1327 | terminator, and the innermost open length is patched with the size since its start; nothing else changes |
| BsonBuilder.Bson.Finish | deps/bson/bson.c:1020-1032 | terminator and total length once; a second call changes nothing; refused after a UTF-8 error |
| BsonBuilder.ClosedIsEncoded | deps/bson/bson.c:1316-1327 | terminating and back-patching the bytes of the elements gives the canonical encoding of the nested document |
| BsonBuilder.BuildDoc | deps/bson/bson.c:918-1327 | the append, start and finish calls for a tree, regular expressions and code with scope included, leave exactly its element bytes behind what was there, with an unchanged stack |
| BsonBuilder.BuildDocument | deps/bson/bson.c:1020-1327 | for every tree nested at most 32 deep, of all value types that have an appender, and from a buffer of any initial size, the calls leave the canonical bytes, over any number of growths |
| BsonIterator.Iterator.Next | deps/bson/bson.c:544-617 | the cursor goes from element to element of the tree and reports each type |
| BsonIterator.Iterator.Key | deps/bson/bson.c:623-625 | the key of the element under the cursor |
| BsonIterator.Iterator.Value | deps/bson/bson.c:627-633 | offset and bytes of the value under the cursor |
| BsonIterator.Iterator.SubIterator | deps/bson/bson.c:846-848 | a cursor on the nested document |
| BsonIterator.FindFromBuffer | deps/bson/bson.c:380-396 | stops on the first top-level element with the key, on EOO exactly when there is none |
| BsonTree.FindKeyIsFirst | deps/bson/bson.c:380-396 | nothing before the element that is found has its key |
| BsonIterator.ReadDoc | deps/bson/bson.c:544-617 | walking the encoded bytes with iterators gives back the tree |
| BsonPath.FirstWithMeaning | deps/bson/bson.c:444-494 | what "first in pre-order with this path" means: it occurs there and nowhere before, or nowhere at all |
| BsonPath.SearchIsFirstInPreorder | deps/bson/bson.c:444-494 | the unpruned recursive search finds the first element in pre-order with the path |
| BsonPath.NothingBelow | deps/bson/bson.c:471-488 | below a path that is no prefix of the requested one there is nothing to find, so pruning loses nothing |
| BsonPath.FindImpl | deps/bson/bson.c:444-494 | the pruned search over the shared path stack equals the unpruned one and restores the stack |
| BsonPath.FindFieldPathValue | deps/bson/bson.c:496-529 | the result is the first element in pre-order with exactly this dotted path; EOO if and only if there is none |
| BsonCopy.CopyIsExactIff | deps/bson/bson.c:1528-1609 | which values the copier reproduces exactly: not DBREF and CODEWSCOPE, no text with an inner terminator, no binary with another subtype |
| BsonCopy.CopyDocIsExactIff | deps/bson/bson.c:1528-1609 | a document is copied unchanged if and only if all its values are such |
| BsonCopy.CopyIsNoLonger | deps/bson/bson.c:1528-1609 | a copy never takes more bytes than the original |
| BsonCopy.CopyKeepsContent | deps/bson/bson.c:1528-1609 | a copied value of any kind has the content of the original: text up to its end, data behind either header, truth |
| BsonCopy.CopyField | deps/bson/bson.c:1611-1614 | the copier appends exactly the bytes of the copied element |
| BsonCopy.CopyFields | deps/bson/bson.c:1470-1526 | the loop over a nested document appends the bytes of its copy |
| BsonVisit.RewrittenIsEdited | deps/bson/bson.c:398-442 | on documents the copier reproduces, the rewriting walk performs exactly the edit |
| BsonVisit.RemovedIsGone | deps/bson/bson.c:3309-3367 | no element is left at a removed path |
| BsonVisit.EditMisses | deps/bson/bson.c:3245-3367 | without an element at the path nothing changes |
| BsonVisit.EditKeepsOthers | deps/bson/bson.c:3245-3367 | every element that is neither at the edited path nor below it, siblings with a longer key included, keeps its key and value, up to the edit inside it |
| BsonItems.EditIsOfItems | deps/bson/bson.c:3245-3367 | on the list of all elements in pre-order, duplicates included, an edit takes out the entries at the path with all that is in them, or puts the new value there, and leaves every other entry as and where it is |
| BsonItems.ItemsAreInjective | deps/bson/bson.c:398-442 | the list determines the document |
| BsonVisit.ReplacedIsThere | deps/bson/bson.c:3245-3307 | an element at a replaced path keeps its key and has the new value |
| BsonVisit.EditIsIdempotent | deps/bson/bson.c:3245-3367 | removing or replacing a second time changes nothing |
| BsonVisit.AppendElement | deps/bson/bson.c:1244-1262 | the raw bytes of an element are appended under a key |
| BsonVisit.VisitFields | deps/bson/bson.c:398-437 | the walk with a remove, replace or keep visitor writes exactly the rewritten elements, balances the builder's stack and restores the path buffer |
| BsonPatch.UpdateLoopsObeyLaw | deps/bson/bson.c:3637-3702 | the two loops over the update compute the documented result: patched in place, then the new elements in order |
| BsonPatch.UpdatedByKey | deps/bson/bson.c:3637-3702 | key by key: null deletes, another value is set, a present "alias" and every other key stay |
| BsonPatch.UpdatedIsPlain | deps/bson/bson.c:3637-3702 | what makes a document updatable holds of the updated one again |
| BsonPatch.UntouchedStayInPlace | deps/bson/bson.c:3637-3702 | the elements whose keys are not in the update keep order and values |
| BsonPatch.PatchKeepsPlaces | deps/bson/bson.c:3637-3702 | what is there already stays in its place unless it is deleted |
| BsonPatch.NewComeBehind | deps/bson/bson.c:3637-3702 | what is new stands behind everything else, in the order of the update |
| BsonPatch.UpdateIsIdempotent | deps/bson/bson.c:3637-3702 | applying the same update twice equals applying it once |
| BsonUpdate.CopyWithState | deps/bson/bson.c:3450-3485 | the document and the flags of the temporary arrive in the own buffer, which grows if it is the library's; an external buffer that is too small refuses, with the overflow bit set; growing foreign memory without a flag is excluded |
| BsonUpdate.Copy | deps/bson/bson.c:146-153 | a finished copy of the document |
| BsonUpdate.RemovePath | deps/bson/bson.c:3610-3624 | the edited document is taken over, under the same condition |
| BsonUpdate.ReplaceElement | deps/bson/bson.c:3574-3608 | the same for a replaced value |
| BsonUpdate.InsertRootElement | deps/bson/bson.c:3545-3572 | the same with the element behind all others |
| BsonUpdate.HasKey | deps/bson/bson.c:3674-3700 | finds a key of the original exactly when it has one |
| BsonUpdate.Update | deps/bson/bson.c:3637-3702 | the updated document is taken over and can be updated again, unless an external buffer is too small and refuses; buffer and document afterwards are those of one step of the run of updates |
| BsonMemory.NextIsDefinedIff | deps/bson/bson.c:992-1008 | a takeover is defined if and only if the memory is the library's, a flag says that it is not, or the document fits |
| BsonMemory.BorrowedIff | deps/bson/bson.c:2468-2473 | takeovers into foreign memory without a flag are all defined if and only if every document fits |
| BsonMemory.ExternalIff | deps/bson/bson.c:3450-3489 | takeovers into a fixed buffer are all defined if and only if, once a document has fitted, all later ones fit |
| BsonMemory.OnStackIff | deps/bson/bson.c:3450-3489 | the same for a stack buffer: the first document does not fit and moves it to the heap, or all later ones fit |
| BsonMemory.ExternalUpdatesIff | deps/bson/bson.c:3637-3702 | a run of updates of a document in a fixed buffer is defined under exactly that condition on the sizes along the run |
| BsonMemory.FlagIsLost | deps/bson/bson.c:3476-3486 | the failing input: the first update fits a fixed buffer and the second does not |
| BsonMemory.FlagIsLostSomewhere | deps/bson/bson.c:3476-3486 | concrete documents and a buffer of 12 bytes for which this happens |
| BsonFields.ReadText | deps/bson/bson.c:768-776 | a string under the cursor as strncpy copies it; nothing for another type, since the callers ask for strings only |
| BsonFields.ReadBinary | deps/bson/bson.c:814-828 | the binary data under the cursor, nothing for another type |
| BsonValues.SimpleRoundTrip | deps/bson/bson.c:554-611 | numbers, dates, timestamps, ids and empty values are written in the sizes that the iterator expects, and read back as themselves |
| BsonValues.AppendInt | deps/bson/bson.c:1095-1100 | a 32-bit number in two's complement under its type, or nothing |
| BsonValues.AppendLong | deps/bson/bson.c:1102-1107 | the same with 64 bits |
| BsonValues.AppendDouble | deps/bson/bson.c:1109-1114 | the eight bytes of a double under its type, or nothing |
| BsonValues.AppendDate | deps/bson/bson.c:1281-1285 | milliseconds as a 64-bit number under the type of dates, or nothing |
| BsonValues.AppendTimestamp | deps/bson/bson.c:1264-1279 | increment, then time, or nothing |
| BsonValues.AppendOid | deps/bson/bson.c:1209-1214 | twelve bytes under the type of object ids, or nothing |
| BsonValues.ReadLong | deps/bson/bson.c:694-708 | integers of either size, dates and truth as a number |
| BsonValues.ReadTimestamp | deps/bson/bson.c:729-734 | increment and time under the cursor |
| BsonValues.DocumentsOnTheWire | deps/bson/bson.c:134-144 | the bytes of the empty document, and of one with a number |
| RingBuffer.Ring.Init | src/rb.c:18-25 | an empty queue over the given memory |
| RingBuffer.Ring.Length | src/rb.c:43-45 | the number of queued bytes |
| RingBuffer.Ring.Space | src/rb.c:47-49 | the room left |
| RingBuffer.Ring.Write | src/rb.c:51-65 | as many bytes as fit are queued behind the others, without leaving 16 bits |
| RingBuffer.Ring.Read | src/rb.c:67-83 | as many bytes as there are leave the queue in order, and nothing behind them is touched |
| RingBuffer.Ring.Skip | src/rb.c:85-98 | the same without a destination |
| RingBuffer.Ring.Peek | src/rb.c:100-114 | the same without leaving the queue |
| Nonce.ConvertBe | src/wish_connection.c:712-731 | the shift-and-add loop reads the four bytes most significant first |
| Nonce.ConvertBeInvolutive | src/wish_connection.c:712-731 | converting twice gives the number back |
| Nonce.UpdateNonce | src/wish_connection.c:734-757 | two 32-bit halves with a carry between them amount to one byte-wise increment; the first four IV bytes stay |
| Nonce.NextCounts | src/wish_connection.c:734-757 | the byte-wise increment adds one modulo 2^64 |
| Nonce.IvCounts | src/wish_connection.c:1352-1356 | k messages add k modulo 2^64 to the counter and leave the first four bytes of the IV |
| Nonce.IvNeverRepeats | src/wish_connection.c:1352-1356 | fewer than 2^64 messages on one direction never use an IV twice |
| Connection.Connection.Close | src/wish_connection.c:658-684 | the slot is zeroed and waits for a frame length |
| Connection.Connection.Allocate | src/wish_connection.c:52-91 | a free slot gets identities, an empty ring buffer and the initial states |
| Connection.Connection.SendMessage | src/wish_connection.c:1298-1363 | a sealed frame goes out and the out-counter moves, or neither |
| Connection.Connection.Decrypt | src/wish_connection.c:1366-1415 | against its specification: succeeds if the length fits and the tag agrees, and then moves the in-counter; a wrong tag leaves the protocol, a wrong length changes nothing |
| Connection.Connection.HandleClientDH | src/wish_connection.c:798-893 | the client's key exchange against its specification, error exits included |
| Connection.Connection.HandleClientVerify | src/wish_connection.c:896-960 | the client signs its hash and checks the server's signature |
| Connection.Connection.HandleClientHandshake | src/wish_connection.c:962-1012 | the client takes the server's document, answers and opens |
| Connection.Connection.HandleRunning | src/wish_connection.c:1013-1046 | an open connection hands up the decrypted message or closes |
| Connection.Connection.HandleServerDH | src/wish_connection.c:1047-1116 | the server derives the keys and signs its hash |
| Connection.Connection.HandleServerVerify | src/wish_connection.c:1117-1165 | the server checks the client's signature and falls through to its document |
| Connection.Connection.HandleServerHandshake | src/wish_connection.c:1167-1190 | the server's document goes out, or the state stays on a failed send |
| Connection.Connection.HandleServerReply | src/wish_connection.c:1191-1270 | the server takes the client's document and opens, or closes when banned |
| Connection.Connection.HandleHello | src/wish_connection.c:369-502 | against its specification: which 67-byte hellos are accepted, and the answer |
| Connection.Connection.ProcessData | src/wish_connection.c:315-533 | the `goto again' loop over the ring buffer ends and has exactly the effect of the specification's recursion |
| Connection.Connection.Feed | src/wish_connection.c:251-269 | input of any length is queued whole or the connection is closed |
| Connection.Connection.SignalTcpEvent | src/wish_connection.c:544-705 | the effect of each transport event |
| Chunking.DrainSplits | src/wish_connection.c:317-368 | processing, then processing again with more bytes, equals processing all bytes at once |
| Chunking.DrainSettles | src/wish_connection.c:331-368 | after processing no complete frame is left |
| Chunking.NeverFull | src/wish_connection.c:251-269 | while frames fit the ring, a waiting connection has room for more |
| Chunking.ChunksAreOneStream | src/wish_connection.c:251-368 | feeding a stream in chunks has the effect of the whole stream |
| Chunking.ChunkingDoesNotMatter | src/wish_connection.c:251-368 | any two ways of cutting a stream deliver the same and leave the same state |
| Chunking.FramesAreUnique | src/wish_connection.c:331-368 | the bytes of frames with 16-bit lengths determine the frames |
| Chunking.FramesComeBack | src/wish_connection.c:331-368 | encoded frames come back one by one and whole; only closing can cut the list short |
| Chunking.ProtocolFramesComeBack | src/wish_connection.c:331-1279 | so it is for the protocol itself, in any state and with any surroundings |
| Authentication.RunKeepsInvariant | src/wish_connection.c:796-1279 | what holds of every slot after any events with any input |
| Authentication.OpenMeansAuthenticated | src/wish_connection.c:896-1270 | under arbitrary input, an open connection that is no friend request has had the peer's signature over its own hash checked against the stored key of its remote user since its slot was allocated |
| Integrity.FrameLaw | src/wish_connection.c:796-1279 | one frame in any state with any surroundings: a frame whose last 16 bytes are not the tag of the others under the key and IV in force closes the slot and hands nothing up, and so does a ban; a frame that is taken is genuine and moves the in-counter by one; what is handed up is what it opens to |
| Integrity.RunObeysLaw | src/wish_connection.c:796-1415 | the same on the log of every run with any input: each forged frame and each ban is followed by the end of the connection, each message handed up by nothing but a genuine frame before it, and each genuine frame of an open connection is handed up |
| Integrity.InputFitsIff | src/wish_connection.c:251-269 | input is taken whole if and only if it fits the ring; otherwise the slot closes |
| Integrity.OverflowEnds | src/wish_connection.c:251-269 | after input that does not fit, nothing is taken or handed up in any run until the slot is allocated again |
| Transitions.FrameTable | src/wish_connection.c:796-1279 | for every state: exactly when a frame ends the connection, which state comes next, the host id that is learned, and exactly when an open connection or a friend request is reported |
| Transitions.ConnectedSays | src/wish_connection.c:548-577 | the bytes of a client's hello |
| Transitions.RelayedSays | src/wish_connection.c:503-523 | the bytes that name a relayed session, and then waiting for a hello |
| Transitions.EventsMean | src/wish_connection.c:578-705 | what the other transport events do to the slot |
| Transitions.AllocateMeans | src/wish_connection.c:52-91 | between whom a new slot is, with an empty ring |
| Admission.HelloIsAnsweredIff | src/wish_connection.c:303-502 | a complete hello is answered and the key exchange begun if and only if it starts with 'W', '.', version 1 and kind 1 or 3, and is a friend request or goes between a user of this core, with private key, and a known one; otherwise the slot closes; which ids and marks the slot then has |
| Admission.ServedMeansKnown | src/wish_connection.c:271-502 | in every run with any input, a normal connection that is served began with such a hello, and both ids and the private key were in the database when it came |
| SecureChannel.SecretGivesKeys | src/wish_connection.c:872-893 | one shared secret gives both ends the same keys, IVs and hashes, crosswise |
| SecureChannel.ClientTakes | src/wish_connection.c:798-1046 | an honest client takes every frame that the server sends next, and sends what the server needs |
| SecureChannel.ServerTakes | src/wish_connection.c:1047-1270 | the same for the server |
| SecureChannel.HonestCoresExist | src/wish_connection.c:796-1279 | the assumptions on cryptography, identities and documents are consistent |
| ChannelRuns.DrainFollows | src/wish_connection.c:317-368 | whatever part of the peer's stream an end holds, processing takes a number of its frames in order and answers each as due |
| ChannelRuns.RunIsSound | src/wish_connection.c:317-1363 | every interleaving of arrival, processing, sending and opening keeps both ends on the other's script |
| ChannelRuns.RunsStayInStep | src/wish_connection.c:796-1415 | in every state of every run nothing is closed, keys are crosswise equal, each out-counter is the peer's in-counter plus the number of frames on their way (bytes that are frames in one way only), and what was handed up is a prefix of what was sent |
| ChannelRuns.RestMeansComplete | src/wish_connection.c:317-1279 | a run that has come to rest has finished the handshake and delivered everything: no deadlock |
| ChannelRuns.EveryRunCanFinish | src/wish_connection.c:317-1279 | from every state, arrival and processing alone lead to an open connection with everything delivered |
| AppServer.AppConnection.Feed | port/unix/app_server.c:189-298 | the application's framing loop ends and equals its specification; what does not fit the ring is lost |
| AppServer.ChunksAreOneStream | port/unix/app_server.c:226-298 | behind the preamble, chunks that find room in the ring have the effect of the whole stream |
| AppServer.ChunkingDoesNotMatter | port/unix/app_server.c:226-298 | behind the preamble any two ways of cutting a stream whose chunks find room deliver the same and leave the same state |
| AppServer.ChunkingIff | port/unix/app_server.c:189-225 | from a fresh slot chunking makes no difference if and only if the stream fits the ring and starts with a known preamble or is shorter than six bytes, or the ring is smaller than a preamble |
| AppServer.FramesComeBack | port/unix/app_server.c:226-298 | whole documents in frames come back in order, each under the first service id that a document up to it has told, or the empty one; later ids are ignored; empty frames are skipped |
| AppServer.WrongLengthEnds | port/unix/app_server.c:276-283 | a document that disagrees with the length of its frame is not delivered, nor is anything behind it |
| AppServer.ClosingIsSilent | port/unix/app_server.c:292-296 | a connection that is ending delivers nothing, however much arrives |
| AppServer.PreambleMeans | port/unix/app_server.c:195-225 | what each three first bytes do |
| AppReads.DeliveredIffFits | port/unix/app_server.c:189-298 | from a fresh slot a stream of non-empty documents is delivered whole, in order and under the first service id told, if and only if every chunk finds room: a lost byte is fatal |
| AppReads.ReadsDeliverIff | port/unix/app_server.c:189-298 | however reads of up to m bytes cut the stream, every document comes out, if and only if next to each document that lacks one byte the ring has room for the read that brings it |
| TimerSweep.TimerList.SetTimer | src/wish_time.c:57-79 | a timer is appended with its due time |
| TimerSweep.TimerList.ReportPeriodic | src/wish_time.c:31-55 | the sweep with a saved successor, callbacks that append and removal of single-shot timers equals running over the old list alone |
| Timers.SweepIs | src/wish_time.c:43-54 | which timers fire and which are kept does not depend on the callbacks |
| Timers.FiresExactly | src/wish_time.c:43-54 | any timer of the list, also one that a callback set, fires once at each due time and at no other |
| Timers.GoneIsQuiet | src/wish_time.c:48-50 | a removed timer never fires again |
| Timers.TimersAreExact | src/wish_time.c:31-79 | a single-shot timer fires exactly once, its interval after it was set; a periodic one at every multiple of its interval |
| Pool.ExactlyOneCloser | src/wish_event.c:61-75 | of two cores with different host ids exactly one runs the check |
| Pool.LessMeans | src/wish_event.c:61-75 | the first byte that differs decides |
| Pool.ConnectionPool.Allocate | src/wish_connection.c:52-91 | the first free slot, none if there is none |
| Pool.ConnectionPool.CheckLiveliness | src/wish_connection_mgr.c:94-152 | the loop over the pool against its specification |
| Pool.ConnectionPool.CloseParallel | src/wish_connection_mgr.c:201-225 | the loop over the pool against its specification |
| Pool.CheckedSlots | src/wish_connection_mgr.c:94-152 | the check treats every slot by itself |
| Pool.ClosedSlots | src/wish_connection_mgr.c:207-224 | exactly the other connected members of the class are closed |
| Pool.CloseMeans | src/wish_connection_mgr.c:207-224 | the check closes another slot if and only if both are connected and local user, remote user and remote host are the same |
| Pool.CheckMeans | src/wish_connection_mgr.c:94-152 | slot by slot, in seconds: pinged once after more than 10 silent ones, closed after more than 40, in the making closed after more than 40, closing closed |
| Pool.CloseKeepsOne | src/wish_connection_mgr.c:201-225 | a check of parallel connections never empties a class |
| Pool.CheckedPings | src/wish_connection_mgr.c:103-121 | exactly the slots that need a ping get one |
| PoolRuns.NewCoreConnection | src/wish_event.c:42-76 | the open event connects the slot and sets the one-second check if the remote host id is smaller |
| PoolRuns.RunIsOk | src/wish_connection_mgr.c:94-225 | the invariant of pool and timers over every run |
| PoolRuns.LivenessBound | src/wish_connection_mgr.c:94-152 | at every moment of every run a slot in use has had input, or was taken, within 40 seconds |
| PoolRuns.OnePingBetweenInputs | src/wish_connection_mgr.c:103-121 | at most one ping between two inputs |
| PoolPings.PingedInTime | src/wish_connection_mgr.c:102-121 | after every second of every run each connection that has been silent for more than 10 seconds has been pinged exactly once since its last input |
| PoolPings.NotPingedEarly | src/wish_connection_mgr.c:102-121 | and none that has been heard of within 10 seconds has been |
| PoolPings.DropMeansPinged | src/wish_connection_mgr.c:102-126 | a connection is dropped for silence in its 41st second, and was pinged in an earlier one, unless it opened after the last full second |
| PoolPings.ThirtySecondsToAnswer | src/wish_connection_mgr.c:102-126 | a connection that was there at its eleventh silent second was pinged by then and is dropped 30 seconds later |
| PoolPings.OverdueIsJustOpened | src/wish_connection_mgr.c:102-121 | only a slot that opened after the last full second can be silent for more than 10 seconds without a ping |
| PoolPings.MakingIsGivenTime | src/wish_connection_mgr.c:127-145 | no second drops a connection in the making within 40 seconds of its last input |
| PoolRuns.ClosedForAReason | src/wish_connection_mgr.c:94-225 | a second closes a connection only after more than 40 silent seconds, and then with exactly one ping since its last input, or because the first pending check that finds a timely member of its class belongs to another one |
| PoolRuns.SurvivesIff | src/wish_connection_mgr.c:94-225 | in every run a connection survives a second if and only if it was heard of in time and the first pending check that finds a timely member of its class is its own, or there is none |
| PoolRuns.OneMemberUnchecked | src/wish_connection_mgr.c:201-225 | at most one connected member of a class lacks a pending check |
| PoolRuns.OneMemberAfterSecond | src/wish_connection_mgr.c:201-225 | after every second no check is pending and a class that the core checks has at most one member; it has one if and only if some member had been heard of in time, a dead duplicate or not |
| PoolRuns.ForeignClosedIff | src/wish_event.c:61-75 | a connection whose duplicates are the peer's to close, and which is heard of, is closed by this core if and only if that first check is another one's |
| PoolRuns.OnlyTheCloserCloses | src/wish_event.c:61-75 | if no slot opens while a check from its earlier use is pending, the core closes no connection whose duplicates are its peer's to close, while it is heard of |
| PoolRuns.StaleCheckCloses | src/wish_event.c:72-75 | without that condition it can: for every local host id with a smaller and a bigger one, a run in which the timer's pointer leads to the next user of the slot |
| IdentityRecord.ToBson | src/wish_identity.c:37-89 | the calls of the builder leave exactly the record's document |
| IdentityRecord.LoadRecord | src/wish_identity.c:364-458 | reading by key and by path gives what the record's tree holds |
| IdentityRecord.RecordRoundTrip | src/wish_identity.c:37-89 | loading a saved identity gives back uid, keys, presence of the private key, alias, every transport in its own slot, meta and permissions |
| IdentityRecord.LoadedIff | src/wish_identity.c:303-458 | a record loads if and only if it has a uid of 32 bytes, a public key, an alias, and no private key of another length than 64; documents that disagree with their length count as absent |
| IdentityRecord.TransportIsFound | src/wish_identity.c:415-424 | the path "transports.i" leads to the transport of slot i, and to nothing for an unused one |
| IdentityStore.Store.Count | src/wish_identity.c:160-226 | the number of records at most the maximum; -1 if a record within it is too long for one read |
| IdentityStore.Store.LoadUidList | src/wish_identity.c:235-300 | the uids of the first records in order; -1 for an empty list, or if a record among them is too long |
| IdentityStore.Store.Exists | src/wish_identity.c:470-529 | 1 exactly if a record of the uid comes before the first that is too long |
| IdentityStore.Store.Load | src/wish_identity.c:303-462 | the first such record, if it holds all that is needed |
| IdentityStore.Store.SaveBson | src/wish_identity.c:124-156 | the record goes to the end of the list |
| IdentityStore.Store.Save | src/wish_identity.c:91-156 | appends a record of any length, or refuses and changes nothing at the maximum |
| IdentityStore.Store.RemoveUid | src/wish_identity.c:766-848 | the records in front of the first that is too long, without the uid, 1 exactly if it was there; behind them the end of a longer leftover temporary file: the file is exactly that list if and only if the leftover is no longer |
| IdentityStore.Store.Update | src/wish_identity.c:872-966 | the same for the list with the records of the uid replaced |
| IdentityFile.WithoutMeans | src/wish_identity.c:766-848 | after removing, the uid is not there, every other uid loads as before, and all records left can be read |
| IdentityFile.OthersInOrder | src/wish_identity.c:766-848 | what is left are exactly the other records that scans see, in their order |
| IdentityFile.ReplacedMeans | src/wish_identity.c:872-966 | updating keeps number, order and uids of the records that scans see, and renews exactly those of the uid |
| IdentityFile.SavedIsLoadedIff | src/wish_identity.c:91-156 | a saved new identity loads as itself if and only if its record and all before it are short enough for one read; removing it undoes the saving |
| IdentityFile.UpdatedIsLoadedIff | src/wish_identity.c:872-966 | an updated identity loads as itself if and only if its new record is short enough, and then every other uid loads as before |
| IdentityFile.LargeMetaIsLong | src/wish_identity.c:169-197 | an identity with more meta data than one read has a record that is too long |
| IdentityFile.TooLongIsLost | src/wish_identity.c:806-834 | from a record that is too long on nothing is found, and removing or updating any identity rewrites the file as if these records had never been saved |
| IdentityFile.OverIsExactIff | src/wish_identity.c:777-782 | rewriting over a file that was not truncated leaves exactly the new bytes if and only if there were no more before |
| Inet.Pton4 | port/win32/helper.c:18-63 | the dotted parser equals its specification |
| Inet.DottedIff | port/win32/helper.c:18-63 | the text is accepted with this result if and only if it is the decimal text of these four octets, without leading zeroes |
| Inet.Pton6 | port/win32/helper.c:65-159 | the parser on its array equals its specification |
| Inet.ShiftTail | port/win32/helper.c:135-152 | the byte-by-byte shift of the tail, regions overlapping or not, equals a move with zeroes in between |
| Inet.FullForm | port/win32/helper.c:65-159 | eight groups of digits in either case are read as their bytes |
| Inet.CompressedForm | port/win32/helper.c:65-159 | "::" anywhere stands for the missing zero bytes, and is refused when none is missing |
| Inet.AddressRoundTrip | port/win32/helper.c:65-159 | every spelling of every address, in full or with "::" for any non-empty run of zero groups, is read as the address |
| Inet.DottedForm | port/win32/helper.c:65-159 | six groups and four octets, as in section 2.2 of RFC 4291, are read as their bytes |
| Inet.DottedRoundTrip | port/win32/helper.c:65-159 | every spelling with four octets at the end and "::" for any non-empty run of zero groups before them is read as the address |
| InetTexts.AcceptedIff | port/win32/helper.c:65-159 | a text is taken for an address if and only if it is one of its spellings: groups of 16 bits with any number of leading zeroes, at most one "::" for at least two bytes, possibly four octets at the end |
| InetTexts.NothingIsFilledIn | port/win32/helper.c:151-154 | without "::" only a text that stands for all 16 bytes is taken |
| Inet.SpellingExists | port/win32/helper.c:65-159 | every address has a spelling |
| Relay.DecimalRoundTrip | src/wish_utils.c:51-75 | printing a number and reading it with atoi gives it back |
| Relay.ServerRoundTrip | src/wish_utils.c:22-49 | the text "host:port" and the URL around it are both parsed to the same host and port |
| Relay.ParsedIff | src/wish_utils.c:22-75 | a text is parsed if and only if there is a last colon with a number behind it that is not zero in 16 bits; the host is what stands between the last slash and that colon |
| Relay.AtoiMeans | src/wish_utils.c:51-75 | what atoi reads: white space, one sign, digits, and nothing behind them |
| Relay.RelayDb.Add | src/wish_relay_client.c:110-139 | appends a server that parses and is not in the list yet |
| Relay.AddMeans | src/wish_relay_client.c:110-139 | a text adds exactly the server it is parsed to, behind the others, if host and port are not there together yet |
| Relay.ListHasNoDuplicates | src/wish_relay_client.c:110-139 | whatever is added in whatever order, no server is in the list twice |
| Config.Save | src/wish_config.c:110-150 | the file is the encoding of the configuration's document |
| Config.ConfigHolds | src/wish_config.c:110-150 | what the file holds under its keys, and what is not there |
| Config.Load | src/wish_config.c:27-108 | loading a saved configuration into an empty list gives the same servers in the same order |
| Config.NumberIsFound | src/wish_config.c:79-98 | the search for a printed number finds the entry of that number, and nothing behind the last |

## Left out

- BsonBuilder.Bson.EnsureSpace: the buffer is the sequence of written bytes with a capacity and the kind of its memory; pointers into a block that was left are not captured, and the limit at INT_MAX is out of reach of the documents considered.
- BsonBuilder.BuildDocument: strings, patterns and keys are legal UTF-8 (code with scope is not checked), and the value types are those with an appender, which DBREF has not; what a builder contains when the caller goes on after an error is not described.
- BsonIterator.Iterator.Next: stops of the source on type bytes outside the grammar are not modelled, because documents are well-formed.
- BsonPath.FindFieldPathValue: the option to stop at nested arrays (deps/bson/bson.c:513-542) is not modelled.
- BsonVisit.VisitFields: the append visitor runs with the empty path only, as the update uses it; nested insertion and removal by text are not modelled.
- BsonUpdate.CopyWithState: the write cursor, which afterwards points into the temporary and is not used on a finished document, is not modelled.
- BsonUpdate.Update: values that the copier does not reproduce are excluded by a precondition; `BsonCopy.CopyIsExactIff` says which they are.
- BsonValues.ReadLong: doubles are not converted to integers.
- Connection.Connection.Close: online and offline signals, RPC clean-up and the service list of a closing slot are not modelled.
- Connection.Connection.HandleClientDH: failures inside the cryptographic library other than an unreadable public value or no secret are not modelled; the server's unchecked return value when it reads the public value is part of the secret's computation.
- Connection.Connection.Allocate: the connection id is not part of the slot; the input timestamp is part of the pool's slots.
- Connection.Connection.HandleClientHandshake: stored transports and the connect mark of a banned peer are not updated.
- Connection.Connection.HandleServerReply: stored transports and connect marks are not updated.
- Connection.Connection.HandleHello: failures of memory and of the random source that close the connection are not modelled.
- Connection.Connection.SignalTcpEvent: the signals to listeners are not modelled.
- ChannelRuns.RunsStayInStep: friend requests, relayed connections and closing by the user are not part of these runs; applications send on open connections only.
- AppServer.AppConnection.Feed: reads are shorter than 65536 bytes, as the port's buffer makes them; the search for the service id and the length inside a payload are functions of the payload, since payloads need not be BSON.
- TimerSweep.TimerList.ReportPeriodic: the list is a sequence, so reuse of a freed list node is not captured; wrap-around of the 32-bit clock is excluded; the minute's check of connections in front of the sweep is not part of it.
- PoolRuns.NewCoreConnection: the clean-up of the identity's meta data and the peers request at the open event are not modelled.
- PoolRuns.LivenessBound: closing is immediate, as the Unix port does it (port/unix/app.c:242-262); the callbacks of other timers open slots, and do not close or feed them.
- PoolRuns.OneMemberAfterSecond: normal connections whose open event is handled before the slot is closed.
- IdentityStore.Store.RemoveUid: closing the connections of the removed identity (src/wish_identity.c:836-864) is not modelled here; errors of the file system are not modelled.
- IdentityStore.Store.Save: the case in which counting fails, and an array of length -1 is set up (src/wish_identity.c:92-93), is excluded by a precondition; a failing write and failing memory allocation are not modelled.
- IdentityRecord.LoadRecord: public keys of less than 32 bytes, behind which the source reads on, are excluded by a precondition.
- Relay.RelayDb.Add: texts with a slash behind the last colon, and texts of 64 bytes and more, are excluded by preconditions.
- Config.Load: only the relay list is modelled; the host id and the local discovery class are read independently of it.
- `wish_parse_transport_ip` and the URL handling around it (src/wish_utils.c:77-130) are not part of this model.
- Sockets, name resolution, local discovery, the RPC layer, access control, friend requests and the service registry would add mostly single-branch facts.
- Failing memory allocation and debug output.
- Code that is not compiled (`#if 0` in deps/bson/bson.c).
