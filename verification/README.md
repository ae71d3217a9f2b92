# Verification of the moDb client ring and load harness

A Dafny model of the parts of the moDb repository that other parts rely on without checking, and
proofs of what they rely on. `dafny verify dfyconfig.toml` checks everything.

## What is modelled

- **Native protocol client** (`clients/python/modb_client.py`). The shared-memory ring is a state
  machine of micro-steps (`RingProtocol`): each load or store of a position, each marker byte and
  each frame byte is a step, and producer and consumer interleave in any order, each with a stale
  copy of the other's position. `RingBuffer` is the same code as an object over an array, and
  `RingRefinement` proves that its calls are runs of those micro-steps. `Values`, `ValueDecoder` and
  `ValueProofs` are the `Value` format, `Frames` and `FrameStream` the framing over a socket that
  splits the stream anywhere.
- **JSON and the crash-safe campaign log** (`benchmarks/runner/json_util.hpp`,
  `loadtests/json_value.cpp`, `benchmarks/runner/jsonl_writer.cpp`, `loadtests/campaign.cpp`). `Json` holds
  the printer and the parser as functions of text and position, `JsonParser` the parser object,
  `JsonGrammar` and `JsonAccepted` what it accepts and nothing else, `JsonRoundTrip` and `JsonTorn` the two
  laws that the log needs. `JsonlWriter` is the line writer over a disk whose writes may fail
  half-way, `CampaignLog` the records, `CampaignRun` the emission,
  `CampaignWorkloads` what the wrappers in `loadtests/workloads` return to it, `CampaignTotals` what the
  last line says, `CampaignScan`, `CampaignText` and `CampaignResume` the scan of an interrupted file,
  `CampaignContinued` the resume to the end, and `CaseRestored` the case that comes back from a record.
- **Workloads** (`loadtests/target_embedded.cpp`). `MixedOltp` is the bookkeeping of concurrent sessions
  under a mutex, `Hierarchy` the recursive batched construction of an ownership tree, `DeleteOrder`
  the strided delete order.
- **SHA-256** (`benchmarks/runner/sha256.cpp`). `Sha256Standard` is FIPS 180-4, with its constants
  derived in `Sha256Constants`, and `Sha256Code` the in-place code, proved equal to it.
- **Labels** (`loadtests/matrix.cpp`, `loadtests/dataset_user.cpp`). `CaseId`, `CaseIdInjective` and
  `CaseIdParser` are the case ids, `SplitMix64` the number generator, `UserDataset` the synthetic users
  and their canonical text.

Each component is proved in two layers: methods and classes in the code's own form are tied by
their `ensures` to functions, and the laws are lemmas about these functions. Inputs that the code
takes from outside (schedules, which engine call or write fails, what a workload reports, what the
socket delivers) are parameters or free choices, so that every result holds for all of them.

## What the proofs found

- A frame whose rounded length is more than half of the ring plus 4 bytes passes the size check of
  `try_write`, and yet an empty ring can refuse it for ever (`RingProgress`).
- `case_id` can be the same for two different accepted cases when a payload name holds an underscore.
- `parse_case_id` accepts a plain id with a dot at its end and loses the dot.
- `resume` goes on only when the interrupted case is the last one of the plan. An interruption in any
  earlier case leaves a position without `case_start`, and the resume stops there.
- `case_start` does not record `reads_per_write`: a resumed case runs with 10, under another label.
  A checkpoint interval of 0 comes back as 64.

Where comments in the code and its behaviour differ, the code is what is modelled.

## Model

| member | source | states |
|---|---|---|
| RingProtocol.RingIsSafe | clients/python/modb_client.py:270-306 | for every schedule of micro-steps of producer and consumer the popped frames are, byte for byte and in order, a prefix of the published ones, and "corrupt shared-memory ring" is never raised |
| RingProtocol.LiveBytesAreNeverOverwritten | clients/python/modb_client.py:276-286 | in every reachable state, no store of the producer (marker or frame byte) hits the place of a byte between head and tail |
| RingProtocol.LiveBytesStay | clients/python/modb_client.py:270-306 | no step of either side changes a byte between head and tail |
| RingProtocol.ViewIsStable | clients/python/modb_client.py:301-306 | while the consumer copies a view, the view is the oldest frame not yet popped, whatever the producer does |
| RingProtocol.StepKeepsInv | clients/python/modb_client.py:270-306 | every micro-step, whichever side takes it, keeps the invariant: from head to tail lie exactly the live frames, and each side's stale copy still covers what it relies on |
| RingProtocol.RunKeepsInv | clients/python/modb_client.py:270-306 | so does every run |
| RingProtocol.InitInv | clients/python/modb_client.py:260-268 | the ring starts in the invariant, empty, at any aligned position |
| RingProtocol.Publish | clients/python/modb_client.py:285-286 | storing tail after the bytes appends exactly that frame to what a reader sees |
| RingProtocol.Take | clients/python/modb_client.py:304-306 | moving head past a frame removes exactly the first frame from what a reader sees |
| RingLayout.OffIsRemainder | clients/python/modb_client.py:275 | the offset the model computes is position modulo size |
| RingLayout.HeldFrameIsNoMarker | clients/python/modb_client.py:293-294 | a stored frame never reads as a padding marker |
| RingLayout.SkipMarker | clients/python/modb_client.py:293-296 | after one marker is skipped the same frames remain and no marker is at the front |
| RingProgress.EmptyRingAcceptsExactly | clients/python/modb_client.py:271-280 | an empty ring takes a frame at every aligned offset exactly when twice its rounded length is at most the ring size plus 8 |
| RingProgress.AboveTheBoundSomeOffsetRefusesForEver | clients/python/modb_client.py:271-280 | above the bound, although the frame is no longer than the ring and passes the size check, a reachable empty ring refuses it in every continuation, so that the loop of the caller never ends |
| RingProgress.UpToTheBoundEveryOffsetAccepts | clients/python/modb_client.py:271-286 | up to the bound every empty ring publishes the frame by steps of the producer alone, as many as StoreSteps says, with no step of the consumer |
| RingRefinement.WriteIsItsSteps | clients/python/modb_client.py:270-286 | a whole call of try_write is the offer and a known number of producer steps with no consumer step between: none after a refusal by size, three when the ring is full, and all the stores when it fits; the state reached is the one the call leaves |
| RingRefinement.ReadIsItsSteps | clients/python/modb_client.py:288-306 | peek, the copy and pop together are a known number of consumer steps with no producer step between: past at most one marker the oldest frame is taken |
| RingRefinement.EmptyReadIsItsSteps | clients/python/modb_client.py:288-302 | on an empty ring peek is three consumer steps, after which nothing has changed |
| RingRefinement.PublishedExactly | clients/python/modb_client.py:270-286 | with no step of the consumer the producer publishes sooner or later exactly when there are so many free bytes in a row |
| RingRefinement.RaisesExactly | clients/python/modb_client.py:271-273 | the call is turned away at the size check exactly when the frame is longer than the ring |
| RingRefinement.EmptyRingAtByteZeroTakesAll | clients/python/modb_client.py:271-286 | an empty ring that stands at byte 0 takes every frame no longer than itself |
| RingRefinement.CorruptExactly | clients/python/modb_client.py:297-299 | for any bytes in the ring the micro-steps of the consumer end in "corrupt shared-memory ring" exactly when the length field announces no frame before tail and the end |
| RingBuffer.Ring.TryWrite | clients/python/modb_client.py:270-286 | raises exactly for a frame longer than the ring, and writes exactly when that many bytes in a row are free; which outcome, the new tail, and every byte of the mapping; a frame that goes in stands behind the contents, and a refusal leaves them |
| RingBuffer.VerdictExactly | clients/python/modb_client.py:270-280 | the size checks in terms of the mapping alone: too long exactly when longer than the ring, room exactly when somewhere at or past tail so many bytes in a row meet neither the end of the ring nor a live byte |
| RingBuffer.Ring.Peek | clients/python/modb_client.py:288-302 | under the invariant it shows the first frame past at most one marker, which is what the next pop takes out; and for any bytes, where no marker stands at head, it raises exactly when the length field announces no frame before tail and the end of the ring |
| RingBuffer.Ring.Pop | clients/python/modb_client.py:304-306 | after a peek the frame that was shown is taken out of the front and the others stay; without one nothing changes |
| RingBuffer.WriteAppends | clients/python/modb_client.py:276-286 | with room, the bytes written make the frame the last of what a reader sees, at any wrap |
| RingBuffer.PeekSees | clients/python/modb_client.py:288-302 | what peek finds at head is nothing exactly when the ring is empty, else the first frame, passing all four corruption checks |
| RingBuffer.PopRemovesTheFirst | clients/python/modb_client.py:304-306 | pop after peek leaves exactly the other frames |
| ValueProofs.DecodeUndoesEncodeExactly | clients/python/modb_client.py:89-178 | for every encodable value with distinct keys, decoding its encoding gives it back if it is nested at most 64 levels, and "nested too deeply" otherwise |
| ValueProofs.DecodesWhateverFollows | clients/python/modb_client.py:129-167 | the decoder reads an encoding the same whatever bytes follow it, and stops right behind it |
| ValueProofs.EncodingsArePrefixFree | clients/python/modb_client.py:89-120 | no encoding is a prefix of the encoding of another value, at any depth of nesting |
| ValueProofs.OneTree | clients/python/modb_client.py:129-167 | at one position of a buffer at most one tree of the wire format is spelled, at any depth and whatever follows |
| ValueProofs.AcceptedOnly | clients/python/modb_client.py:129-178 | whatever non-empty buffer is accepted is version byte and the spelling of one tree, all of it: every length and count lies within the buffer, although slicing truncates silently |
| ValueProofs.AcceptedExactly | clients/python/modb_client.py:129-178 | the spelling of any tree is accepted with its meaning up to depth 64, and refused as too deep beyond |
| ValueProofs.DecodedExactly | clients/python/modb_client.py:170-178 | no bytes are None; any other buffer is accepted exactly when it is the version byte and one tree of at most 64 levels, as what that tree means |
| ValueProofs.OtherVersionIsRefused | clients/python/modb_client.py:173-174 | a buffer of another version is refused as such, whatever follows |
| ValueProofs.DecodedIsEncodable | clients/python/modb_client.py:89-178 | whatever is decoded can be encoded again: the numbers, lengths and counts fit |
| ValueProofs.NoAcceptedPrefix | clients/python/modb_client.py:170-178 | no accepted buffer has an accepted non-empty proper prefix |
| ValueProofs.WhatIsDecodedWasSpelled | clients/python/modb_client.py:129-167 | a value decoded inside any buffer was spelled there, between the two positions, up to the truncation at the end |
| ValueProofs.TreeIsDecoded | clients/python/modb_client.py:129-167 | a spelled tree is decoded to its meaning at any depth at which it still fits |
| ValueProofs.DeepTreeIsRefused | clients/python/modb_client.py:129-131 | a tree that is nested too deeply is refused as such, not for another reason |
| ValueDecoder.Dec | clients/python/modb_client.py:129-167 | the position moves forward on every success |
| Values.EncodeInto | clients/python/modb_client.py:89-120 | the recursive encoder appends exactly the encoding of the value to the buffer |
| Values.EncodeItems | clients/python/modb_client.py:107-111 | its loop over a list appends the encodings of the items in order |
| Values.EncodeEntries | clients/python/modb_client.py:112-118 | its loop over a dict appends key and value of every entry in order |
| Bytes.FromLeOfLe | clients/python/modb_client.py:96-117 | unpacking undoes little-endian packing of every number that fits |
| Bytes.LeOfFromLe | clients/python/modb_client.py:139-161 | packing undoes unpacking |
| Frames.FrameIsWellFormed | clients/python/modb_client.py:190-191 | a frame carries its own length and type within the limit |
| FrameStream.WholeStream | clients/python/modb_client.py:190-191 | receiving the concatenated frames of any messages returns exactly those messages |
| FrameStream.BrokenStream | clients/python/modb_client.py:382-397 | when the connection breaks anywhere, the receiver has taken exactly the messages that were sent whole, and then reports a closed connection |
| FrameStream.CutFrameIsNotTaken | clients/python/modb_client.py:382-397 | no proper prefix of a frame is taken for a message |
| FrameStream.LengthDecides | clients/python/modb_client.py:392-397 | a length of 0 or above 16 MiB is refused at once, and any other is waited for and taken in full |
| FrameStream.ReceiveAll | clients/python/modb_client.py:392-397 | repeated receiving gives the messages of the byte stream, however the socket splits it, and the failure that ends them |
| FrameStream.Socket.RecvExact | clients/python/modb_client.py:382-390 | exactly the next n bytes however recv splits them, or failure exactly when fewer will come, with the stream used up |
| FrameStream.Socket.RecvFrame | clients/python/modb_client.py:392-397 | one frame off the stream, or one of the two failures, and what is left to come in each case |
| JsonTorn.NoProperPrefixIsAccepted | loadtests/json_value.cpp:15-31 | of a text that parses as an object and ends in its brace, no proper prefix parses as anything |
| JsonTorn.CutIsRecordExactly | loadtests/json_value.cpp:15-31 | a cut of such a text parses exactly when it keeps the closing brace, and then to the same object |
| JsonTorn.ValueExtends | loadtests/json_value.cpp:70-286 | a value that parses in a text and is no number at its end parses the same in every longer text |
| JsonTorn.ValueShrinks | loadtests/json_value.cpp:70-286 | the parser reads nothing behind the value it returns |
| JsonGrammar.EveryDocumentIsAccepted | loadtests/json_value.cpp:15-286 | every document of the JSON grammar is read as what it means: with any runs of space, tab, newline and carriage return around its tokens, every spelling of its strings, and any nesting |
| JsonAccepted.AcceptedExactly | loadtests/json_value.cpp:15-286 | a text is accepted exactly when it is a document of that grammar with white space around it: nothing else is skipped or taken |
| JsonAccepted.AcceptedWasSpelled | loadtests/json_value.cpp:15-286 | and what is returned is what that document means |
| JsonGrammar.SkippedExactly | loadtests/json_value.cpp:55-59 | white space is exactly the four characters of section 2 of RFC 8259, and a run is skipped to its end |
| JsonGrammar.UnicodeIsUtf8 | loadtests/json_value.cpp:217-226 | the bytes of a \u escape are those of its code in section 3 of RFC 3629, in the fewest bytes |
| JsonRoundTrip.ParsingUndoesPrinting | benchmarks/runner/json_util.hpp:15-79 | for every tree of strings, booleans, null, number tokens, arrays and ordered objects, parsing the compact print returns the tree |
| JsonRoundTrip.PrintingIsInjective | benchmarks/runner/json_util.hpp:15-79 | different trees print differently |
| JsonRoundTrip.ValueIsRead | loadtests/json_value.cpp:70-90 | a printed value is read back wherever it stands, unless a number runs on |
| JsonRoundTrip.EscapedIsRead | loadtests/json_value.cpp:173-238 | every escaped string is read back, control characters through \u00XX (section 7 of RFC 8259) |
| JsonRoundTrip.DecimalIsToken | benchmarks/runner/json_util.hpp:69-71 | unsigned integers print as number tokens |
| Json.JsonString | benchmarks/runner/json_util.hpp:15-56 | the loop produces the quoted and escaped text |
| JsonParser.Parser.Parse | loadtests/json_value.cpp:15-31 | the parser object gives the same value, or the same first error at the same line and column, as the parse function |
| JsonParser.Parser.ReadValue | loadtests/json_value.cpp:70-90 | dispatch on the first character, position and error included |
| JsonParser.Parser.ReadObject | loadtests/json_value.cpp:92-135 | the member loop, position and error included |
| JsonParser.Parser.ReadArray | loadtests/json_value.cpp:137-171 | the item loop, position and error included |
| JsonParser.Parser.ReadString | loadtests/json_value.cpp:173-238 | the string loop with its escapes |
| JsonParser.Parser.ReadNumber | loadtests/json_value.cpp:270-286 | takes the run of number characters as a token, as the code does before strtod |
| JsonParser.Parser.SkipWs | loadtests/json_value.cpp:55-59 | skips exactly a run of space, tab, newline and carriage return, to its end |
| JsonParser.PlaceBehindNewline | loadtests/json_value.cpp:41-53 | behind a newline the column of an error starts anew, one line further |
| JsonParser.PlaceOnFirstLine | loadtests/json_value.cpp:41-53 | and on the first line it is counted from 1 |
| MixedOltp.BooksAreKept | loadtests/target_embedded.cpp:1374-1519 | for any number of sessions and any order of locked sections: live ids are distinct and in bijection with the logical ids that have an expected value, the engine holds exactly the expected values, and no lookup ever throws |
| MixedOltp.SectionKeepsInv | loadtests/target_embedded.cpp:1423-1513 | each locked section keeps that, whichever engine call fails in it |
| MixedOltp.RunKeepsInv | loadtests/target_embedded.cpp:1393-1519 | so does every sequence of sections |
| MixedOltp.SectionHasEffect | loadtests/target_embedded.cpp:1397-1513 | what one section does, field by field: which draw makes which class, the one row and expected value that an update changes, what a create adds and a remove takes out, and that a failed call or a read changes no row |
| MixedOltp.InitialInv | loadtests/target_embedded.cpp:1545-1553 | the state handed to the sessions satisfies it |
| MixedOltp.InitialHolds | loadtests/target_embedded.cpp:1545-1553 | at the start the i-th id holds the user with logical id i + 1, in the engine and as expected |
| MixedOltp.CountsReconcile | loadtests/target_embedded.cpp:1591-1599 | after any run the number of rows, of live ids, and created minus deleted are equal |
| MixedOltp.EverySectionIsCounted | loadtests/target_embedded.cpp:1508-1509 | the class counters add up to the number of operations |
| MixedOltp.SwapRemoveTakesOneOut | loadtests/target_embedded.cpp:1502-1503 | swap-remove takes exactly the chosen id out and keeps the others distinct |
| MixedOltp.State.Operate | loadtests/target_embedded.cpp:1423-1513 | the object in place: every field after one section, which is the effect of its draw |
| MixedOltp.State.OperateRemove | loadtests/target_embedded.cpp:1488-1505 | the remove branch, with its two map lookups |
| MixedOltp.State.Operations | loadtests/target_embedded.cpp:1400-1518 | the sections of all sessions, in the order of the mutex |
| MixedOltp.State.Reconcile | loadtests/target_embedded.cpp:1591-1647 | finds a mismatch exactly when the counts differ or one of the sampled values does not read back; under the invariant it finds none |
| Hierarchy.Builder.BuildSubtree | loadtests/target_embedded.cpp:2331-2374 | for every depth, width and batch: earlier nodes stay, references point to earlier nodes, and the new nodes are one whole tree with the given next sibling, counted, numbered without a gap, unless an engine call failed, and only then there is no result |
| Hierarchy.Builder.BuildChildren | loadtests/target_embedded.cpp:2336-2350 | the loop builds the siblings from the last to the first, as one forest, and stops early exactly when an engine call failed |
| Hierarchy.Builder.CreateNode | loadtests/target_embedded.cpp:2352-2373 | one node on top of its children, and a commit when the batch is full; no node exactly when an engine call failed |
| Hierarchy.Builder.CommitWhenFull | loadtests/target_embedded.cpp:2362-2372 | between two nodes the open batch is never full, and each commit makes one full batch durable; it gives up exactly when the commit or the next begin failed |
| Hierarchy.Builder.CreateHierarchy | loadtests/target_embedded.cpp:2415-2438 | all of the tree is durable and the count is 1 + w + … + w^d: one commit after each full batch of the size asked for and one for the rest, or a single one when no size is given; unless an engine call failed, and only then there is no result |
| Hierarchy.BatchesAreMultiples | loadtests/target_embedded.cpp:2362-2372 | after n nodes there has been one commit at each multiple of the batch up to n, and no other |
| Hierarchy.SizeIsGeometric | loadtests/target_embedded.cpp:2331-2374 | a tree of depth d and width w has exactly 1 + w + … + w^d nodes |
| Hierarchy.EveryNodeHasOneOwner | loadtests/target_embedded.cpp:2293-2302 | every node but the root is referenced exactly once in the tree, the root never |
| Hierarchy.EveryNodeIsReachedOnce | loadtests/target_embedded.cpp:2293-2302 | following first child and next sibling from the root meets every node exactly once |
| Hierarchy.EveryPrefixIsClosed | loadtests/target_embedded.cpp:2322-2330 | wherever a commit falls, every reference of a durable node is to a durable node |
| DeleteOrder.ReorderForDelete | loadtests/target_embedded.cpp:591-607 | the three orders: unchanged, mirrored, and the interleaved one by nested loops, as a selection of positions |
| DeleteOrder.EachPositionOnce | loadtests/target_embedded.cpp:591-607 | in each order, for every length and every stride from 1, every position comes exactly once |
| DeleteOrder.DeleteOrderIsPermutation | loadtests/target_embedded.cpp:591-607 | so the delete order is a permutation of the ids |
| DeleteOrder.SweepsRise | loadtests/target_embedded.cpp:599-605 | the interleaved order rises by residue, then by position: one whole sweep after the other |
| Sha256Code.ComputeSha256 | benchmarks/runner/sha256.cpp:78-118 | for every message of fewer than 2^61 bytes the digest is the one of sections 5.1.1, 5.2.1 and 6.2.2 of FIPS 180-4 |
| Sha256Code.LastBlocks | benchmarks/runner/sha256.cpp:93-108 | rest of the message, 1 bit, zeros and length end as the padded message, in one block or two, whatever the buffer held |
| Sha256Code.TailIsPadding | benchmarks/runner/sha256.cpp:93-108 | the two cases of the tail together are the padding of section 5.1.1 |
| Sha256Code.WholeBlocks | benchmarks/runner/sha256.cpp:87-91 | the loop hashes exactly the whole blocks |
| Sha256Code.Transform | benchmarks/runner/sha256.cpp:13-74 | one block: the registers and the state in place are steps 1 to 4 of section 6.2.2 |
| Sha256Code.Schedule | benchmarks/runner/sha256.cpp:27-38 | the 64 words are the message schedule |
| Sha256Code.PutLength | benchmarks/runner/sha256.cpp:104-107 | the last eight bytes are the length in bits, most significant first, and the other 56 stay |
| Sha256Standard.PaddingIsSmallest | benchmarks/runner/sha256.cpp:93-102 | the number of zero bits is the smallest that section 5.1.1 allows |
| Sha256Standard.BigEndianExpresses | benchmarks/runner/sha256.cpp:104-107 | the eight bytes express the length |
| Sha256Constants.ConstantsAreDerived | benchmarks/runner/sha256.cpp:14-25 | each of the 64 constants is the fraction of the cube root of the next prime, as section 4.2.2 of FIPS 180-4 has it |
| Sha256Constants.InitialIsDerived | benchmarks/runner/sha256.cpp:79-80 | and each initial word that of the square root of one of the first eight |
| Sha256Constants.PrimesAreTheFirst | benchmarks/runner/sha256.cpp:14-25 | the primes of that table are the first 64: up to the t-th, a number is prime exactly when it is one of them |
| Sha256Code.DigestOf | benchmarks/runner/sha256.cpp:110-117 | the digest is the state, each word most significant byte first |
| Sha256Code.Sha256Hex | benchmarks/runner/sha256.cpp:124-132 | the text is two hexadecimal digits a byte |
| Sha256Code.HexIsInjective | benchmarks/runner/sha256.cpp:124-132 | two digests with one text are the same |
| CaseIdInjective.CaseIdIsInjectiveExactly | loadtests/matrix.cpp:157-258 | two accepted cases with one case_id agree in every dimension exactly when their payload names hold equally many underscores |
| CaseIdInjective.PlainPayloadsAreSafe | loadtests/matrix.cpp:157-258 | without underscores in payload names one case_id is one point of the matrix |
| CaseIdInjective.UnderscoreConfusesTwoCases | loadtests/matrix.cpp:157-258 | the property fails otherwise: payload x_batch5, and payload x with batch 5, are both accepted and share an id |
| CaseIdInjective.TokensTellTheCase | loadtests/matrix.cpp:161-193 | the parts between underscores tell every dimension |
| CaseId.SameIdSameSuffix | loadtests/matrix.cpp:157-199 | equal ids have equal workload, target, scale and suffix |
| CaseId.AcceptedExactly | loadtests/matrix.cpp:201-258 | a case is accepted exactly when its id promises nothing that the harness does not do |
| CaseId.NoSuffixExactly | loadtests/matrix.cpp:157-199 | an id has no suffix exactly when every dimension that it could show is at its default |
| CaseId.PrintId | loadtests/matrix.cpp:157-199 | case_id builds the printed form part by part |
| CaseId.CollectParts | loadtests/matrix.cpp:161-186 | the parts that are not at their default, in the order of the code |
| CaseId.JoinParts | loadtests/matrix.cpp:187-192 | the loop joins them with underscores |
| Separated.SplitOfJoin | loadtests/matrix.cpp:33-46 | splitting a joined text gives the parts back if no part holds the separator |
| Separated.JoinOfSplit | loadtests/matrix.cpp:33-46 | joining a split text gives the text back |
| CaseIdParser.SplitDot | loadtests/matrix.cpp:33-46 | the loop over the dots is that split |
| CaseIdParser.ParseCaseId | loadtests/matrix.cpp:260-300 | parse_case_id with its four errors, the variant put together again by a loop |
| CaseIdParser.ReprintsExactly | loadtests/matrix.cpp:260-300 | an accepted id prints as it was given exactly unless it has five parts of which the last is empty |
| CaseIdParser.ATrailingDotIsLost | loadtests/matrix.cpp:288-298 | the failing family: a plain id with a dot at its end is accepted and loses the dot |
| CaseIdParser.ParsesPrintedId | loadtests/matrix.cpp:157-300 | parsing the id of a known case keeps its three names and its suffix, which the filter accepts exactly when it is empty |
| UserDataset.StreamIsInjective | loadtests/target_embedded.cpp:356-358 | two sequences of users whose texts hold no bar and no newline give one canonical stream only if they are equal |
| UserDataset.LineIsInjective | loadtests/dataset_user.cpp:75-83 | and two users one line only if they are the same user, filler bytes included |
| UserDataset.GeneratedIsClean | loadtests/dataset_user.cpp:37-68 | every generated user meets the condition and has as many filler bytes as asked |
| UserDataset.GenerateUser | loadtests/dataset_user.cpp:37-68 | the generator with its loops is a function of seed, index, size and status |
| UserDataset.GenerateName | loadtests/dataset_user.cpp:47-56 | two to four syllables, drawn one by one, the first letter raised |
| UserDataset.GenerateFiller | loadtests/dataset_user.cpp:58-65 | eight bytes from each number until the size is reached, no byte more |
| UserDataset.FillerAt | loadtests/dataset_user.cpp:58-65 | byte k of the filler is byte k mod 8 of the number k / 8 + 1 |
| UserDataset.UsersDiffer | loadtests/dataset_user.cpp:37-68 | users with different indices differ in id, login and email, in one dataset and across datasets, and are created 37 seconds apart from index to index |
| SplitMix64.XorIsBitwise | loadtests/dataset_user.cpp:15-17 | the exclusive or of the generator is the bitwise one: a bit is set exactly when it is set in one of the two numbers |
| SplitMix64.MixIsInjective | loadtests/dataset_user.cpp:12-18 | shifts, exclusive ors and multiplications modulo 2^64 lose nothing: two 64-bit states never give one number |
| SplitMix64.DrawsNeverRepeat | loadtests/dataset_user.cpp:12-18 | from any seed no number comes twice within 2^64 draws |
| UserDataset.CanonicalLine | loadtests/dataset_user.cpp:75-83 | the seven fields and the bytes, in order |
| JsonlWriter.Writer.Open | benchmarks/runner/jsonl_writer.cpp:14-34 | refuses a taken final name and changes nothing then; else starts an empty partial file |
| JsonlWriter.Writer.WriteLine | benchmarks/runner/jsonl_writer.cpp:36-50 | on success the partial file is the buffer with the line and its newline; on failure any beginning of that line may be in the file, and nothing else changes |
| JsonlWriter.Writer.Finish | benchmarks/runner/jsonl_writer.cpp:52-65 | the final name gets exactly the bytes of the partial file, which disappears, or nothing changes |
| JsonlWriter.Writer.ContentSha256Hex | benchmarks/runner/jsonl_writer.cpp:75-77 | the SHA-256 text of all complete lines |
| CampaignRun.RunCampaign | loadtests/campaign.cpp:715-860 | the final name appears only with the whole log in it, run_end last; the run stops before exactly when the name is taken or an open, write or rename failed, and then the partial file is that log cut at some byte |
| CampaignRun.WriteLog | loadtests/campaign.cpp:730-849 | the lines from run_start to run_end with the sequence numbers 1, 2, 3, … |
| CampaignRun.Recorder.RunCase | loadtests/campaign.cpp:274-477 | the lines of one case, and its counter |
| CampaignRun.Recorder.RunImplemented | loadtests/campaign.cpp:331-477 | windows, counter, phases and verdict of a case whose workload has a dispatch |
| CampaignRun.Recorder.RunCases | loadtests/campaign.cpp:798-829 | the loop over the plan |
| CampaignRun.Recorder.EmitWindows | loadtests/campaign.cpp:332-359 | one progress_window line each, as it closes |
| CampaignRun.Recorder.EmitPhases | loadtests/campaign.cpp:406-435 | phase_start, phase_summary and stage_profile of every phase |
| CampaignRun.Recorder.Emit | loadtests/campaign.cpp:721-728 | one line with the next sequence number, or a file cut somewhere in the planned one |
| CampaignRun.Recorder.End | loadtests/campaign.cpp:835-849 | run_end with the hash of what was written |
| CampaignLog.TallyCountsEveryCase | loadtests/campaign.cpp:798-829 | the four counters sum to the number of cases |
| CampaignLog.LinesOfCase | loadtests/campaign.cpp:325-477 | a case that is run opens with case_start, then come its windows in order, then the lines of its phases, and its verdict is last |
| CampaignTotals.StatusExactly | loadtests/campaign.cpp:831-834 | a campaign ends as failed exactly when some case failed, as completed exactly when all did, and as partial otherwise |
| CampaignTotals.RunEndTells | loadtests/campaign.cpp:836-849 | whoever reads run_end finds under each name the number of cases with that verdict |
| CampaignScan.Scanner.See | loadtests/campaign.cpp:947-999 | one record in the scan, every field |
| CampaignScan.Scanner.CollectPending | loadtests/campaign.cpp:1002-1030 | the loop over the plan: what is pending, or where it stops |
| CampaignText.SplitLines | loadtests/campaign.cpp:926-935 | the lines that are not empty |
| CampaignText.ScanContent | loadtests/campaign.cpp:937-1000 | the scan loop over the lines, which returns the number of the first bad line exactly when there is one |
| CampaignText.BadLineExactly | loadtests/campaign.cpp:937-946 | the scan stops at a line exactly when it is the first that holds no object although lines follow it |
| CampaignText.LinesOfBoth | loadtests/campaign.cpp:926-935 | the lines of two texts with a newline between them are those of each |
| CampaignText.LineOfOne | loadtests/campaign.cpp:926-935 | and a text without a newline is one line, unless it is empty |
| CampaignText.AnyCutIsScanned | loadtests/campaign.cpp:918-946 | a file of records cut at any byte is scanned as its complete records, and never found corrupt |
| CampaignText.TornRecordIsIgnored | loadtests/campaign.cpp:918-946 | a torn last line counts exactly when all of the record is there, newline or not |
| CampaignText.PrintIsOneLine | benchmarks/runner/json_util.hpp:15-56 | a printed record holds no newline |
| CampaignResume.ScanResolvesExactly | loadtests/campaign.cpp:908-1000 | from the log of one run cut at any line end the scan resolves exactly the positions whose verdict line was written, repeats of one case_id included, and ends at the last sequence number |
| CampaignResume.ScanCountsAsTheWriterDid | loadtests/campaign.cpp:908-1000 | with the counters the writer had then, when in every settled case the status agrees with the error text |
| CampaignResume.CountsAgreeExactly | loadtests/campaign.cpp:908-1000 | at every cut of the log the four counters are those the writer had then, exactly when in every case the status agrees with the error text |
| CampaignWorkloads.WorkloadIsConsistentExactly | loadtests/campaign.cpp:361-404 | a case run through the dispatch and its wrapper has status and error text that agree, exactly unless a failed target reports one of the phrases of a refusal: every refusal is recognised, and completed runs say so |
| CampaignWorkloads.CampaignCountsAgreeExactly | loadtests/campaign.cpp:361-404 | so for the campaigns the code runs the counters of the scan are the writer's at every cut, exactly when no failed target reports such a phrase |
| CampaignResume.ResumesExactly | loadtests/campaign.cpp:1008-1030 | the resume goes on exactly when the cut falls inside the lines of the last case, and otherwise names the position where it stops |
| CampaignResume.ResumedCountersSumToPlan | loadtests/campaign.cpp:1070-1102 | one more verdict then makes the counters sum to the plan length |
| CampaignResume.OpeningAloneIsNoCampaign | loadtests/campaign.cpp:1002-1006 | a cut before case_plan is no campaign |
| CampaignResume.HeaderFields | loadtests/json_value.hpp:45-67 | reading back any header field of a record, and what lies behind the header |
| CampaignContinued.AnyInterruptionIsRead | loadtests/campaign.cpp:918-1030 | both together for the file of a campaign cut at any byte: never corrupt, and resumed exactly in that case |
| CampaignContinued.ResumeCampaign | loadtests/campaign.cpp:862-1138 | from the bytes of the partial file to the final file: which refusal and exactly when (no partial file, final name taken, a line before the last that holds no object, nothing to resume, a failed write), or the bytes that are appended, the counters and the rename |
| CampaignContinued.ResumeCompletesTheLog | loadtests/campaign.cpp:908-1138 | cut at a line end inside its last case, a campaign is resumed with that case, its counters sum to the plan, and the file is one log to its run_end |
| CampaignContinued.ResumedFileIsOneLog | loadtests/campaign.cpp:1051-1068 | what is appended goes on with the next sequence number |
| CampaignContinued.SequencesRise | loadtests/campaign.cpp:948 | in such a file sequence numbers strictly rise |
| CampaignContinued.RunEndHashesWhatPrecedes | loadtests/campaign.cpp:831-849 | the hash in run_end is that of exactly the bytes before that line, after a run |
| CampaignContinued.LogPrints | loadtests/campaign.cpp:274-477 | every record of a campaign prints as JSON |
| CaseRestored.RestoredExactly | loadtests/campaign.cpp:485-507 | a case read back from its case_start is the same exactly when its reads_per_write is 10, its checkpoint_interval is not 0 and its counters are doubles |
| CaseRestored.RestoredIs | loadtests/campaign.cpp:485-507 | what comes back in every other case |
| CaseRestored.ParamIsFound | loadtests/campaign.cpp:485-507 | whatever case_start was given under a key is found there again |
| CaseRestored.SmallCountersAreKept | loadtests/campaign.cpp:68-81 | counters below 2^53 are kept |
| CaseRestored.ResumedRatioChangesTheLabel | loadtests/campaign.cpp:68-81 | an accepted case with a ratio of its own comes back under another case_id than the plan gave it |
| CaseRestored.RoundedExactly | loadtests/json_value.hpp:63-67 | a number read back through a double is the same exactly when it is a multiple of the spacing of doubles at its size |
| CaseRestored.RoundedIsNearest | loadtests/json_value.hpp:63-67 | the double that a number passes through is the nearest, and the even one of two |
| CaseRestored.UlpExactly | loadtests/json_value.hpp:63-67 | doubles lie apart by the power of two that leaves 53 significant bits |

## Left out

- The database engine, server, proxy and WAL: a map with atomic commit (`MixedOltp`), a log with fresh ids (`Hierarchy`), each call failing or not.
- Memory ordering and tearing: a load or store of a position of the ring is one atomic step, as the class says of aligned 8-byte accesses on x86-64. The frame bytes are stored one at a time.
- Positions of the ring are unbounded: 64-bit wrap-around of the counters is not modelled.
- `_call_shm` waiting, server-gone checks, sockets, mmap, files, clocks and threads: schedules and failures stand for them. The bytes after the view was copied are not followed further.
- Text encodings: a str of the value codec is its bytes, and UTF-8 validity is not checked. A float is its 8 bytes.
- JsonParser.Parser.ReadNumber: does not model strtod, a number keeps its token. `\uXXXX` escapes follow the code, which does not join surrogate pairs.
- CampaignScan.Scanner.See: reads unsigned integers through rounding to doubles; other number tokens count as 0, because no record writes one where an integer is read.
- CampaignLog.TallyCountsEveryCase: floating-point fields of records are given as tokens, so a value that prints as inf or nan, which is no JSON, is outside the model.
- CampaignContinued.ResumeCompletesTheLog: states one resume of a log cut at a line end, because the code appends behind a torn line without cutting it off, and a second resume counts case_start twice.
- CampaignWorkloads.WorkloadIsConsistentExactly: takes what a target returns (completed, or failed with a text) as given.
- CampaignRun.RunCampaign: takes the decisions of budget, calibration and environment as inputs, and assumes a log of fewer than 2^61 bytes.
- CampaignResume.ScanResolvesExactly: assumes fewer than 2^53 lines, so that sequence numbers survive doubles.
- Hierarchy.Builder.CreateHierarchy: takes depth and width as given; the width from a floating-point root and the deletion phase are not modelled.
- MixedOltp.State.Reconcile: takes the surviving logical ids in any order, so the sort is not modelled, assumes that no two objects share a logical id, and compares users where the code compares their canonical lines.
- UserDataset.GenerateUser: computes created_at without 64-bit overflow, which starts beyond index 2^57.
- Sha256Code.ComputeSha256: takes the message as a sequence of bytes; the copy into the block is a loop.
- CaseIdInjective.CaseIdIsInjectiveExactly: assumes that workload, target and scale hold no dot, as all known names do.
- JsonlWriter.Writer.Open: is called on a writer that is not open, as both callers do.
- `expand_matrix`, budgets, calibration, profiles, environments, command lines and proxy settings: table lookups and plumbing.
- The other workloads, percentiles, Zipf sampling, ratios and progress callbacks: easy or floating point.
