# Verified model of rcllite

rcllite is a small ROS 2 client library over DDS. This project models the parts of it whose correctness is not visible in
any single function, and proves what they are for:

- **The wire format** (`Schema`, `Encoding`, `Decoding`, `Cdr`, `Generated`, `PyCodec`, `PyMessages`). A message schema is
  a datatype: primitives, strings and nested messages, each as a scalar, a sequence or a fixed array. `Encoding` and
  `Decoding` are the element-by-element reference form of CDR (section 15.3 of CORBA 3.0, little endian, as XCDR1 of
  section 7.4.1 of DDS-XTypes 1.3 uses it) at an arbitrary start offset. `Cdr` holds the writer and reader objects with
  their buffer and cursor, `Generated` the meaning of the code the generator emits, bulk copies included, `PyCodec`,
  `PyMessages` and `PyRoundTrip` the independent Python implementation. All are proved against the reference; `RoundTrip`,
  `Acceptance`, `LengthGuard` and `BulkRead` prove what the reference promises, and `Layout` which octets the shipped messages
  consist of, one after the other.
- **Transport blobs** (`Blobs`). Fragment reassembly into a padded payload, and that padding never disturbs decoding.
- **Services** (`ServiceWire`, `Services`, `ServiceRuns`). Requests and replies as octets, the client and server objects,
  and every run of any number of clients over a network that loses, duplicates, delays and reorders payloads.
- **The executor** (`ExecutorSpec`, `Transport`, `Executor`, `ExecutorRuns`, `ExecutorRounds`, `ExecutorGuarantees`,
  `ExecutorCancel`, `ExecutorLostCancel`). Attachment bookkeeping, the objects over one DDS instance, and every interleaving of the executing thread with threads that create nodes and
  entities, add and remove nodes, deliver data and cancel.
- **Parameters** (`Parameters`, `ParameterCore`, `Hierarchy`, `Text`). The store, its event log and the listing.
- **The graph observer** (`Names`, `Graph`, `GraphMonitor`, `Json`). What is known after any run of discovery events, the
  join of endpoints into edges, names and their mangling, and the JSON string writer against a reader.

`dafny verify dfyconfig.toml` checks everything.

## How to read it

Objects that the source updates in place are classes; their methods are proved against functions on values
(`EncFields`, `DecFields`, `Completes`, `Reconciled`, `Apply`, `Observe`, ...), and the theorems are about those. Threads
appear only in `ServiceRuns` and `ExecutorRuns`: a state, a datatype of steps, `Enabled` and `Take`. One step is one critical
section of a mutex or one access to an atomic or to DDS, so the theorems hold for every interleaving at that granularity.

Assumptions, where the code relies on something outside it:

- Lengths of strings and sequences fit in uint32; `size_t` has 64 bits, so `n * sizeof(T)` does not wrap.
- Client ids are distinct. They are random 64-bit numbers (src/rcllite/service.hpp:120-121). A client sends fewer than 2^63
  requests.
- Taking a pending entry out of the map and completing it is one step, and so is the timeout of a call with the erasure of
  its entry. At the granularity of the lock a reply may complete the promise just as the call gives up.
- DDS handles are never reused (src/rcllite/executor.cpp:59). A wait reports ready attachments, at most as many as asked for,
  all of them when they fit, as tests/mock/mock_ddsc.cc:462-494 does.
- A reconciliation reads `entities()` and `entity_epoch()` of a node in one step with respect to `add_entity` and
  `remove_entity`. The code takes two locks (src/rcllite/executor.cpp:64-67).
- A node is in the list of one executor, and the executor has one executing thread.

## What turned out not to hold

- A sequence of messages that encode to nothing does not survive the length guard `n > r.remaining()`.
  `LengthGuard.RoundTripsIffSolid` gives the exact condition on the schema; `PyMessages.ShippedSchemasSolid` shows that the
  shipped types satisfy it.
- A completed `cancel()` can be lost: `spin_once` and `spin_some` consume its trigger, and a `spin()` started afterwards
  blocks. It is lost exactly when a round of theirs takes the guard before a spin hears of it
  (`ExecutorLostCancel.CancelIsLostIffTaken`), and whenever the guard is triggered while the executor is idle, a single
  round may do so (`ExecutorLostCancel.SingleRoundSwallowsCancel`).
- One `cancel()` can end two spins: the flag ends the first, and the guard, left triggered, the second
  (`ExecutorCancel.OneCancelEndsTwoSpins`). `ExecutorCancel.StaleCancelEndsSpin` says exactly when a spin can return
  without a cancel of its own, and `ExecutorCancel.ReturnsAreBounded` that it never gets worse than two.
- `make_fq_node_name` accepts namespaces with empty tokens and `expand_topic_name` namespaces without a leading slash; the
  results are then not valid names (`Names.NodeNameIsValid`, `Names.ExpandedIsValid`).
- With a depth limit, the result of `list_parameters` can depend on the order of the prefixes: on some name it does iff one
  prefix is above another (`Hierarchy.OrderlessIffNoneNested`, and `Hierarchy.OrderlessIffUnanimous` name by name; the
  smallest case is `Hierarchy.DepthDependsOnOrder`).
- The graph observer's polls of `ros_discovery_info` and `rosout` catch nothing, so what the reader throws on a malformed
  sample leaves them (`GraphMonitor.GraphMonitor.PollDiscovery`).
- Python writes `k`, `r` and `p` of a `CameraInfo` in a row without checking their lengths. The message comes back iff they
  have 9, 9 and 12 elements; otherwise it is written without an error and read back as a different message or not at all
  (`PyRoundTrip.CameraInfoThroughPython`).
- Parameter events do not tell that a parameter became NotSet: replaying them is exact on the other parameters only
  (`Parameters.ReplayReproduces`).

## Model

| member | source | states |
|---|---|---|
| Bytes.LittleEndianInverse | src/rcllite/cdr.hpp:123-129 | reading the octets of a number back in memory order gives the number, for every width |
| Bytes.LittleEndianAt | src/rcllite/cdr.hpp:48-51 | the octet at index i of a number counts its multiples of 256^i: the least significant octet comes first |
| Bytes.FromLittleEndianConcat | src/rcllite/cdr.hpp:123-129 | each octet read weighs 256 times the one before it |
| Bytes.PadIsTheOne | src/rcllite/cdr.hpp:41-46 | among the numbers below n the padding is the one that makes the offset a multiple of n |
| Bytes.PadAligns | src/rcllite/cdr.hpp:41-46 | the padding expression reaches the alignment, and is zero exactly at aligned offsets |
| Bytes.PadIsLeast | src/rcllite/cdr.hpp:41-46 | no smaller number of octets reaches the alignment |
| Encoding.PrimOctets | src/rcllite/cdr.hpp:53-70 | a primitive on the wire: zeros up to a multiple of its size, then its value, least significant octet first |
| Encoding.PrimWidths | tools/msg_codegen.py:28-42 | how many octets each primitive takes |
| Encoding.TextOctets | src/rcllite/cdr.hpp:72-76 | a string on the wire: padding, its length with the NUL in four octets, its octets, a zero |
| Encoding.MemberHeads | tools/msg_codegen.py:215-257 | a sequence is its count and its elements; an array of strings or messages is its elements and nothing else |
| Decoding.PrimReadOctets | src/rcllite/cdr.hpp:107-143 | which octets of the buffer a read primitive is made of, and which of the two errors a short buffer gives |
| Decoding.TextReadOctets | src/rcllite/cdr.hpp:145-153 | a string is accepted iff its count is not zero and does not pass the end; which octets it is, and the error otherwise |
| Decoding.SequenceReadOctets | tools/msg_codegen.py:260-267 | a sequence is rejected iff its count exceeds the octets that remain behind it |
| Encoding.PadFirst | tools/msg_codegen.py:215-230 | in a run of primitives all padding sits in front of the first element, at every offset |
| Encoding.BulkIsPerElement | tools/msg_codegen.py:215-230 | one alignment and one copy of memory produce the octets of the per-element loop, for every primitive, length and start offset |
| Encoding.ArrayHeadRedundant | tools/msg_codegen.py:239-246 | a primitive array is encoded like its elements iff it is not an empty array at an unaligned offset |
| BulkRead.BulkReadFromAligned | tools/msg_codegen.py:267-285 | below an aligned position the bulk copy and the element loop fail together or yield the same values and position |
| BulkRead.AlignFirst | tools/msg_codegen.py:279-285 | aligning before every element equals aligning once before the first |
| RoundTrip.PrimRoundTrip | src/rcllite/cdr.hpp:58-70 | every primitive written at any offset is read back from there, with anything before and after it |
| RoundTrip.TextRoundTrip | src/rcllite/cdr.hpp:72-76 | every string whose length with NUL fits in 32 bits is read back, cursor right behind the NUL |
| RoundTrip.MemberRoundTrip | tools/msg_codegen.py:260-320 | a member of any kind and element type is read back unless the length guard rejects it, and then deserialize returns false |
| RoundTrip.FieldsRoundTrip | tools/msg_codegen.py:334-350 | the round trip for every schema, value, start offset and trailing octets: the decoder yields the value and stops where the writer stopped iff every length passes its guard, otherwise it rejects |
| Acceptance.FieldsAccepted | tools/msg_codegen.py:260-320 | whatever octets deserialize accepts decode to a well-typed value that re-encodes to exactly the consumed length |
| Acceptance.ReencodingIsStable | tools/msg_codegen.py:260-320 | writing an accepted value back in place decodes to the same value and position |
| LengthGuard.SolidAdmits | tools/msg_codegen.py:264-267 | when every sequence element occupies an octet, the guard never rejects what serialize wrote |
| LengthGuard.AcceptedElementsBounded | tools/msg_codegen.py:264-267 | an accepted buffer never holds more sequence elements, nested ones included, than octets consumed |
| LengthGuard.ElementsCounted | tools/msg_codegen.py:264-267 | what is counted: every element of every sequence once, at every depth, and no element of another member |
| LengthGuard.SolidRoundTrips | tools/msg_codegen.py:207-320 | the unconditional round trip for schemas whose sequence elements occupy an octet |
| LengthGuard.FieldsMove | tools/msg_codegen.py:207-257 | moving the start of any message by up to eight octets moves its end by up to eight, in the same direction |
| LengthGuard.PaddingFields | tools/msg_codegen.py:239-246 | a message that need not occupy an octet is padding that never passes the next multiple of eight |
| LengthGuard.SentIsDecoded | tools/msg_codegen.py:334-352 | every well-formed value of a schema whose sequence elements occupy an octet, sent from a fresh writer, is decoded whole |
| LengthGuard.RoundTripsIffSolid | tools/msg_codegen.py:264-267 | the round trip holds for all values of a schema iff its sequence elements occupy at least one octet; schemas with `T[0]` members, whose padding depends on the offset, included |
| Cdr.CdrWriter.constructor | src/rcllite/cdr.hpp:27-33 | a fresh writer holds the octets 0, 1, 0, 0 |
| Cdr.CdrWriter.AlignTo | src/rcllite/cdr.hpp:41-46 | the padding loop appends exactly the zeros the reference asks for |
| Cdr.CdrWriter.WritePrim | src/rcllite/cdr.hpp:53-70 | a primitive write appends the reference encoding at the current payload offset, which Encoding.PrimOctets gives octet by octet |
| Cdr.CdrWriter.WriteString | src/rcllite/cdr.hpp:72-76 | a string write appends the reference encoding, length truncated to 32 bits, ending in the octets and a zero |
| Cdr.OpenError | src/rcllite/cdr.hpp:84-99 | a reader opens iff the buffer has four octets and the first two are 0 and 1; which error it reports otherwise |
| Cdr.CdrReader.Open | src/rcllite/cdr.hpp:84-99 | the reader starts behind the header, or the constructor's error is reported |
| Cdr.CdrReader.AlignTo | src/rcllite/cdr.hpp:107-113 | skips the padding or fails without moving |
| Cdr.CdrReader.ReadBytes | src/rcllite/cdr.hpp:115-121 | returns exactly the octets at the cursor or fails without moving |
| Cdr.CdrReader.ReadPrim | src/rcllite/cdr.hpp:123-143 | agrees with the reference decoder on value, position and error, which Decoding.PrimReadOctets gives octet by octet; the cursor stays inside the buffer |
| Cdr.CdrReader.ReadString | src/rcllite/cdr.hpp:145-153 | agrees with the reference decoder, zero and overlong lengths included |
| Generated.SerializeMember | tools/msg_codegen.py:207-257 | the emitted statements for any member, bulk paths included, append the reference encoding |
| Generated.SerializePrimArray | tools/msg_codegen.py:239-246 | align and copy of a fixed primitive array append the reference encoding |
| Generated.Serialize | tools/msg_codegen.py:334-341 | the emitted serialize of any schema appends the reference encoding at any offset |
| Generated.DeserializeMember | tools/msg_codegen.py:260-320 | the emitted statements for any member agree with the reference decoder on every buffer |
| Generated.DeserializePrimArray | tools/msg_codegen.py:302-307 | align and copy of a fixed primitive array agree with the reference decoder |
| Generated.Deserialize | tools/msg_codegen.py:344-352 | the emitted deserialize terminates on every buffer, keeps its cursor between the header and the end, and agrees with the reference decoder |
| Generated.WriteSequence | src/rcllite/msg_traits.hpp:37-45 | the per-element helper writes what the emitted bulk code writes |
| Generated.ReadSequence | src/rcllite/msg_traits.hpp:49-66 | the per-element helper reads what the emitted bulk code reads |
| Generated.ThroughTheWire | tools/msg_codegen.py:207-320 | running the emitted serialize and then the emitted deserialize, with anything appended, returns the value and stops where the writer stopped unless a length guard rejects |
| PyCodec.PyPadIsPad | python/pyrcllite/messages.py:44-45 | the negated remainder of the Python side is the same padding as the C++ expression |
| PyCodec.PackedDoublesAreMemory | python/pyrcllite/messages.py:75-86 | struct-packed doubles are the memory image the C++ bulk copy writes |
| PyCodec.OverlongListFails | python/pyrcllite/messages.py:142-150 | a list longer than the rest of the buffer, which C++ rejects by its guard, fails in Python by its bounds check |
| PyCodec.PyWriter.String | python/pyrcllite/messages.py:65-68 | the Python string writer appends the reference encoding |
| PyCodec.PyWriter.DoubleSequence | python/pyrcllite/messages.py:75-80 | the Python sequence writer appends the reference encoding, the empty sequence included |
| PyCodec.PyReader.Take | python/pyrcllite/messages.py:106-111 | returns the octets at the cursor or fails, as the reference does |
| PyCodec.PyReader.String | python/pyrcllite/messages.py:131-135 | returns the octets of a string, and fails iff the reference decoder fails; the UTF-8 decoding of these octets is assumed to succeed |
| PyCodec.PyReader.DoubleSequence | python/pyrcllite/messages.py:142-146 | accepts what the reference accepts for a non-empty sequence; for an empty one it pads where C++ does not, and says so |
| PyMessages.WriteEmpty | python/pyrcllite/messages.py:185-187 | Empty: Python emits the header only, as C++ does |
| PyMessages.WriteStringMessage | python/pyrcllite/messages.py:201-202 | String: Python emits the C++ octets |
| PyMessages.WritePoseStamped | python/pyrcllite/messages.py:318-320 | PoseStamped: Python emits the C++ octets |
| PyMessages.WriteTransformStamped | python/pyrcllite/messages.py:351-354 | TransformStamped: Python emits the C++ octets |
| PyMessages.WriteImage | python/pyrcllite/messages.py:382-389 | Image: Python emits the C++ octets |
| PyMessages.WriteCameraInfo | python/pyrcllite/messages.py:448-459 | CameraInfo with lists of any lengths: head, distortion list, then the doubles of k, r and p with nothing between them |
| PyMessages.CameraInfoIsEncoded | python/pyrcllite/messages.py:448-459 | with the fixed lengths these are exactly the C++ octets, empty distortion list included |
| PyMessages.ResplitIsEncoded | python/pyrcllite/messages.py:448-459 | any other split of 30 doubles gives the C++ octets of the message that splits them 9, 9, 12 |
| PyMessages.ReadEmpty | python/pyrcllite/messages.py:188-190 | Empty: nothing is read, as in C++ |
| PyMessages.ReadStringMessage | python/pyrcllite/messages.py:205-206 | String: taking strings as their octets, Python accepts exactly the buffers the C++ decoder accepts, with the same value and cursor |
| PyMessages.ReadPoseStamped | python/pyrcllite/messages.py:323-324 | PoseStamped: the same, strings as their octets |
| PyMessages.ReadTransformStamped | python/pyrcllite/messages.py:357-362 | TransformStamped: the same, strings as their octets |
| PyMessages.ReadImage | python/pyrcllite/messages.py:392-401 | Image: the same, strings as their octets; one take of n octets against the guarded bulk copy |
| PyMessages.ReadCameraInfo | python/pyrcllite/messages.py:462-475 | CameraInfo: the same, strings as their octets, although the two readers disagree on the padding behind an empty distortion list |
| PyMessages.ListsRunTogether | python/pyrcllite/messages.py:82-86 | two lists of doubles written in a row cannot be told from any other split of the same doubles |
| PyMessages.ShippedSchemasSolid | python/pyrcllite/messages.py:180-475 | no shipped type is affected by the length guard |
| PyCodec.PackInt32 | python/pyrcllite/messages.py:53-55 | two's complement: the bit pattern is the number or 2^32 above it |
| Layout.FlatConcat | tools/msg_codegen.py:334-341 | the octets of two runs of leaves in a row are those of the first, then those of the second at the offset reached |
| Layout.MessageIsOneRun | tools/msg_codegen.py:207-257 | a message of any schema is one run of counts, primitives and strings in declaration order, each aligned on its own; nesting leaves no trace |
| Layout.PoseStampedLayout | python/pyrcllite/messages.py:318-320 | PoseStamped leaf by leaf: seconds in two's complement, nanoseconds, frame, position, orientation |
| Layout.TransformStampedLayout | python/pyrcllite/messages.py:351-354 | TransformStamped leaf by leaf |
| Layout.ImageLayout | python/pyrcllite/messages.py:382-389 | Image leaf by leaf, the octets of the data behind their count |
| Layout.CameraInfoLayout | python/pyrcllite/messages.py:448-459 | CameraInfo leaf by leaf with lists of any lengths: only the first list is counted |
| PyRoundTrip.EmptyThroughPython | python/pyrcllite/messages.py:180-190 | Empty: what Python writes is what C++ writes, and both read it back |
| PyRoundTrip.StringThroughPython | python/pyrcllite/messages.py:194-206 | String, as octets: what Python writes is what C++ writes, C++ reads it back whole, and so does Python |
| PyRoundTrip.PoseStampedThroughPython | python/pyrcllite/messages.py:310-324 | PoseStamped: the same |
| PyRoundTrip.TransformStampedThroughPython | python/pyrcllite/messages.py:342-362 | TransformStamped: the same |
| PyRoundTrip.ImageThroughPython | python/pyrcllite/messages.py:369-401 | Image: the same |
| PyRoundTrip.CameraInfoThroughPython | python/pyrcllite/messages.py:431-475 | CameraInfo: the same iff k, r and p have the fixed lengths; any other 30 doubles come back dealt out differently, and no other number of them comes back as the same message |
| PyRoundTrip.CameraInfoInjective | python/pyrcllite/messages.py:431-475 | different messages never share a schema value |
| Blobs.BlobPadAligns | src/rcllite/dds/raw_serdata.cpp:22-27 | the 32-bit wrapped padding is below four and completes every size to a multiple of four, sizes beyond 32 bits included |
| Blobs.Resize | src/rcllite/dds/raw_serdata.cpp:22-27 | the payload is zeroed and padded |
| Blobs.CopyFragment | src/rcllite/dds/raw_serdata.cpp:59-70 | one fragment extends the assembled prefix of the sample to its end |
| Blobs.CoveredIsFurthest | src/rcllite/dds/raw_serdata.cpp:56-70 | what a chain covers is the furthest end of any fragment |
| Blobs.GaplessMeans | src/rcllite/dds/raw_serdata.cpp:56-70 | a chain is gapless iff every fragment that ends beyond what the ones before it cover starts within that |
| Blobs.RawFromSer | src/rcllite/dds/raw_serdata.cpp:38-72 | any gapless chain, overlaps included, rebuilds exactly the covered prefix of the sample, and the whole padded sample if it reaches the size |
| Blobs.RawFromSerIov | src/rcllite/dds/raw_serdata.cpp:74-95 | the payload is the concatenated parts followed by zeros |
| Blobs.FlattenConcat | src/rcllite/dds/raw_serdata.cpp:90-93 | the parts of a scatter list follow one another in order |
| Blobs.RawSerdataFromBlob | src/rcllite/dds/raw_serdata.cpp:236-245 | fails iff the size does not fit the platform's length type, otherwise pads the blob |
| Blobs.AcceptanceExtends | src/rcllite/dds/raw_serdata.cpp:22-27 | octets behind an accepted message never change what it decodes to |
| Blobs.PaddingKeepsMessage | src/rcllite/dds/raw_serdata.cpp:22-27 | decoding the padded payload gives the message that was written |
| ServiceWire.ParseOfWire | src/rcllite/service.hpp:47-57 | a padded service payload parses to exactly the header and message it was made from, or is rejected by a length guard |
| ServiceWire.EnvelopeEncoding | src/rcllite/service.hpp:231-233 | header octets followed by the message at the resulting offset are one message of the enveloped schema |
| ServiceWire.WireOctets | src/rcllite/service.hpp:47-50 | a service payload octet by octet: encapsulation, client id, sequence number in two's complement, both least significant octet first, the message from octet 20 on |
| ServiceWire.PackInt64 | src/rcllite/service.hpp:47-50 | two's complement: the bit pattern is the number or 2^64 above it |
| ServiceWire.WriteServiceHeader | src/rcllite/service.hpp:47-50 | the header helper appends the two numbers in order, aligned |
| ServiceWire.ReadServiceHeader | src/rcllite/service.hpp:52-57 | reads back header and position, or fails where the reader throws |
| ServiceWire.ParseInSteps | src/rcllite/service.hpp:87-92 | reading the header and then the message is parsing the envelope |
| ServiceWire.Marshal | src/rcllite/service.hpp:231-233 | the octets that go to the writer |
| Services.Completes | src/rcllite/service.hpp:180-199 | a sample completes an entry only if it carries this client's id, decodes, and its number is pending |
| Services.Service.Dispatch | src/rcllite/service.hpp:83-102 | one well-formed request yields one reply with its header echoed; anything else, a throwing callback included, yields none |
| Services.Client.SendRequest | src/rcllite/service.hpp:222-240 | allocates the next number, registers it, emits exactly its request octets, and throws and leaves no entry behind when the write fails |
| Services.Client.FinishCall | src/rcllite/service.hpp:164-170 | a call whose promise is set in time leaves the pending map alone; one that is not removes exactly its entry and throws |
| Services.Client.Dispatch | src/rcllite/service.hpp:176-212 | takes out exactly the entry a sample completes and delivers its response once |
| ServiceRuns.DeliveredRequest | src/rcllite/service.hpp:83-92 | in every reachable state a server reads off a delivered payload exactly who sent what |
| ServiceRuns.StepKeeps | src/rcllite/service.hpp:83-240 | every step keeps the invariant and undoes no number, request or outcome |
| ServiceRuns.RunKeeps | src/rcllite/service.hpp:83-240 | the same over every run |
| ServiceRuns.CompletionsAreFaithful | src/rcllite/service.hpp:158-212 | over every run, a response completed for a number was computed by a server from exactly the request sent under that number |
| ServiceRuns.NumbersAreAccountedFor | src/rcllite/service.hpp:222-240 | over every run each allocated number, and no other, is in exactly one of unregistered, pending or ended |
| ServiceRuns.OutcomesAreFinal | src/rcllite/service.hpp:189-207 | no number ends twice: completed, timed out or failed once is so forever |
| ServiceRuns.DeliveryCompletes | src/rcllite/service.hpp:176-212 | delivering a reply whose number is pending completes it, unless a length guard rejects the reply |
| ServiceRuns.SendIsThreeSteps | src/rcllite/service.hpp:222-240 | an undisturbed call of the object's SendRequest is the steps Allocate, Register and Write: same counter, pending map and octets |
| ServiceRuns.FinishIsTimeOut | src/rcllite/service.hpp:164-168 | giving up on a call is the step TimeOut |
| ServiceRuns.DispatchIsReceive | src/rcllite/service.hpp:176-212 | dispatching a padded reply is the step Receive |
| ServiceRuns.StepsTouchOnly | src/rcllite/service.hpp:83-240 | only Write puts requests and only Serve replies and served records into the network, only Allocate fixes the request of a number, only Receive completes |
| ServiceRuns.ServeAnswers | src/rcllite/service.hpp:83-102 | serving a delivered request answers its sender under its number with the response of the callback |
| ServiceRuns.CallCanComplete | src/rcllite/service.hpp:158-240 | from every reachable state a call that is sent, served and received undisturbed completes with the server's response, whatever else is under way |
| ServiceRuns.WaiterCanGiveUp | src/rcllite/service.hpp:164-168 | once its request was written the waiter of a call can give up, and no callback entry ever times out |
| ExecutorSpec.DesiredKeys | src/rcllite/executor.cpp:59-68 | a condition is desired iff it is the change guard or an entity of a listed node |
| ExecutorSpec.DesiredEntry | src/rcllite/executor.cpp:59-68 | the last listed node that names a condition decides its node and the entity to dispatch |
| ExecutorSpec.WithoutFilters | src/rcllite/node.cpp:91-99 | removal drops every occurrence and keeps the order of the rest |
| ExecutorSpec.ConsistentIsInjective | src/rcllite/executor.hpp:73-76 | no two conditions share an attachment id and no two ids a condition |
| ExecutorSpec.TrimThenGrow | src/rcllite/executor.cpp:70-97 | detaching what is stale and attaching what is missing under fresh ids is a reconciliation |
| ExecutorSpec.ReconciledIsExact | src/rcllite/executor.cpp:58-98 | after a reconciliation without a refused attachment, exactly the two guards and the desired conditions are attached |
| ExecutorSpec.NothingRemains | src/rcllite/executor.cpp:70-86 | a condition of no listed node is not attached after any reconciliation |
| ExecutorSpec.ReconciledSettles | src/rcllite/executor.cpp:58-98 | a reconciliation attaches every living condition of every listed node and records its epoch |
| Transport.Dds.Wait | tests/mock/mock_ddsc.cc:462-494 | reports distinct ids of ready attachments, all of them when they fit |
| Transport.Take | src/rcllite/dds/entities.hpp:125-150 | the batch loop empties the queue, hands every valid sample over once in queue order across batches, releases every sample once and leaves other readers alone |
| Executor.Node.AddEntity | src/rcllite/node.cpp:82-89 | appends the entity, bumps the epoch, triggers the change guard |
| Executor.Node.RemoveEntity | src/rcllite/node.cpp:91-99 | removes every occurrence, bumps the epoch, triggers the change guard |
| Executor.Executor.constructor | src/rcllite/executor.cpp:19-28 | starts with the two guards attached under ids 1 and 2 |
| Executor.Executor.CollectDesired | src/rcllite/executor.cpp:59-68 | the map-building loops compute the desired set and the recorded epochs |
| Executor.Executor.DetachStale | src/rcllite/executor.cpp:70-86 | detaches and erases exactly the entries that are no longer desired |
| Executor.Executor.AttachMissing | src/rcllite/executor.cpp:88-97 | attaches every desired condition that is missing, under fresh ids, except refused ones |
| Executor.Executor.ReconcileLocked | src/rcllite/executor.cpp:58-98 | one call is a reconciliation, keeps the table and the waitset inverse to each other, and leaves no epoch behind |
| Executor.Executor.AddNode | src/rcllite/executor.cpp:36-48 | lists the node once, reconciles with its epoch forgotten if it is new, triggers the wake guard |
| Executor.Executor.RemoveNode | src/rcllite/executor.cpp:50-56 | unlists the node, reconciles, triggers the wake guard |
| Executor.RemovedIsDetached | src/rcllite/executor.cpp:50-56 | after remove_node the node's change guard is not attached |
| Executor.Executor.EntitiesChanged | src/rcllite/executor.cpp:103-111 | the check in front of the wait is true iff nothing is attached although a node is listed, or some node's epoch is not the recorded one |
| Executor.Executor.Refresh | src/rcllite/executor.cpp:101-115 | after the critical section in front of the wait every epoch is recorded, by a reconciliation exactly when one is needed |
| Executor.Executor.CollectTriggered | src/rcllite/executor.cpp:117-125 | every reported id that dispatches something has data queued; with at most 64 attachments nothing ready is missed, and nothing is reported only if nothing is ready |
| Executor.Executor.ProcessBatch | src/rcllite/executor.cpp:126-152 | drains exactly the entities of the batch, each once; sets the cancel flag iff the cancel guard was reported; takes the cancel guard and the wake guard iff they were reported and leaves every other guard alone |
| Executor.Executor.AbsorbChangeGuards | src/rcllite/executor.cpp:154-160 | takes the change guard of every listed node and no other |
| Executor.Executor.RunBatch | src/rcllite/executor.cpp:116-162 | drains exactly the read conditions attached under a reported id; after a round that reported anything every listed change guard is down, and no guard is ever set |
| Executor.Executor.WaitAndProcess | src/rcllite/executor.cpp:100-162 | drains exactly the read conditions attached under a reported id, and takes exactly the reported guards of the executor and, if anything was reported, every listed change guard; a round that reports work empties a queue, one that reports none leaves all attached queues empty when they fit the report |
| Executor.Executor.SpinSome | src/rcllite/executor.cpp:177-183 | terminates; returns true iff some queue was drained, and otherwise took nothing; with at most 64 attachments it leaves every living entity's queue empty, each valid sample handed over once in order and each sample released once, and takes every attached guard of the executor and its nodes; other guards stay as they were |
| ExecutorRuns.StepKeeps | src/rcllite/executor.cpp:36-188 | every step of every thread keeps the invariant and never reuses an attachment id |
| ExecutorRuns.RunKeeps | src/rcllite/executor.cpp:36-188 | the same over every run |
| ExecutorRounds.RoundSteps | src/rcllite/executor.cpp:116-162 | an undisturbed round of the executing thread is a run, and does to queues, guards and flag what RunBatch does |
| ExecutorRounds.CountersCount | src/rcllite/executor.cpp:36-188 | over every run the epochs and the pending triggers are counts of its steps |
| ExecutorRounds.AdditionIsACall | src/rcllite/node.cpp:82-89 | creating an entity in a run is AddEntity of the node, up to its trigger |
| ExecutorRounds.RemovalIsACall | src/rcllite/node.cpp:91-99 | dropping an entity in a run is RemoveEntity of the node, up to its trigger |
| ExecutorRounds.AddedIsServed | src/rcllite/executor.cpp:36-48 | add_node lists a node once, behind the others, with its change guard and all living entities attached |
| ExecutorRounds.RemovedIsGone | src/rcllite/executor.cpp:50-56 | remove_node leaves neither the change guard nor an entity no listed node shares attached |
| ExecutorRounds.MembershipCanChange | src/rcllite/executor.cpp:36-56 | nodes can be added and removed whenever no change guards are being absorbed |
| ExecutorGuarantees.TableIsExact | src/rcllite/executor.cpp:58-98 | in every reachable state the waitset is {cancel: 1, wake: 2} plus the inverse of the table, ids above 2 |
| ExecutorGuarantees.TableIsInverse | src/rcllite/executor.cpp:58-98 | the same entry by entry, for every condition and id |
| ExecutorGuarantees.IdsAreNeverReused | src/rcllite/executor.hpp:73-76 | an id present at two points of a run names the same entry at both, and an id once gone stays gone |
| ExecutorGuarantees.LookupsAreFaithful | src/rcllite/executor.cpp:126-147 | whatever other threads do between the lookups of a batch, a lookup finds the entity attached under that id when the batch was captured, or nothing |
| ExecutorGuarantees.DispatchDrains | src/rcllite/executor.cpp:133-152 | along every run a dispatch takes the data of exactly the read condition that is in the waitset under the reported id now, and that condition was attached under it when the batch was captured |
| ExecutorGuarantees.NoEntityIsLost | src/rcllite/executor.cpp:100-118 | at every wait each listed node is fully attached with its epoch recorded, or its attached change guard is triggered or about to be |
| ExecutorGuarantees.WaitCanReport | src/rcllite/executor.cpp:117-122 | a wait with a ready attachment is able to report it |
| ExecutorCancel.ChangeIsReported | src/rcllite/executor.cpp:154-160 | once every thread that changed a listed node has triggered its guard, the wait can report that node |
| ExecutorCancel.CancelIsHeard | src/rcllite/executor.cpp:164-188 | over every run, at a wait after a completed cancel that no spin has returned for, the wait can report the cancel guard iff no single round took it since; then, when all attachments fit, every report contains it |
| ExecutorCancel.HearingMeansRaised | src/rcllite/executor.cpp:117-131 | a wait can report the cancel guard iff it is triggered |
| ExecutorCancel.HeardSpinReturns | src/rcllite/executor.cpp:126-131 | a spin that has heard of a cancel never enters another wait before it returns |
| ExecutorCancel.CancelledSpinWaitsNoMore | src/rcllite/executor.cpp:164-169 | from a wait with a completed cancel no single round took, and at most 64 attachments, no run enters another wait before spin returns |
| ExecutorCancel.CancelledSpinCanReturn | src/rcllite/executor.cpp:164-169 | from every such wait the executing thread can return by its own steps |
| ExecutorCancel.OneCancelEndsTwoSpins | src/rcllite/executor.cpp:164-188 | a run from the initial state with one cancel and two returns, so the bound is tight |
| ExecutorLostCancel.SwallowedMeansTaken | src/rcllite/executor.cpp:126-131 | until the next completed cancel and the next return, a cancel is swallowed iff some turn of a round of spin_once or spin_some takes the guard |
| ExecutorLostCancel.CancelIsLostIffTaken | src/rcllite/executor.cpp:164-188 | from the completion of any cancel on, along every run without another completion or a return: a wait can report the cancel iff no single round has taken its trigger |
| ExecutorLostCancel.SingleRoundSwallowsCancel | src/rcllite/executor.cpp:171-183 | from every idle state with the cancel guard triggered, one single round can take it and leave the next spin waiting, unable to hear of the cancel, with no cancel issued or completed and no spin returned in between |
| ExecutorCancel.ReturnsAreBounded | src/rcllite/executor.cpp:164-188 | over every run spin returns at most twice per cancel, so never without one |
| ExecutorCancel.StaleCancelEndsSpin | src/rcllite/executor.cpp:164-188 | a spin can return without a cancel issued since it started iff the cancel guard is still triggered or an earlier cancel is between its two steps |
| ExecutorCancel.AReconciliation | src/rcllite/executor.cpp:58-98 | the relation the steps use is never empty: a reconciliation always exists |
| Text.AscendingIsUnique | src/rcllite/parameter.cpp:273-284 | a strictly ascending list is determined by its elements |
| Text.LessMeans | src/rcllite/parameter.cpp:273 | the order of the listing: up to some index the strings agree, and there the smaller one ends or has the smaller character |
| Text.InOrder | src/rcllite/parameter.cpp:273-284 | the elements of a set in strictly ascending order |
| Text.Tokenize | src/rcllite/parameter.cpp:76-84 | the getline loop yields the tokens, none after a final dot |
| Parameters.ReplayReproduces | src/rcllite/parameter.cpp:135-196 | over every run, replaying the events gives the store's value of a declared parameter iff its type is not NotSet |
| Parameters.EventOrigin | src/rcllite/parameter.cpp:135-196 | over every run, each event was published by one accepted operation, and is marked new iff the parameter was undeclared or NotSet just before |
| Parameters.NewMeansFirst | src/rcllite/parameter.cpp:167-196 | in a run that never sets a parameter to NotSet, new marks exactly the first event of each parameter |
| Parameters.KeysGrow | src/rcllite/parameter.cpp:135-179 | no operation undeclares a parameter or retracts an event |
| Parameters.AtomicSetSucceeds | src/rcllite/parameter.cpp:303-328 | once the check has passed, every single set succeeds whatever other threads declare and set in between |
| Parameters.CheckIsExact | src/rcllite/parameter.cpp:307-321 | without interference all single sets succeed iff the check passes |
| Parameters.LastAssignmentWins | src/rcllite/parameter.cpp:322-324 | without interference the last assignment to each name wins and nothing else changes |
| ParameterCore.ParameterCore.Declare | src/rcllite/parameter.cpp:135-147 | declares an unused non-empty name and publishes it as new if it has a value; otherwise reports which rule was broken and changes nothing |
| ParameterCore.ParameterCore.Set | src/rcllite/parameter.cpp:167-179 | assigns a declared parameter and publishes it, new iff it was NotSet; otherwise changes nothing |
| ParameterCore.ParameterCore.HandleSet | src/rcllite/parameter.cpp:288-301 | the state is the fold of the sets, and each result tells whether its parameter was declared before the request |
| ParameterCore.ParameterCore.HandleSetAtomically | src/rcllite/parameter.cpp:303-328 | all parameters are set, or none is and no event is published and the reason lists the undeclared names |
| Parameters.MissingNames | src/rcllite/parameter.cpp:307-316 | the reason lists every undeclared name, in the order of the request, separated by commas |
| ParameterCore.ParameterCore.IsListed | src/rcllite/parameter.cpp:249-267 | the prefix loop decides by the first matching prefix and the depth below it; without prefixes by the depth alone |
| ParameterCore.ParameterCore.CollectCuts | src/rcllite/parameter.cpp:278-283 | the dot loop adds exactly what precedes some dot of the name |
| ParameterCore.ParameterCore.HandleList | src/rcllite/parameter.cpp:240-286 | names are exactly the selected ones, prefixes exactly what precedes some dot of a listed name, both strictly ascending |
| Hierarchy.ListedByDots | src/rcllite/parameter.cpp:265-267 | without prefixes and with a depth limit a name is listed iff it has fewer dots than the limit, a final dot not counted |
| Hierarchy.CloseByDots | src/rcllite/parameter.cpp:259-262 | below a matching prefix, the depth counts the dots of what follows the prefix and its dot |
| Hierarchy.PrefixMeans | src/rcllite/parameter.cpp:253-263 | what a prefix matches, in terms of the strings: nothing but itself and what starts with it and a dot |
| Hierarchy.FirstMatchDecides | src/rcllite/parameter.cpp:251-264 | the first prefix that matches decides, and without one the name is not listed |
| Hierarchy.MatchesMeans | src/rcllite/parameter.cpp:253-263 | what a prefix matches, for every prefix and name: a prefix without a final dot matches itself and what starts with it and a dot |
| Hierarchy.RecursiveIsOrderless | src/rcllite/parameter.cpp:250-264 | with depth 0 a name is listed iff some prefix matches, in any order |
| Hierarchy.UnanimousMeans | src/rcllite/parameter.cpp:250-264 | where the matching prefixes agree, a name is within the depth iff some prefix admits it on its own |
| Hierarchy.OrderlessIffUnanimous | src/rcllite/parameter.cpp:250-264 | for every name, prefix list and depth: all orders of the prefixes decide alike iff the prefixes matching the name agree on whether it is close enough |
| Hierarchy.OrderlessIffNoneNested | src/rcllite/parameter.cpp:250-264 | for every prefix list and depth limit: all orders decide alike on every name iff no prefix's tokens are a proper start of another's |
| Names.NodeNameIsValid | src/rcllite/names.cpp:45-56 | a node name is a valid fully qualified name iff its namespace has no empty token |
| Names.NodeNameIsInjective | src/rcllite/names.cpp:45-56 | a node name determines namespace and name |
| Names.ExpandedIsValid | src/rcllite/names.cpp:75-91 | an expanded topic can be mangled iff the absolute topic, or the namespace of a relative one, was valid |
| Names.EdgeNameInvertsMangling | src/rcllite/names.cpp:30-43 | for every valid name the observer recovers name and kind from the DDS topic, except the root and the plumbing topics, and reply topics give no edge |
| Names.EdgeNameMeans | src/rcllite/graph.cpp:408-430 | which DDS topics give an edge of which name |
| Names.MangledNames | src/rcllite/names.cpp:30-43 | what can be mangled and to what, for topics, requests and replies |
| Names.NodeNameMeans | src/rcllite/names.cpp:45-56 | when a node name is refused, and that it is the namespace, a slash unless that is the root, and the name |
| Names.ExpandedTopic | src/rcllite/names.cpp:75-91 | an absolute topic is kept, a relative one put below the namespace, one with a slash inside refused |
| Names.EdgeNameIsInjective | src/rcllite/graph.cpp:409-424 | different DDS topics never share an edge name of one kind |
| Names.EnclaveRoundTrip | src/rcllite/graph.cpp:61-71 | the observer reads back the enclave a participant advertises iff it has no semicolon |
| Names.EnclaveIsBetween | src/rcllite/graph.cpp:61-71 | in any user data the enclave is what follows the first "enclave=" up to the next semicolon or the end |
| Graph.KnownMeansAnnounced | src/rcllite/graph.cpp:186-254 | after any run an endpoint is known, with exactly these properties, iff it was announced so and neither it nor its participant was withdrawn or replaced since |
| Graph.ParticipantMeansAnnounced | src/rcllite/graph.cpp:200-227 | after any run a participant is known, with its enclave, iff its latest event announced it so |
| Graph.DiscoveryMeansAnnounced | src/rcllite/graph.cpp:213-269 | after any run the nodes of a participant are those of its latest message, unless it departed since |
| Graph.DepartedIsForgotten | src/rcllite/graph.cpp:213-227 | from its departure until something of it is announced again, nothing of a participant is known |
| Graph.LogsAreRecent | src/rcllite/graph.cpp:271-285 | after any run the ring holds exactly the 512 most recent records |
| Graph.LogsAreTheEnd | src/rcllite/graph.cpp:271-285 | the ring is the end of everything logged, in order, 512 records long or all there are |
| Graph.GuidHexIsInjective | src/rcllite/graph.cpp:49-58 | anonymous participants never share a name |
| Graph.GuidHexAt | src/rcllite/graph.cpp:49-58 | two lower-case hexadecimal digits per octet, the high half first |
| Graph.OwnerIsFirstListed | src/rcllite/graph.cpp:291-308 | the first node with a writer or reader gid whose first 16 octets are the endpoint's GUID owns it, and there is no owner iff that node's name is invalid |
| Graph.UnlistedBelongsToParticipant | src/rcllite/graph.cpp:309-313 | an endpoint no gid starts with belongs to the enclave if there is one, else to a name made of the participant's GUID |
| GraphMonitor.GraphMonitor.PollParticipants | src/rcllite/graph.cpp:186-230 | a batch of samples has the effect of its events in order |
| GraphMonitor.GraphMonitor.DropEndpoints | src/rcllite/graph.cpp:220-226 | the erase loop removes exactly the endpoints of the participant |
| GraphMonitor.GraphMonitor.PollBuiltin | src/rcllite/graph.cpp:232-254 | a batch of samples has the effect of its events in order |
| GraphMonitor.GraphMonitor.PollDiscovery | src/rcllite/graph.cpp:256-269 | decodes the payload; an accepted message replaces the entry of its participant, a rejected one changes nothing, and what the reader throws passes through |
| GraphMonitor.AnnouncedIsLearned | src/rcllite/graph.cpp:256-269 | what was serialized and padded in transit is decoded to the very message |
| GraphMonitor.GraphMonitor.PollRosout | src/rcllite/graph.cpp:271-285 | decodes the payload; an accepted record is appended and the oldest ones beyond 512 dropped, a rejected one changes nothing, and what the reader throws passes through |
| GraphMonitor.GraphMonitor.ResolveNode | src/rcllite/graph.cpp:289-314 | the owner of the endpoint, which Graph.OwnerIsFirstListed and Graph.UnlistedBelongsToParticipant spell out; fails iff the owning node's name is invalid |
| GraphMonitor.GraphMonitor.ResolveLive | src/rcllite/graph.cpp:369-376 | attributes exactly the endpoints of other participants, or fails iff one owner cannot be named |
| GraphMonitor.GraphMonitor.TakeSnapshot | src/rcllite/graph.cpp:345-430 | edges are exactly the join, topics exactly those of live endpoints with exactly their writers and readers, nodes exactly the noted names with the best source each, and it throws iff a participant other than the observer announces a node with an invalid name |
| GraphMonitor.NodesMean | src/rcllite/graph.cpp:352-397 | how each node of a snapshot is known: announced before enclave before made up for an unexplained endpoint |
| GraphMonitor.TopicsMean | src/rcllite/graph.cpp:399-406 | the topics are those of endpoints that are not the observer's, each with the owners of its writers and of its readers |
| GraphMonitor.EdgesAreTheJoin | src/rcllite/graph.cpp:408-430 | the edges are the pairs of a writer and a reader of one topic, none of them the observer's, between their owners |
| GraphMonitor.Aggregate | src/rcllite/graph.cpp:399-406 | per topic exactly the nodes that write and that read it |
| GraphMonitor.CollectEdges | src/rcllite/graph.cpp:408-430 | the loops emit exactly the pairs of writers and readers of topics that name an edge |
| GraphMonitor.EdgeMeans | src/rcllite/graph.cpp:408-430 | an edge exists iff its nodes write and read the one DDS topic its name and kind stand for |
| GraphMonitor.RosEdges | src/rcllite/graph.cpp:408-430 | the same in ROS names: publishers and subscriptions of a topic, clients and servers of a service |
| Json.EscapeString | src/rcllite/json_writer.hpp:14-53 | the character loop builds the literal |
| Json.EscapeTable | src/rcllite/json_writer.hpp:18-46 | what is written for each character |
| Json.ReaderTable | src/rcllite/json_writer.hpp:18-40 | what the reader makes of the short escapes, as section 7 of RFC 8259 has them |
| Json.LiteralReadsBack | src/rcllite/json_writer.hpp:14-53 | a reader of section 7 of RFC 8259 takes exactly the literal and returns the string, whatever follows |
| Json.LiteralIsInjective | src/rcllite/json_writer.hpp:14-53 | different strings never share a literal, not even as a prefix |
| Json.DumpNames | src/rcllite/graph.cpp:432-441 | the loop builds the array of literals |
| Json.NamesReadBack | src/rcllite/graph.cpp:432-441 | a reader of the array grammar returns the same list of names |

## Left out

- LengthGuard.RoundTripsIffSolid: for a schema that fails the condition, requires that its shortest value with the offending sequence stays below the range of uint32; a schema with 4 GB of fixed arrays behind the sequence does round-trip, because no count exceeds what remains.
- Cdr.CdrReader.ReadPrim: a bool octet other than 0 and 1 is read as true, as the Python reader does; in C++ it is undefined.
- Generated.Deserialize: what a rejected message leaves in the caller's struct is not modelled.
- PyCodec.PyWriter.String: `struct.pack` range errors are not modelled, and strings are their octets.
- PyCodec.PyReader.String: the UTF-8 decoding of python/pyrcllite/messages.py:135, which raises on octets that are no text, is not modelled.
- ServiceRuns.OutcomesAreFinal: the race between the timeout of a call and its completion at the granularity of the lock is excluded by the atomic steps.
- Executor.Executor.SpinSome: callbacks that create entities, send requests or enqueue data while samples are taken are not modelled, and neither are transport errors.
- ExecutorGuarantees.NoEntityIsLost: assumes that a reconciliation reads entities and epoch of a node in one step.
- ParameterCore.ParameterCore.HandleList: the model sorts the selected names as a set; the names of a map are distinct. Copying between the two value types, describing, and reading types and values are not modelled.
- GraphMonitor.GraphMonitor.TakeSnapshot: the type name of a topic, and the JSON text other than string literals and arrays of names, are not modelled.
- GraphMonitor.GraphMonitor.PollDiscovery: the definitions of the two ROS message types are not part of the repository, so their schemas and field accessors are parameters of the observer.
- Json.LiteralReadsBack: the reader refuses escaped surrogate pairs, which the writer never emits. Octets of a string are characters here.
- Names.ExpandedIsValid: the mangling of type names is not modelled.
- Iteration over unordered containers is in arbitrary order.
- Big-endian CDR and wstring, which the library refuses or does not have.
- CycloneDDS itself, QoS, RAII wrappers, configuration strings, the FFI layer, publishers, polling for services, logging and the graph executor.
- Text of the generated headers and the parsing of message definitions.
