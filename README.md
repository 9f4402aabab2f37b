# mongo-java-driver core, modelled in Dafny

This project models six parts of the 2013 MongoDB Java driver and proves properties of them:

- **Object pool** (`ObjectPool`). `BlockingQueueObjectPool` is an idle FIFO queue plus a counter of live objects. `get` either creates an object or polls the queue head. `done` either requeues an object or discards it. The pool is a class whose methods are proved against the pure step functions `GetStep` and `DoneStep`. Lemmas about those functions give the retention rule and counter consistency over any sequence of calls.
- **Encoder registry** (`Encoders`). A class resolves to an encoder through a first-match chain: primitive codecs, the array codec, an exact table entry, the Iterable entry, the Map entry, and finally the Object entry. `register` overrides a single entry, and may store `null`, which later lookups treat as no entry. Classes are identified by name, as Java classes are by identity.
- **Command-with-payload message** (`Wire`). The OP_QUERY body is an int32 0, the collection name as a C string, an int32 0, an int32 -1, and then the command. The command is removed again from the buffer when it exceeds the server's maximum document size. A parser of the written body gives a round-trip proof for the layout.
- **Command-with-payload protocol** (`Protocol`). `execute` sends one message and receives one reply correlated by the message id. It interprets the reply's first document as the command result and fails when that result is not ok. It closes the buffers, and closes the connection when asked to, on every path.
- **Find-and-update** (`FindAndModify`, `Validators`). The fluent builder renders an ordered command document. The validator requires some field name of the update document to begin with `$`.
- **Find query** (`Queries`). This covers the `numberToReturn` rule, accumulation of flags, rejection of null arguments, and the copy constructor.

`Wrappers` holds the Option, Result and Outcome types. In the model, Java `null` arguments and results are `None`, and thrown exceptions are `Failure`/`Fail` values. `Documents` holds ordered documents: a field list in insertion order, whose `Put` replaces a value in place or appends a new field.

## Where the code departs from its own documentation

The model follows the code in each of these cases.

- The Javadoc of `DEFAULT_MAX_WAIT_SECS` (BlockingQueueObjectPool.java line 167) says -1 means "wait forever". The documentation of `maxTotal` (line 43) says `get()` blocks when no objects are left. In the code, a pool `get` on an empty queue at capacity does not block. The poll at line 119 uses `_maxWait`, which is -1 seconds. A non-positive timeout makes the poll return `null` at once, so `GetStep` yields `None`. The `waitTime` argument of `get(long)` is ignored.
- `get` creates an object only when `totalSize < _maxSize` (line 114). A pool with a negative (uncapped) `maxTotal` therefore never creates objects in `get` (`GetNeverCreatesWhenUncapped`).
- The documentation of `maxToKeep` (line 42) says a negative value means "no limit". The retention test in `done` reads `_maxSize < 0`, not `_maxIdle < 0`. So a capped pool with a negative `maxToKeep` discards every valid object (`NegativeMaxIdleDiscardsWhenCapped`).
- `_minSize` is never assigned, so `init` creates nothing. The constructor also forces `_debug` on, whatever argument is passed.
- An oversized command is removed from the buffer, but the fixed fields written before it stay (`OversizedDocumentLeavesNoBytes`). The message is then not sent.

## Model

| member | source | states |
|---|---|---|
| ObjectPool.GetStep | src/main/com/mongodb/util/BlockingQueueObjectPool.java:114-119 | An object is handed out iff the queue is non-empty or there is room under maxTotal; handing one out raises numActive by one; otherwise nothing changes; the live total grows only by the created object and never past maxTotal; any other object handed out came from the queue |
| ObjectPool.DoneStep | src/main/com/mongodb/util/BlockingQueueObjectPool.java:72-82 | numActive drops by one; the object is either appended to the queue or dropped from the count, and only a valid object is queued |
| ObjectPool.CountersAgree | src/main/com/mongodb/util/BlockingQueueObjectPool.java:129-135 | In a consistent pool, numIdle is the queue length, numIdle + numActive is the live total, and neither is negative |
| ObjectPool.GetCreatesWhenEmptyAndRoom | src/main/com/mongodb/util/BlockingQueueObjectPool.java:114-116 | With an empty queue and room under maxTotal, get hands out the new object without queueing it and counts it |
| ObjectPool.GetPollsHead | src/main/com/mongodb/util/BlockingQueueObjectPool.java:118-119 | With a non-empty queue, get returns the head and leaves the rest in order, with the count unchanged |
| ObjectPool.GetNeverCreatesWhenUncapped | src/main/com/mongodb/util/BlockingQueueObjectPool.java:114 | With a negative maxTotal, get never creates, and on an empty queue it yields nothing |
| ObjectPool.GetAtCapacityYieldsNothing | src/main/com/mongodb/util/BlockingQueueObjectPool.java:118-119 | On an empty queue at capacity, get returns no object and changes nothing (the poll does not wait) |
| ObjectPool.DoneInvalidDiscards | src/main/com/mongodb/util/BlockingQueueObjectPool.java:73-74 | An invalid object is dropped from the count and the queue is untouched |
| ObjectPool.DoneValidRequeuesOrDiscards | src/main/com/mongodb/util/BlockingQueueObjectPool.java:76-80 | A valid object is appended to the queue when the pool is uncapped or numIdle < maxIdle, and discarded otherwise |
| ObjectPool.NegativeMaxIdleDiscardsWhenCapped | src/main/com/mongodb/util/BlockingQueueObjectPool.java:76 | Because the test reads maxSize, a capped pool with negative maxIdle discards every valid object |
| ObjectPool.UncappedKeepsEveryValidObject | src/main/com/mongodb/util/BlockingQueueObjectPool.java:76-77 | An uncapped pool queues every valid object whatever maxIdle says |
| ObjectPool.GetPreservesConsistency | src/main/com/mongodb/util/BlockingQueueObjectPool.java:105-127 | get keeps 0 <= numIdle <= totalSize <= maxTotal (when capped) |
| ObjectPool.DonePreservesConsistency | src/main/com/mongodb/util/BlockingQueueObjectPool.java:72-82 | Returning an object that is on loan keeps the counters consistent |
| ObjectPool.RunPreservesConsistency | src/main/com/mongodb/util/BlockingQueueObjectPool.java:68-127 | Any sequence of get, done and remove that only returns loaned objects keeps the counters consistent |
| ObjectPool.TwoLiveOneIdleScenario | src/main/com/mongodb/util/BlockingQueueObjectPool.java:72-127 | With maxTotal 2 and maxToKeep 1, two gets create two objects and a third gets nothing; returning both keeps the first and discards the second |
| ObjectPool.FifoOrder | src/main/com/mongodb/util/BlockingQueueObjectPool.java:77-119 | Objects returned to an uncapped pool come out in the order they went in |
| ObjectPool.BlockingQueueObjectPool.constructor | src/main/com/mongodb/util/BlockingQueueObjectPool.java:46-53 | Stores the name and limits, forces debug on, keeps minSize 0 and maxWait -1, and starts empty and consistent |
| ObjectPool.BlockingQueueObjectPool.Init | src/main/com/mongodb/util/BlockingQueueObjectPool.java:56-59 | Appends minSize created objects to the queue in creation order and counts each one; the settings are unchanged |
| ObjectPool.BlockingQueueObjectPool.NewInstance | src/main/com/mongodb/util/BlockingQueueObjectPool.java:61-65 | Counts one object and appends it to the queue |
| ObjectPool.BlockingQueueObjectPool.Done | src/main/com/mongodb/util/BlockingQueueObjectPool.java:68-70 | The new state is DoneStep with the verdict of the validate hook; consistency is kept for a loaned object |
| ObjectPool.BlockingQueueObjectPool.DoneWithValidity | src/main/com/mongodb/util/BlockingQueueObjectPool.java:72-82 | The new state is DoneStep of the old state; consistency is kept for a loaned object |
| ObjectPool.BlockingQueueObjectPool.Remove | src/main/com/mongodb/util/BlockingQueueObjectPool.java:88-90 | Discards the object: the queue is unchanged and the count drops by one |
| ObjectPool.BlockingQueueObjectPool.Get | src/main/com/mongodb/util/BlockingQueueObjectPool.java:101-103 | The same as get(maxWait): new state and result are GetStep of the old state; consistency is kept |
| ObjectPool.BlockingQueueObjectPool.GetWithin | src/main/com/mongodb/util/BlockingQueueObjectPool.java:105-127 | New state and result are GetStep of the old state, whatever the wait time; consistency is kept |
| ObjectPool.BlockingQueueObjectPool.NumActive | src/main/com/mongodb/util/BlockingQueueObjectPool.java:129-131 | numActive + numIdle == totalSize, and in a consistent pool it lies in 0..totalSize |
| ObjectPool.BlockingQueueObjectPool.NumIdle | src/main/com/mongodb/util/BlockingQueueObjectPool.java:133-135 | The queue length, in 0..totalSize for a consistent pool |
| Encoders.DefaultTable | driver/src/main/org/mongodb/codecs/EncoderRegistry.java:45-52 | The constructor's table has exactly the CodeWithScope, Iterable, DBRef, Document and Map entries, and no Object entry |
| Encoders.EncoderForCollection | driver/src/main/org/mongodb/codecs/EncoderRegistry.java:83-90 | An Iterable class takes the Iterable entry; a non-Iterable Map class takes the Map entry; anything found is an Iterable or Map class and comes from the table |
| Encoders.Resolve | driver/src/main/org/mongodb/codecs/EncoderRegistry.java:55-73 | The result is the primitive codecs, the array codec or a table entry; there is none only when no rule applies and there is no Object entry |
| Encoders.ResolveValue | driver/src/main/org/mongodb/codecs/EncoderRegistry.java:75-81 | A null value takes the null encoder |
| Encoders.ValueResolvesByItsClass | driver/src/main/org/mongodb/codecs/EncoderRegistry.java:78-79 | A non-null value resolves as its class does |
| Encoders.PrimitiveAlwaysWins | driver/src/main/org/mongodb/codecs/EncoderRegistry.java:57-58 | A class the primitive codecs accept resolves to them even when the table has an entry for it |
| Encoders.ArrayClassesUseArrayCodec | driver/src/main/org/mongodb/codecs/EncoderRegistry.java:59-60 | Non-primitive array classes take the array codec |
| Encoders.ExactEntryWins | driver/src/main/org/mongodb/codecs/EncoderRegistry.java:62 | An exact entry beats the collection fallbacks |
| Encoders.IterableFallback | driver/src/main/org/mongodb/codecs/EncoderRegistry.java:62-90 | An unregistered Iterable class takes the Iterable entry, even if it is also a Map |
| Encoders.MapFallback | driver/src/main/org/mongodb/codecs/EncoderRegistry.java:86-87 | An unregistered non-Iterable Map class takes the Map entry |
| Encoders.ObjectIsLastResort | driver/src/main/org/mongodb/codecs/EncoderRegistry.java:67-69 | When no rule matches, the result is the Object entry, or nothing |
| Encoders.DefaultTableLeavesPlainClassesUnresolved | driver/src/main/org/mongodb/codecs/EncoderRegistry.java:45-73 | With the constructor's table, a class no rule matches has no encoder |
| Encoders.EntryFollowsTheName | driver/src/main/org/mongodb/codecs/EncoderRegistry.java:49-62 | Any description named DBRef resolves to the DBRef encoder with the constructor's table: the entry is found by the class name alone |
| Encoders.RegisterAffectsOnlyThatClass | driver/src/main/org/mongodb/codecs/EncoderRegistry.java:99-101 | Registering a class other than Iterable, Map or Object changes resolution of no other class |
| Encoders.OverrideLeavesSiblingOnFallback | driver/src/main/org/mongodb/codecs/EncoderRegistry.java:62-101 | Overriding one Iterable class gives it the new encoder while a sibling Iterable class keeps the fallback |
| Encoders.NullRegistrationFallsThrough | driver/src/main/org/mongodb/codecs/EncoderRegistry.java:62-64 | An entry holding null resolves as a missing entry does, so an Iterable class registered with null takes the Iterable entry |
| Encoders.CollectionsAlwaysResolve | driver/src/main/org/mongodb/codecs/EncoderRegistry.java:47-90 | While the built-in entries are present, every Iterable or Map class resolves |
| Encoders.Replaced | driver/src/main/org/mongodb/codecs/EncoderRegistry.java:100 | `put` reports a previous value exactly when the key is present with a non-null encoder |
| Encoders.NullEntryIsNotReplaced | driver/src/main/org/mongodb/codecs/EncoderRegistry.java:100 | After registering null, the key is present but a further register reports no previous encoder; after registering an encoder it reports one |
| Encoders.EncoderRegistry.constructor | driver/src/main/org/mongodb/codecs/EncoderRegistry.java:45-52 | Installs the default table |
| Encoders.EncoderRegistry.Get | driver/src/main/org/mongodb/codecs/EncoderRegistry.java:55-73 | The result comes from the primitives, the array codec or the table, and every collection class resolves |
| Encoders.EncoderRegistry.GetForValue | driver/src/main/org/mongodb/codecs/EncoderRegistry.java:75-81 | null takes the null encoder; any other value resolves as its class |
| Encoders.EncoderRegistry.Register | driver/src/main/org/mongodb/codecs/EncoderRegistry.java:99-101 | Stores the encoder, null included, under the class name and leaves every other entry; reports whether the old entry held a non-null encoder; every collection class still resolves unless null is registered for Iterable or Map |
| Wire.Int32RoundTrip | driver/src/main/org/mongodb/operation/protocol/CommandWithPayloadMessage.java:42-46 | An int32 written as four little-endian bytes reads back unchanged |
| Wire.CStringLength | driver/src/main/org/mongodb/operation/protocol/CommandWithPayloadMessage.java:43 | The length found is the position of the first zero byte, and None means there is no zero byte |
| Wire.CStringLengthOf | driver/src/main/org/mongodb/operation/protocol/CommandWithPayloadMessage.java:43 | A name without zero bytes written as a C string is found again whatever follows it |
| Wire.QueryBodyRoundTrip | driver/src/main/org/mongodb/operation/protocol/CommandWithPayloadMessage.java:41-47 | Parsing the body gives flags 0, the name, skip 0, numberToReturn -1 and the command bytes |
| Wire.CommandOutcome | driver/src/main/org/mongodb/operation/protocol/CommandWithPayloadMessage.java:55-60 | A thrown encoder fails the command encoding; otherwise the command fails exactly when what the encoder wrote exceeds the maximum |
| Wire.CommandBytesKept | driver/src/main/org/mongodb/operation/protocol/CommandWithPayloadMessage.java:55-58 | A throwing encoder's partial bytes stay, a completed command stays only if it fits, and an oversized one is truncated away |
| Wire.ThrownEncodingLeavesPartialBytes | driver/src/main/org/mongodb/operation/protocol/CommandWithPayloadMessage.java:55-64 | After a throw the buffer holds the fixed fields and the partial command, whatever its size |
| Wire.CheckSize | driver/src/main/org/mongodb/operation/protocol/CommandWithPayloadMessage.java:56-60 | A command is refused exactly when its size is strictly over the maximum, with both sizes in the error |
| Wire.MaxSizedDocumentAccepted | driver/src/main/org/mongodb/operation/protocol/CommandWithPayloadMessage.java:57 | A command of exactly the maximum size is kept and parses back after the fixed fields |
| Wire.OversizedDocumentLeavesNoBytes | driver/src/main/org/mongodb/operation/protocol/CommandWithPayloadMessage.java:54-58 | An oversized command leaves the fixed fields and no command bytes |
| Wire.OutputBuffer.WriteInt32 | driver/src/main/org/mongodb/operation/protocol/CommandWithPayloadMessage.java:42 | Appends the four bytes of the int32 |
| Wire.OutputBuffer.WriteCString | driver/src/main/org/mongodb/operation/protocol/CommandWithPayloadMessage.java:43 | Appends the name and a zero byte |
| Wire.OutputBuffer.TruncateToPosition | driver/src/main/org/mongodb/operation/protocol/CommandWithPayloadMessage.java:58 | Keeps exactly the bytes before the position |
| Wire.CommandWithPayloadMessage.constructor | driver/src/main/org/mongodb/operation/protocol/CommandWithPayloadMessage.java:33-38 | An OP_QUERY message over the given name, command and encoder |
| Wire.CommandWithPayloadMessage.EncodeMessageBody | driver/src/main/org/mongodb/operation/protocol/CommandWithPayloadMessage.java:41-49 | Appends the fixed fields and the command bytes kept; never returns a follow-on message; fails with the encoder's exception or with the sizes otherwise |
| Wire.CommandWithPayloadMessage.EncodeCommand | driver/src/main/org/mongodb/operation/protocol/CommandWithPayloadMessage.java:51-65 | Appends the command when it fits; an oversized command leaves the buffer exactly as before with both sizes in the error; a throwing encoder fails and leaves what it wrote |
| Wire.OversizeThenFit | driver/src/main/org/mongodb/operation/protocol/CommandWithPayloadMessage.java:54-58 | A refused command leaves no residue: a fitting command encoded next appends exactly its own bytes |
| Wire.ThrowThenFit | driver/src/main/org/mongodb/operation/protocol/CommandWithPayloadMessage.java:55-64 | After a thrown encoding, a fitting command encoded next lands after the partial bytes |
| Protocol.ReplyOutcome | driver/src/main/org/mongodb/operation/protocol/CommandWithPayloadProtocol.java:81-100 | A reply to another id fails with both ids; a success comes from a reply to this id with documents, is built from the first document and is ok; a command failure carries a not-ok response |
| Protocol.ExecuteOutcome | driver/src/main/org/mongodb/operation/protocol/CommandWithPayloadProtocol.java:58-100 | A throwing encoder fails the execution; an oversized command fails with both sizes; a success means the command was encoded and fit, the send went through and a reply arrived; an id mismatch names this request's id |
| Protocol.SuccessMeansOkFirstDocument | driver/src/main/org/mongodb/operation/protocol/CommandWithPayloadProtocol.java:58-99 | A success means the command fit, was sent, a reply to this id arrived with documents, and the result is built from the first document and is ok |
| Protocol.NotOkIsCommandFailure | driver/src/main/org/mongodb/operation/protocol/CommandWithPayloadProtocol.java:92-97 | A not-ok first document fails with that very command result |
| Protocol.ErrorReplyExposesMessage | driver/src/main/org/mongodb/operation/protocol/CommandWithPayloadProtocol.java:92-97 | A reply `{ok: 0, errmsg: "x"}` fails and the failure carries the errmsg |
| Protocol.MismatchedReplyRejected | driver/src/main/org/mongodb/operation/protocol/CommandWithPayloadProtocol.java:82-85 | A reply to another message id is rejected with both ids |
| Protocol.CommandWithPayloadProtocol.constructor | driver/src/main/org/mongodb/operation/protocol/CommandWithPayloadProtocol.java:44-56 | Keeps the database, command, encoder, maximum size, connection and close flag |
| Protocol.CommandWithPayloadProtocol.Namespace | driver/src/main/org/mongodb/operation/protocol/CommandWithPayloadProtocol.java:52 | The namespace is the database name followed by ".$cmd"; a database name without NUL bytes gives a namespace without NUL bytes |
| Protocol.CommandWithPayloadProtocol.Execute | driver/src/main/org/mongodb/operation/protocol/CommandWithPayloadProtocol.java:58-66 | Result is the step-by-step outcome; the connection is closed on every path iff asked (or already), a throwing encoder included; at most one message sent and one id awaited; every buffer used is closed and the output buffer holds what the encoding left |
| Protocol.CommandWithPayloadProtocol.SendMessage | driver/src/main/org/mongodb/operation/protocol/CommandWithPayloadProtocol.java:68-79 | The encoded body is sent only when the encoding completed and fits; encoder, size and send failures are reported; the output buffer is closed either way, holding any partial bytes |
| Protocol.CommandWithPayloadProtocol.ReceiveMessage | driver/src/main/org/mongodb/operation/protocol/CommandWithPayloadProtocol.java:81-90 | Waits for the reply to the message's id, interprets it, and closes the response buffers either way |
| Protocol.CommandWithPayloadProtocol.CommandResultOf | driver/src/main/org/mongodb/operation/protocol/CommandWithPayloadProtocol.java:92-100 | A result is built exactly when the reply answers this id with documents; it is returned when ok and thrown as a command failure otherwise |
| Documents.Put | driver/src/main/org/mongodb/operation/FindAndUpdate.java:70-77 | A present key keeps its place and the key order is unchanged; a new key is appended; other fields are untouched |
| Documents.PutKeepsKeysUnique | driver/src/main/org/mongodb/operation/FindAndUpdate.java:70-77 | A put on a document with unique field names keeps them unique, as a map does |
| Documents.GetOfUniqueKeys | driver/src/main/org/mongodb/operation/protocol/CommandWithPayloadProtocol.java:93-95 | With unique field names, Get of a field's name returns that field's value, so the ok lookup reads the only ok field |
| Documents.PutThenGet | driver/src/main/org/mongodb/operation/FindAndUpdate.java:77 | After a put, the key reads back the value put |
| FindAndModify.IfNotNull | driver/src/main/org/mongodb/operation/FindAndUpdate.java:71-73 | A document option gives a field exactly when it is set, and the field holds that document |
| FindAndModify.IfTrue | driver/src/main/org/mongodb/operation/FindAndUpdate.java:74-75 | A flag gives a field exactly when it is true, and the field holds true |
| FindAndModify.PutPresentAppends | driver/src/main/org/mongodb/operation/FindAndUpdate.java:71-75 | Conditional puts of fresh distinct keys append exactly the present fields in order |
| FindAndModify.CommandOfLayout | driver/src/main/org/mongodb/operation/FindAndUpdate.java:70-77 | The command is the findandmodify field, the present optional fields in order, and update last |
| FindAndModify.CommandLayout | driver/src/main/org/mongodb/operation/FindAndUpdate.java:69-79 | toDocument yields findandmodify, then query, fields, sort, new, upsert as present, then update (null when unset) |
| FindAndModify.CommandFieldPresence | driver/src/main/org/mongodb/operation/FindAndUpdate.java:71-75 | query, fields and sort are present iff set; new and upsert are present iff true |
| FindAndModify.FindAndUpdate.constructor | driver/src/main/org/mongodb/operation/FindAndUpdate.java:29-31 | Records the collection name with every option unset |
| FindAndModify.FindAndUpdate.UpdateWith | driver/src/main/org/mongodb/operation/FindAndUpdate.java:33-36 | Replaces the update document and returns the same builder |
| FindAndModify.FindAndUpdate.Where | driver/src/main/org/mongodb/operation/FindAndUpdate.java:39-42 | Sets the filter and returns the same builder |
| FindAndModify.FindAndUpdate.Select | driver/src/main/org/mongodb/operation/FindAndUpdate.java:45-48 | Sets the selector and returns the same builder |
| FindAndModify.FindAndUpdate.SortBy | driver/src/main/org/mongodb/operation/FindAndUpdate.java:51-54 | Sets the sort criteria and returns the same builder |
| FindAndModify.FindAndUpdate.ReturnNew | driver/src/main/org/mongodb/operation/FindAndUpdate.java:57-60 | Sets the return-new flag and returns the same builder |
| FindAndModify.FindAndUpdate.Upsert | driver/src/main/org/mongodb/operation/FindAndUpdate.java:63-66 | Sets the upsert flag and returns the same builder |
| FindAndModify.FindAndUpdate.ToDocument | driver/src/main/org/mongodb/operation/FindAndUpdate.java:69-79 | The document is the command layout over the builder's current fields |
| Validators.HasOperatorKey | driver/src/main/org/mongodb/codecs/validators/FindAndUpdateValidator.java:10-14 | The scan finds an operator exactly when some key begins with '$' |
| Validators.Validate | driver/src/main/org/mongodb/codecs/validators/FindAndUpdateValidator.java:9-17 | Passes iff some field name begins with '$'; otherwise an illegal-argument error with the message and the document |
| Validators.EmptyRejected | driver/src/main/org/mongodb/codecs/validators/FindAndUpdateValidator.java:10-16 | The empty document is rejected |
| Validators.SingleOperatorAccepted | driver/src/main/org/mongodb/codecs/validators/FindAndUpdateValidator.java:11-12 | A document with one operator field is accepted |
| Validators.OnlyKeysMatter | driver/src/main/org/mongodb/codecs/validators/FindAndUpdateValidator.java:10-11 | Documents with the same keys get the same verdict, whatever their values |
| Validators.OperatorInMultiset | driver/src/main/org/mongodb/codecs/validators/FindAndUpdateValidator.java:10-13 | The scan's verdict depends only on the multiset of keys |
| Validators.OrderIrrelevant | driver/src/main/org/mongodb/codecs/validators/FindAndUpdateValidator.java:10-13 | Documents whose keys are permutations of each other get the same verdict |
| Queries.NumberToReturn | driver/src/test/unit/org/mongodb/operation/QueryTest.java:29-52 | The value sent is the limit or the batch size: the limit when it is negative or the batch size is zero, the batch size when there is no limit |
| Queries.PositiveLimitBoundsReturn | driver/src/test/unit/org/mongodb/operation/QueryTest.java:39-52 | With a positive limit the value sent is the limit or the batch size, never 0, never over the limit, nor over a non-zero batch size |
| Queries.SingleBatchWhenNegative | driver/src/test/unit/org/mongodb/operation/QueryTest.java:33-52 | The value sent is negative iff the limit is, or the batch size is negative and chosen |
| Queries.AddFlagsTo | driver/src/test/unit/org/mongodb/operation/QueryTest.java:60-78 | null flags are refused; otherwise the result holds the old and the new flags and nothing else |
| Queries.AddFlagsAccumulates | driver/src/test/unit/org/mongodb/operation/QueryTest.java:60-64 | Two additions equal one addition of the union, in either order |
| Queries.Find.constructor | driver/src/test/unit/org/mongodb/operation/QueryTest.java:30-58 | A fresh query has no flags, no read preference and zero limit, batch size and skip |
| Queries.Find.Copy | driver/src/test/unit/org/mongodb/operation/QueryTest.java:82-90 | The copy takes over flags, read preference, batch size, limit and skip |
| Queries.Find.Limit | driver/src/test/unit/org/mongodb/operation/QueryTest.java:39 | Sets the limit and returns the same query |
| Queries.Find.BatchSize | driver/src/test/unit/org/mongodb/operation/QueryTest.java:36 | Sets the batch size and returns the same query |
| Queries.Find.Skip | driver/src/test/unit/org/mongodb/operation/QueryTest.java:84 | Sets the skip and returns the same query |
| Queries.Find.SetReadPreference | driver/src/test/unit/org/mongodb/operation/QueryTest.java:84 | Sets the read preference and returns the same query |
| Queries.Find.AddFlags | driver/src/test/unit/org/mongodb/operation/QueryTest.java:60-78 | null is refused with nothing changed; otherwise the flags are joined |
| Queries.Find.SetOptions | driver/src/test/unit/org/mongodb/operation/QueryTest.java:66-71 | null is refused with nothing changed; otherwise the options are replaced |
| Queries.Find.GetNumberToReturn | driver/src/test/unit/org/mongodb/operation/QueryTest.java:29-52 | A positive limit bounds the value sent and a negative limit is sent as is; with no limit the batch size is sent, and with a positive limit and no batch size the limit is sent |
| Queries.NumberToReturnCases | driver/src/test/unit/org/mongodb/operation/QueryTest.java:29-52 | The eight asserted cases give 0, -10, 10, 10, 10, 10, 7, -7 |
| Queries.FlagCases | driver/src/test/unit/org/mongodb/operation/QueryTest.java:56-78 | Flags accumulate to {Tailable, SlaveOk}, and null options and null flags are refused |
| Queries.CopyCases | driver/src/test/unit/org/mongodb/operation/QueryTest.java:82-90 | A copy of a fully set query has every flag, the primary read preference, batch size 2, limit 5 and skip 1 |

## Left out

- Concurrency: the pool is modelled as sequential calls. Atomic counter operations, the blocking poll and its interruption (`IllegalStateException`), and the race the source comments on are not modelled.
- ObjectPool.BlockingQueueObjectPool.GetWithin: the wait is not modelled. `_maxWait` is private, starts at -1 (BlockingQueueObjectPool.java line 179) and is never assigned, so the poll always returns at once. A positive timeout, which the code never reaches, would wait at most that long before returning null.
- ObjectPool.BlockingQueueObjectPool: the live counter is an unbounded integer. 32-bit wrap-around of `AtomicInteger` is not modelled.
- `createNew`, `validate` and `cleanup` are hooks of subclasses. The object created and the validity verdict are parameters, and `cleanup` is never called by the pool. Leak tracking and the debug flag have no behaviour in the source and are kept only as fields.
- The three-argument `BlockingQueueObjectPool` constructor `(name, maxToKeep, maxTotal)` (lines 36-38) only delegates with both flags false, and is not modelled separately.
- `ObjectPool` (the interface), `CodecUtils`, the find-and-modify operation classes (`FindAndUpdateOperation`, `FindAndRemoveOperation`, `FindAndReplaceOperation`), `FindAndReplace` and `GetIndexesOperation` are not part of this model.
- Encoders: Java classes are described by name, array-ness and assignable supertypes. The encoder table is keyed by the name, so two descriptions with the same name are the same class; that a name fixes array-ness and supertypes is left to the caller. `PrimitiveCodecs.createDefault` is not part of this model, so the set of primitive classes is a constructor parameter. Encoders are compared by identity only, and the codecs themselves are not modelled.
- BSON encoding of the command and payload (`FindAndModifyCommandEncoder`) is a function parameter. Its result is either the bytes it wrote or an exception after some bytes. What it throws is reduced to one error, `EncoderFailed`. `writer.close()` is not modelled.
- The RequestMessage header (message length, request id allocation, response-to, op code bytes) is not part of this model. The request id is a parameter of `Execute`, and `messageStartPosition` is unused, as it is in the source.
- The collection name is taken as bytes. Its UTF-8 encoding is not modelled.
- The network is not modelled. Whether a send succeeds and which reply arrives are fixed fields of the connection. Timeouts and socket errors are reduced to one failure each.
- `ReplyMessage` and `CommandResult` are not part of this model. Decoding is reduced to "responseTo must equal the message id" plus a decode result, and `isOk` is taken as `ok` equal to `true` or `1`, with numbers as integers and no floating point. The elapsed time is not modelled.
- `Find` and `Query` are not part of this model. Their behaviour is taken from the assertions of the unit test: the `numberToReturn` rule is the simplest rule that agrees with every asserted case, and a fresh query is assumed to have no read preference. Error messages of the illegal-argument errors are not modelled; the error only names the parameter.
- Queries.NumberToReturn: limit and batch size are unbounded integers, so the absolute value of the smallest 32-bit int is not modelled.
- Validators.Validate: the message is the fixed prefix plus the document value, not its string rendering. A null document (a `NullPointerException` in the source) is not modelled.
