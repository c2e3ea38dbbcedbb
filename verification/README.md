# StarlingMonkey: a verified model of its own algorithms

StarlingMonkey wraps SpiderMonkey and the WASI host interfaces into a runtime for HTTP components. Most
of it is glue, but some parts hold algorithms and state machines of their own. This project models eight
of them in Dafny and proves what they are for.

- **Transform streams** (`TransformStream*.dfy`). Section 6 of the WHATWG Streams Standard between an
  abstract readable end (section 4) and an abstract writable end (section 5). `TransformStreamState` has
  each algorithm as a function on the state, `TransformStreamSteps` the steps of a run,
  `TransformStreamControl` and `TransformStreamFlow` the invariant, `TransformStreamTheorems` the results,
  `TransformStreamEnds` what a close, an error, an abort or a `terminate` at one end means at the other,
  `TransformStreamProgress` what moves a stream on, and `TransformStream` the object whose slots the algorithms overwrite, proved equal to the functions and
  driven through runs by a method.
- **SHA-256** (`Sha256*.dfy`). `Sha256Standard` is FIPS 180-4; the others are `picosha2.h` with its
  unmasked temporaries, hand-made length arithmetic, incremental buffering and tables of its own, proved to
  compute it for every way of cutting a message up and for a `word_t` of any width from 32 to 64 bits. The functions on
  bits, the joining of bytes into words and the shifting of the length are computed on bit-vectors; a right
  shift of a number and a mask of its low bits are written `/` and `%`. `Sha256Constants` proves that the
  tables hold the first bits of the fractional parts of the cube and square roots of the first primes.
- **Headers** (`CookieSplitter.dfy`, `Header*.dfy`, `Headers.dfy`). A map that fetches the host's values
  lazily answers as an eager multimap does, whatever changes the host refuses; a host that refuses none holds
  the same values after exactly those calls that `HeaderCalls.Plain` describes. `HeaderAnswers` says what `has`
  and `get` answer after each call.
- **The append task and the event loop** (`BodyAppend.dfy`, `EventLoop*.dfy`). The task conserves bytes and
  stands in the queue once; the loop erases by an index captured before a task runs. Its invariant is kept
  if and only if nothing at or before that index is cancelled meanwhile and no `clearTimeout` finds an append
  task. `EventLoopIntervals` follows repeating timers over runs. `EventLoop.RunAppend` proves that what `BodyAppendTask.Run` does is an outcome of the loop's model.
- **Fetch events** (`FetchEvent*.dfy`): a state that only rises and tells which response was sent, one response,
  a counted set of promises.
- **Base64** (`Base64*.dfy`): both directions, their round trips and the exact set of accepted texts.
- **The value printer** (`ValuePrinter*.dfy`): it terminates on every heap, expands exactly the reachable
  objects, each once, and the numbers of its calls and of its `<Circular>` marks are known;
  `ValuePrinterMarks` says when the marks are right, `ValuePrinterText` which text is printed for each kind.
- **The whole-body reader** (`BodyAccumulator.dfy`): the buffer's size and contents.

Where the source changes state the model is a class or a method with loops, proved against functions about
which the theorems are. A debug assertion of the source becomes either a precondition or a recorded fault;
the theorems say which faults can occur.

Seven results are about what does not hold in general:

- The assertion at `transform-stream-default-controller.cpp:226` can fail. `EnqueueAssertion` says exactly
  when, and `EnqueueAssertionCanFail` is a run of seven steps that makes it fail.
- `run_event_loop` erases the wrong task, which is then neither run nor cancelled, when a timer's callback
  clears a timer at or before its own place: `TurnKeepsInv` has the exact condition,
  `EarlyCancelLosesTask` a concrete case.
- `clearTimeout` takes any number, so it can find the task that sends a body by the handle it waits on. The
  task is erased with its body unsent, against the assertion at `host_api.cpp:557`. `CancelKeepsInv` has the
  exact condition for one call, `TurnKeepsInv` and `InvariantOverRun` for turns and runs,
  `ClearTimeoutDropsAppend` is a concrete run.
- An interval is queued as a new timer after every round, under a new id. Clearing the id that `setInterval`
  returned finds no timer once a round has run, and the interval goes on: `ClearIntervalMisses`.
- The value printer prints `<Circular>` for an object it has printed in full before, though the object may be
  in no cycle (`SharedPrintsCircular`). No mark is printed if and only if the reachable objects form a tree
  (`UnmarkedIsTree`); some mark closes a cycle if and only if a cycle can be reached (`CycleIsMarked`); so
  where no cycle can be reached the output is right exactly on trees (`AcyclicIsRightOnTrees`).
- The host is given header values untrimmed, and Set-Cookie values in pieces, so that it can hold other
  values than the map: `HostKeepsUp` has the exact condition, `NamesKeepUp` the one call after which even
  the names differ, `HostFallsBehind` a concrete case.
- The standard decoding table takes `_` for 63, as the URL table does, so a text with `_` decodes although
  RFC 4648 does not allow it: `UnderscoreDecodes`.

Assumptions about the host, each stated as a contract or an enabledness condition: streams deliver their
bytes in order and report their end only after the last; an output stream's capacity is below 2^32 and
shrinks only by writing; a read of nothing from a ready stream does not fail; a new handle is not one in
use; the host lists field names in lower case, a name with every value; a change it refuses leaves the fields
as they were (the refusal is not reported by `HttpHeaders::set`, `append` and `remove`), and a change it takes
touches the named field only.

## Model

| member | source | states |
|---|---|---|
| `TransformStreamObject.TransformStream.SetBackpressure` | builtins/web/streams/transform-stream.cpp:782-807 | resolves the old change-promise, puts a fresh one in its place and flips the flag; setting the flag to what it is is a fault |
| `TransformStreamObject.TransformStream.constructor` | builtins/web/streams/transform-stream.cpp:813-886 | the stream starts with backpressure and a first pending change-promise |
| `TransformStreamObject.TransformStream.ErrorWritableAndUnblockWrite` | builtins/web/streams/transform-stream.cpp:888-915 | clears the algorithms, errors a writable end that is still writable, lifts backpressure |
| `TransformStreamObject.TransformStream.Error` | builtins/web/streams/transform-stream.cpp:508-520 | errors the readable end, then the writable end |
| `TransformStreamObject.TransformStream.DefaultSourcePullAlgorithm` | builtins/web/streams/transform-stream.cpp:525-542 | lifts backpressure and returns the new change-promise; finding no backpressure is a fault |
| `TransformStreamObject.TransformStream.DefaultSourceCancelAlgorithm` | builtins/web/streams/transform-stream.cpp:547-562 | errors the writable end and lifts backpressure |
| `TransformStreamObject.TransformStream.DefaultSinkAbortAlgorithm` | builtins/web/streams/transform-stream.cpp:653-671 | errors both ends |
| `TransformStreamObject.TransformStream.DefaultSinkWriteAlgorithm` | builtins/web/streams/transform-stream.cpp:601-651 | under backpressure the write waits for the current change-promise, otherwise it is transformed |
| `TransformStreamObject.TransformStream.DefaultSinkWriteThenHandler` | builtins/web/streams/transform-stream.cpp:567-599 | a released write is refused on an erroring stream and transformed otherwise |
| `TransformStreamObject.TransformStream.DefaultSinkCloseAlgorithm` | builtins/web/streams/transform-stream.cpp:730-777 | calls the flush algorithm, then clears both |
| `TransformStreamObject.TransformStream.DefaultSinkCloseThenHandler` | builtins/web/streams/transform-stream.cpp:676-709 | fails on an errored readable end, closes it if it can be closed |
| `TransformStreamObject.TransformStream.DefaultSinkCloseCatchHandler` | builtins/web/streams/transform-stream.cpp:714-728 | errors both ends and fails the close |
| `TransformStreamObject.TransformStream.Enqueue` | builtins/web/streams/transform-stream-default-controller.cpp:174-233 | enqueues, errors the writable end if that fails, and raises backpressure when the readable end wants no more |
| `TransformStreamObject.TransformStream.Terminate` | builtins/web/streams/transform-stream-default-controller.cpp:238-281 | closes the readable end if it can be closed and errors the writable end |
| `TransformStreamObject.TransformStream.PerformTransform` | builtins/web/streams/transform-stream-default-controller.cpp:429-451 | calls the transform algorithm; without a transformer that enqueues the chunk |
| `TransformStreamObject.TransformStream.TransformPromiseCatchHandler` | builtins/web/streams/transform-stream-default-controller.cpp:410-424 | errors both ends and rejects the write |
| `TransformStreamObject.TransformStream.ClearAlgorithms` | builtins/web/streams/transform-stream-default-controller.cpp:456-466 | the algorithms are gone |
| `TransformStreamObject.TransformStream.Run` | builtins/web/streams/transform-stream.cpp:508-915 | the object goes wherever a run of steps goes, calling the handlers above on the way |
| `TransformStreamObject.RunNew` | builtins/web/streams/transform-stream.cpp:813-886 | a new stream driven through any steps: only the two assertions can fail, delivered chunks are a prefix of the enqueued ones, and without a transformer of the written ones |
| `TransformStreamControl.StepControl` | builtins/web/streams/transform-stream.cpp:508-915 | every step keeps the control invariant: promises, pulls, phases of the writable end, cleared algorithms |
| `TransformStreamFlow.StepFlow` | builtins/web/streams/transform-stream-default-controller.cpp:174-451 | every step keeps the order of written, transformed, enqueued and delivered chunks |
| `TransformStreamTheorems.OnlyEnqueueAssertionFails` | builtins/web/streams/transform-stream.cpp:525-807 | on every run no assertion fails and no cleared algorithm is called, except the assertion in Enqueue and with it the one in SetBackpressure; without a transformer none fails |
| `TransformStreamTheorems.EnqueueAssertion` | builtins/web/streams/transform-stream-default-controller.cpp:221-230 | the assertion in Enqueue fails if and only if backpressure is up, a pull's reaction is outstanding and the readable end wants more than this chunk |
| `TransformStreamTheorems.EnqueueAssertionCanFail` | builtins/web/streams/transform-stream-default-controller.cpp:226 | a run on which that assertion fails |
| `TransformStreamTheorems.CallsInOrder` | builtins/web/streams/transform-stream.cpp:730-751 | on every run the calls are transforms of the written chunks in order, then at most one flush after all of them |
| `TransformStreamTheorems.ClearedForGood` | builtins/web/streams/transform-stream-default-controller.cpp:456-466 | once the algorithms are cleared the writable end is past calling them and no continuation of the run calls them |
| `TransformStreamTheorems.NoLostWakeUp` | builtins/web/streams/transform-stream.cpp:612-636 | on every run each superseded change-promise was resolved once and the current one never; a blocked write waits for the current one under backpressure |
| `TransformStreamTheorems.ErrorReleases` | builtins/web/streams/transform-stream.cpp:888-915 | an error, a cancel or a terminate releases a blocked write and leaves it in flight |
| `TransformStreamTheorems.ReadReleases` | builtins/web/streams/transform-stream.cpp:525-542 | a read and the reaction to the outstanding pull release a blocked write |
| `TransformStreamTheorems.IdentityConservation` | builtins/web/streams/transform-stream-default-controller.cpp:305-324 | without a transformer what was delivered is a prefix of what was written; while both ends are open the rest is in the two queues, in order; after a close nothing is missing |
| `TransformStreamTheorems.ReadableConservation` | builtins/web/streams/transform-stream-default-controller.cpp:193-216 | for any transformer what was enqueued is what was delivered and what is queued, in order |
| `TransformStreamEnds.CloseReachesReader` | builtins/web/streams/transform-stream.cpp:676-709 | on every run, for any transformer: once the writable end is closed nothing can be enqueued; the reader sees the end, or an error, when the queue is empty; a reader that saw the end was given every chunk |
| `TransformStreamEnds.CloseDrains` | builtins/web/streams/transform-stream.cpp:699-706 | on every run, after the writable end has closed, reading on gives every chunk that was enqueued and then the end |
| `TransformStreamEnds.FulfilledFlushCloses` | builtins/web/streams/transform-stream.cpp:676-709 | a fulfilled flush closes the writable end and the readable one, at once if its queue is empty and otherwise after it, unless the readable end was errored: then the writable end is errored too |
| `TransformStreamEnds.RejectedFlushErrors` | builtins/web/streams/transform-stream.cpp:714-728 | a rejected flush errors both ends |
| `TransformStreamEnds.CloseAccepted` | builtins/web/streams/transform-stream.cpp:730-777 | a close is taken up, and an idle stream calls the flush algorithm at once |
| `TransformStreamEnds.MissingFlushPasses` | builtins/web/streams/transform-stream-default-controller.cpp:344-362 | without a flush method closing goes on at once, with one it waits for the promise; the algorithms are cleared when it returns |
| `TransformStreamEnds.ErrorReachesReader` | builtins/web/streams/transform-stream.cpp:508-520 | on every run: the algorithms are cleared only when the readable end takes no more chunks or the flush has been called; the readable end is shut only with the algorithms cleared and the writable end erroring or closing; a write that failed leaves no readable end open |
| `TransformStreamEnds.AbortReachesReader` | builtins/web/streams/transform-stream.cpp:653-671 | on every run with an abort of a writable stream: the readable end is shut as soon as the abort is no longer pending, at the latest when the writable end is errored or closed |
| `TransformStreamEnds.RejectionErrors` | builtins/web/streams/transform-stream-default-controller.cpp:410-424 | a rejected transform errors both ends and drops the queued writes |
| `TransformStreamEnds.FulfilledTransformMovesOn` | builtins/web/streams/transform-stream-default-controller.cpp:429-451 | a fulfilled transform takes its chunk off the queue; with nothing left the stream is idle and writable, and the readable end is untouched |
| `TransformStreamEnds.RejectedStartErrors` | builtins/web/streams/transform-stream.cpp:813-886 | a rejected start leaves neither end open |
| `TransformStreamEnds.CancelCloses` | builtins/web/streams/transform-stream.cpp:547-562 | a cancel closes the readable end, drops its queue and ends the writable one |
| `TransformStreamEnds.TerminateDrains` | builtins/web/streams/transform-stream-default-controller.cpp:238-281 | after `terminate` the reader is given every queued chunk in order and then the end; the writable end takes no more |
| `TransformStreamEnds.WritesAccepted` | builtins/web/streams/transform-stream.cpp:601-651 | a write is accepted exactly while the stream is writable, no close was asked for and the chunk has a size; a chunk without one errors the stream |
| `TransformStreamEnds.EnqueueDelivers` | builtins/web/streams/transform-stream-default-controller.cpp:193-216 | an enqueued chunk goes to the first waiting read or to the end of the queue; one with a bad size that no read waits for errors both ends |
| `TransformStreamEnds.MissingTransformPasses` | builtins/web/streams/transform-stream-default-controller.cpp:305-324 | without a transform method the chunk itself is enqueued; with one it is handed to it and nothing else |
| `TransformStreamEnds.BackpressureDefers` | builtins/web/streams/transform-stream.cpp:612-636 | a write to an idle stream waits for the current change-promise under backpressure and calls the transform algorithm otherwise |
| `TransformStreamProgress.DemandIsPulled` | builtins/web/streams/transform-stream.cpp:525-542 | on every run, while the readable end wants a chunk (a read waits, or the sizes queued are below the limit) a pull is outstanding, which has lifted the backpressure or will be repeated |
| `TransformStreamProgress.StartedStreamPulls` | builtins/web/streams/transform-stream.cpp:525-542 | the start turns the first demand into a pull and lifts the backpressure |
| `TransformStreamProgress.FullQueuePushesBack` | builtins/web/streams/transform-stream-default-controller.cpp:218-230 | after a chunk that leaves no demand there is backpressure |
| `TransformStreamProgress.QueueIsServed` | builtins/web/streams/transform-stream.cpp:601-651 | on every run a started stream with a write or a close queued has one in flight, one that errors has one in flight to end it, and an ended one has nothing queued and no abort pending |
| `TransformStreamProgress.StartedStreamGoesOn` | builtins/web/streams/transform-stream.cpp:813-886 | the start takes up the first queued write or, without one, the close |
| `TransformStreamProgress.ReleasedWriteRuns` | builtins/web/streams/transform-stream.cpp:567-599 | a released write calls the transform algorithm with its chunk, or is refused if the stream has begun to error; one that is not released waits |
| `TransformStreamProgress.RefusedWriteErrors` | builtins/web/streams/transform-stream.cpp:577-582 | a refused write ends the erroring; the readable end is shut by it exactly if an abort from before the erroring waits |
| `TransformStreamProgress.LateAbort` | builtins/web/streams/transform-stream.cpp:653-671 | an abort of a stream that is erroring is noted once and changes nothing else |
| `TransformStreamProgress.ControllerEnqueues` | builtins/web/streams/transform-stream-default-controller.cpp:72-85 | `enqueue` by a transformer adds the chunk if and only if the readable end is open and a read waits or the size is good |
| `TransformStreamProgress.ControllerErrors` | builtins/web/streams/transform-stream-default-controller.cpp:87-103 | `error` by a transformer errors an open readable end and ends the writable one |
| `TransformStreamProgress.ControllerTerminates` | builtins/web/streams/transform-stream-default-controller.cpp:105-119 | `terminate` by a transformer shuts the readable end without erroring it and ends the writable one |
| `Sha256Words.RotRAgrees` | deps/include/picosha2.h:66-69 | the masked rotation of an unmasked word is the 32-bit rotation, at any width from 32 to 64 |
| `Sha256Words.ChAgrees` | deps/include/picosha2.h:62 | the unmasked complement does not reach the result |
| `Sha256Words.BSig0Agrees` | deps/include/picosha2.h:71 | agrees with the function of section 4.1.2 of FIPS 180-4 |
| `Sha256Words.BSig1Agrees` | deps/include/picosha2.h:73 | agrees with the function of section 4.1.2 of FIPS 180-4 |
| `Sha256Words.SSig0Agrees` | deps/include/picosha2.h:80 | agrees with the function of section 4.1.2 of FIPS 180-4 |
| `Sha256Words.SSig1Agrees` | deps/include/picosha2.h:82 | agrees with the function of section 4.1.2 of FIPS 180-4 |
| `Sha256Words.AddLow` | deps/include/picosha2.h:110-119 | masking an unmasked sum gives the 32-bit sum of the masked words |
| `Sha256Words.JoinBytes` | deps/include/picosha2.h:91-94 | four bytes shifted into place at any width and joined with `or` are the big-endian number |
| `Sha256Words.ShiftDigit` | deps/include/picosha2.h:240-243 | the digit after shift, `or` and mask, and the outgoing carry, are the low and high parts of eight times the digit plus the carry |
| `Sha256Constants.TableIsStandard` | deps/include/picosha2.h:49-57 | the table of the source holds the constants of section 4.2.2 of FIPS 180-4 |
| `Sha256Constants.InitialIsStandard` | deps/include/picosha2.h:59-60 | the initial digest is that of section 5.3.3 |
| `Sha256Constants.FirstPrimes` | deps/include/picosha2.h:49-57 | the primes used below are primes, consecutive, and start with 2 |
| `Sha256Constants.ConstantsAreCubeRoots` | deps/include/picosha2.h:49-57 | entry i of the table is the first 32 bits of the fractional part of the cube root of the i-th prime |
| `Sha256Constants.InitialIsSquareRoots` | deps/include/picosha2.h:59-60 | word i of the initial digest is the first 32 bits of the fractional part of the square root of the i-th prime |
| `Sha256.RoundAgrees` | deps/include/picosha2.h:109-120 | a round on unmasked temporaries gives the working variables of the standard's round |
| `Sha256.ExpandBlock` | deps/include/picosha2.h:88-98 | the local array, filled from shifted and joined bytes, holds the standard's message schedule |
| `Sha256.Hash256Block` | deps/include/picosha2.h:85-132 | the eight words become the standard's next hash value and stay below 2^32 |
| `Sha256Stream.CarryOn` | deps/include/picosha2.h:222-227 | normalising a digit keeps the number the digits and the carry stand for |
| `Sha256Stream.ShiftOn` | deps/include/picosha2.h:238-244 | shifting a digit multiplies by eight what it contributes, and the carry is passed on |
| `Sha256Stream.Hash256OneByOne.Init` | deps/include/picosha2.h:175-179 | the hasher has absorbed the empty message |
| `Sha256Stream.Hash256OneByOne.AddToDataLength` | deps/include/picosha2.h:219-231 | the four digits count the bytes modulo 2^64 |
| `Sha256Stream.Hash256OneByOne.Process` | deps/include/picosha2.h:181-189 | the hasher has absorbed the message extended by the data: whole blocks are hashed, the buffer is the tail, the digits are its length |
| `Sha256Stream.Hash256OneByOne.WriteDataBitLength` | deps/include/picosha2.h:232-251 | eight bytes become the bit length modulo 2^64, most significant first, and no other byte changes |
| `Sha256Stream.PadEnd` | deps/include/picosha2.h:191-208 | the padding of section 5.1.1 of FIPS 180-4 ends in the tail, one set bit, zeros and the length |
| `Sha256Stream.Hash256OneByOne.Finish` | deps/include/picosha2.h:191-208 | the words are the hash of the padded message |
| `Sha256Stream.Hash256OneByOne.GetHashBytes` | deps/include/picosha2.h:210-216 | as much of the digest as fits is written and nothing else changes |
| `Sha256Stream.HashChunks` | deps/include/picosha2.h:181-208 | for any cutting of a message into `process` calls the digest is SHA-256 of the whole |
| `Sha256Stream.Hash256` | deps/include/picosha2.h:271-278 | the output is SHA-256 of the input |
| `Sha256Stream.FillBuffer` | deps/include/picosha2.h:287-294 | the buffer takes the next bytes, all it has room for |
| `Sha256Stream.Hash256Buffered` | deps/include/picosha2.h:281-299 | the output is SHA-256 of the input for every positive buffer size |
| `CookieSplitter.FindFirstOf` | builtins/web/fetch/headers.cpp:361-369 | the first position of one of the characters, or none |
| `CookieSplitter.CutTest` | builtins/web/fetch/headers.cpp:367-372 | a comma is a cut if and only if the first special character after it is `=` |
| `CookieSplitter.CutBeforeName` | builtins/web/fetch/headers.cpp:360-376 | a cut is a comma that a name without `=`, `,` and `;` and then `=` follow |
| `CookieSplitter.SplitCookiesString` | builtins/web/fetch/headers.cpp:349-391 | the pieces are those between the cuts |
| `CookieSplitter.SplitThenJoin` | builtins/web/fetch/headers.cpp:349-391 | joining the pieces with commas gives back any value but the empty one |
| `CookieSplitter.LaterPiecesNamed` | builtins/web/fetch/headers.cpp:371-376 | every piece but the first starts with a name and `=`, so it is not empty |
| `CookieSplitter.SplitPiece` | builtins/web/fetch/headers.cpp:349-391 | a piece that is not empty is not split again |
| `CookieSplitter.SplitWhole` | builtins/web/fetch/headers.cpp:384-388 | a value stays whole if and only if it is not empty and has no cut |
| `CookieSplitter.SplitOfJoined` | builtins/web/fetch/headers.cpp:349-391 | cookies joined with commas are split into exactly these cookies, if none has a cut of its own and all but the first start with a name and `=` |
| `HeaderText.TableIsTokenChars` | builtins/web/fetch/headers.cpp:23-43 | the table marks exactly the token characters of section 5.6.2 of RFC 9110 |
| `HeaderText.NormalizeName` | builtins/web/fetch/headers.cpp:91-133 | empty names and names with other characters are refused, the rest are lower-cased |
| `HeaderText.NormalNameIsStable` | builtins/web/fetch/headers.cpp:322-324 | normalising twice, as `get` does, changes nothing |
| `HeaderText.NameRefused` | builtins/web/fetch/headers.cpp:91-133 | a name is refused if and only if it is empty or has a character that is no token character |
| `HeaderText.NamesDifferInCase` | builtins/web/fetch/headers.cpp:119-132 | two accepted names are the same header if and only if they differ in case only; a normal name has no upper-case letter |
| `HeaderText.TrimIs` | builtins/web/fetch/headers.cpp:156-172 | trimming leaves the one stripped middle between white space |
| `HeaderText.NormalizeValue` | builtins/web/fetch/headers.cpp:135-192 | gives the trimmed text for the map and the untrimmed bytes for the host, and refuses line breaks and NUL inside |
| `HeaderText.SpaceIsHttpWhitespace` | builtins/web/fetch/headers.cpp:151-172 | what is trimmed is HTTP whitespace: tab, line feed, carriage return, space |
| `HeaderText.ValueRefused` | builtins/web/fetch/headers.cpp:174-180 | a value is refused if and only if it has a NUL, or a line break with other than white space before and after it |
| `HeaderText.HostTextAgrees` | builtins/web/fetch/headers.cpp:182-191 | the host's bytes equal the map's text if and only if there was nothing to trim |
| `HeaderCalls.HostKeepsUp` | builtins/web/fetch/headers.cpp:428-462 | from equal contents, host and map are equal after a call if and only if the call is plain |
| `HeaderCalls.HostKeepsUpOverRun` | builtins/web/fetch/headers.cpp:428-657 | host and map stay equal over every run of plain calls |
| `HeaderCalls.NamesKeepUp` | builtins/web/fetch/headers.cpp:441-450 | the names stay equal over a call if and only if it is not the first append of an empty Set-Cookie |
| `HeaderCalls.HostFallsBehind` | builtins/web/fetch/headers.cpp:182-191 | a padded value reaches the host padded, and a Set-Cookie list as two values |
| `HeaderAnswers.HasIffGet` | builtins/web/fetch/headers.cpp:543-589 | `has` is true if and only if `get` gives a text; both refuse the same names |
| `HeaderAnswers.DeleteReachesHost` | builtins/web/fetch/headers.cpp:627-657 | a deletion removes the name from the host if the map had it, and otherwise leaves the host alone |
| `HeaderAnswers.Look` | builtins/web/fetch/headers.cpp:543-589 | `has` and `get` on the object agree and change nothing that can be seen |
| `HeaderAnswers.SetThenLook` | builtins/web/fetch/headers.cpp:551-575 | after `set` the name reads as the trimmed value, and no other name reads differently; it fails exactly for a refused name or value, changing nothing |
| `HeaderAnswers.AppendThenLook` | builtins/web/fetch/headers.cpp:591-600 | after `append` an absent name reads as the trimmed value, a present one as its old text, a comma, a space and the trimmed value; no other name reads differently |
| `HeaderAnswers.DeleteThenLook` | builtins/web/fetch/headers.cpp:627-657 | after `delete` the name is absent, also from a host that refuses nothing, and no other name reads differently |
| `HeaderAnswers.MaybeAddThenLook` | builtins/web/fetch/headers.cpp:602-625 | an absent name is added, a present one keeps its text |
| `HeaderAnswers.DelazifyThenLook` | builtins/web/fetch/headers.cpp:393-424 | fetching all values changes no answer |
| `HeaderAnswers.NewThenLook` | builtins/web/fetch/headers.cpp:770-791 | a new object has exactly the names of the host, in whatever case they are asked for, with all their values |
| `HeaderAnswers.CopyThenLook` | builtins/web/fetch/headers.cpp:469-521 | a copy without a host reads as the original, trimmed, and has no other names |
| `Headers.HttpHeaders.Append` | host-apis/wasi-0.2.0/host_api.cpp:298-310 | a value is added, or the host refuses and the fields stay as they were; immutable fields always refuse |
| `Headers.Headers.constructor` | builtins/web/fetch/headers.cpp:770-791 | every name the host lists gets a null entry; the contents are the host's |
| `Headers.Headers.AppendHeaderValueToMap` | builtins/web/fetch/headers.cpp:200-234 | the value is joined to an existing one with a comma and a space |
| `Headers.Headers.RetrieveValueForHeader` | builtins/web/fetch/headers.cpp:260-292 | a null entry becomes all its values joined |
| `Headers.Headers.EnsureValueForHeader` | builtins/web/fetch/headers.cpp:306-320 | afterwards the entry is not null; a value is returned only while the headers are lazy |
| `Headers.Headers.EnsureAllHeaderValues` | builtins/web/fetch/headers.cpp:393-424 | no null entry is left and the headers are no longer lazy |
| `Headers.Headers.Get` | builtins/web/fetch/headers.cpp:543-549 | answers as the eager multimap does |
| `Headers.Headers.Has` | builtins/web/fetch/headers.cpp:577-589 | answers as the eager multimap does; what that means in terms of the calls before is stated in `HeaderAnswers` |
| `Headers.Headers.Set` | builtins/web/fetch/headers.cpp:551-575 | replaces all values, on both sides unless the host refuses; no other field of the host changes |
| `Headers.Headers.Append` | builtins/web/fetch/headers.cpp:428-462 | adds a value, and hands it or its cookies to the host; no other field of the host changes |
| `Headers.Headers.Delete` | builtins/web/fetch/headers.cpp:628-657 | removes the name, and tells the host only if the map had it; no other field of the host changes |
| `Headers.Headers.MaybeAdd` | builtins/web/fetch/headers.cpp:602-626 | appends, on both sides, unless the name as given is there |
| `Headers.Headers.Run` | builtins/web/fetch/headers.cpp:200-657 | over every run of calls the lazy headers answer as an eager multimap does, whichever changes the host refuses; a host that refused none holds the same values if every call is plain |
| `Headers.CreateCopy` | builtins/web/fetch/headers.cpp:469-521 | copying succeeds if and only if every name and combined value is acceptable, and then has one combined value for each name |
| `Headers.CopyReads` | builtins/web/fetch/headers.cpp:497-518 | a copy reads as the original's combined values, trimmed |
| `BodyAppend.HttpIncomingBody.Read` | host-apis/wasi-0.2.0/host_api.cpp:779-794 | at most the chunk size, in order; done comes without bytes and only at the end |
| `BodyAppend.HttpOutgoingBody.Capacity` | host-apis/wasi-0.2.0/host_api.cpp:384-398 | reports what the stream permits |
| `BodyAppend.HttpOutgoingBody.Write` | host-apis/wasi-0.2.0/host_api.cpp:400-416 | writes a first part within the capacity just reported, all of it if the capacity covers it |
| `BodyAppend.BodyAppendTask.constructor` | host-apis/wasi-0.2.0/host_api.cpp:467-478 | starts blocked on both bodies |
| `BodyAppend.BodyAppendTask.SetState` | host-apis/wasi-0.2.0/host_api.cpp:461-464 | nothing leaves `Done` |
| `BodyAppend.BodyAppendTask.WriteChunk` | host-apis/wasi-0.2.0/host_api.cpp:525-536 | a chunk goes out whole, or writing fails after a part of it |
| `BodyAppend.BodyAppendTask.MoveChunk` | host-apis/wasi-0.2.0/host_api.cpp:511-536 | one read of at most the capacity, then all of it is written; what was read and what was written agree unless it fails |
| `BodyAppend.BodyAppendTask.Transfer` | host-apis/wasi-0.2.0/host_api.cpp:511-553 | the loop reads on while reads deliver and the outgoing body takes more, and stops for the reason its state gives |
| `BodyAppend.BodyAppendTask.Run` | host-apis/wasi-0.2.0/host_api.cpp:480-554 | unless it fails, all bytes read have been written in order and once; it ends with the whole source written, or blocked and queued again once: on the outgoing body exactly when that takes no more, on the incoming one only after a read that delivered nothing, and otherwise it reads on |
| `EventLoopTheorems.QueueNew` | runtime/event_loop.cpp:24 | queueing a new task keeps the invariant |
| `EventLoopTheorems.CancelKeepsInv` | runtime/event_loop.cpp:26-37 | cancelling by id keeps the invariant if and only if the id is not first found at an append task |
| `EventLoopTheorems.DrainedOk` | runtime/event_loop.cpp:49-55 | the jobs run before a task is selected keep the invariant if and only if their code clears no append task; otherwise an assertion fails |
| `EventLoopTheorems.ActsMoveTask` | runtime/event_loop.cpp:66-71 | after any user code the selected task is at its index if and only if nothing up to the index was cancelled |
| `EventLoopTheorems.TimerTurn` | builtins/web/timers.cpp:39-70 | running and erasing a timer keeps the invariant if its callback cancels nothing up to its index and no append task, and otherwise breaks it |
| `EventLoopTheorems.AppendEndsTurn` | host-apis/wasi-0.2.0/host_api.cpp:487-490 | an append task that ends leaves the queue for good |
| `EventLoopTheorems.AppendBlocksTurn` | host-apis/wasi-0.2.0/host_api.cpp:549-553 | an append task that blocks again stands in the queue once |
| `EventLoopTheorems.AppendFailsTurn` | host-apis/wasi-0.2.0/host_api.cpp:494-546 | an append task whose body call fails ends the loop and stays in the queue |
| `EventLoop.RunAppend` | host-apis/wasi-0.2.0/host_api.cpp:480-554 | a run of the append task has an outcome of the loop's model: the same new state, as many new entries, and at the end all bytes sent |
| `EventLoopTheorems.TurnKeepsBroken` | runtime/event_loop.cpp:48-73 | a failed assertion, or a queued timer that has lost its handle, is not mended by any pass |
| `EventLoopTheorems.TurnKeepsInv` | runtime/event_loop.cpp:48-73 | a pass of the loop keeps the invariant if and only if the callback cancels nothing up to the selected index and no user code clears an append task |
| `EventLoopTheorems.RunKeepsInv` | runtime/event_loop.cpp:41-76 | from any state that meets it, a run keeps the invariant if and only if every turn meets both conditions |
| `EventLoopTheorems.InvariantOverRun` | runtime/event_loop.cpp:41-76 | for any main script and any turns, the invariant holds at the loop's head if and only if no user code clears an append task and no callback cancels up to its own index; it says that no assertion fails, every queueing is accounted for once, append tasks are queued and blocked or done |
| `EventLoopTheorems.ClearTimeoutDropsAppend` | builtins/web/timers.cpp:135-151 | a number passed to `clearTimeout` erases an append task whose body is not sent |
| `EventLoopTheorems.NothingLeft` | runtime/event_loop.cpp:73-75 | when the loop returns true all that was queued ran or was cancelled, no handle is live, every append is done |
| `EventLoopTheorems.LiveHandles` | builtins/web/timers.cpp:26-70 | the live handles are those of the queued timers |
| `EventLoopTheorems.OrderKept` | runtime/event_loop.cpp:24-32 | the queue is a subsequence of all that was queued |
| `EventLoopTheorems.ThreeReachable` | builtins/web/timers.cpp:89-128 | three calls to `setTimeout` lead to the state the next row starts from |
| `EventLoopTheorems.EarlyCancelLosesTask` | runtime/event_loop.cpp:66-71 | a callback that clears an earlier timer makes the loop erase a third one that never ran |
| `EventLoopTheorems.JobsWait` | runtime/event_loop.cpp:49-55 | jobs that user code queues are all waiting afterwards, and a loop with a waiting job is not over |
| `EventLoopTheorems.FoundByItsHandle` | host-apis/wasi-0.2.0/host_api.cpp:556-573 | a blocked append task is found by the handle it waits on and by no other: the outgoing one if it is blocked on that alone, and otherwise the incoming one |
| `EventLoopIntervals.TimerIsQueued` | builtins/web/timers.cpp:89-128 | a timer that is set stands last in the queue, with its handle and the flag it was set with |
| `EventLoopIntervals.RoundLeaves` | builtins/web/timers.cpp:39-64 | a turn of a timer leaves what the callback left without the timer, and for an interval only one more timer that repeats, with the new handle |
| `EventLoopIntervals.IntervalsGoOn` | builtins/web/timers.cpp:59-61 | on every run that meets the two conditions, the intervals queued and the intervals cleared are together as many as were ever set: none stops by itself |
| `EventLoopIntervals.ClearIntervalMisses` | builtins/web/timers.cpp:135-151 | after a round no timer has the id that the interval had, and clearing that id leaves the interval queued |
| `EventLoop.EventLoop.QueueAsyncTask` | runtime/event_loop.cpp:24 | a new entry stands at the end of the queue |
| `EventLoop.EventLoop.SetTimeoutOrInterval` | builtins/web/timers.cpp:89-128 | a timer with a fresh handle is queued last, repeating if and only if the caller asked for it, and its handle returned |
| `EventLoop.EventLoop.CancelTask` | builtins/web/timers.cpp:66-70 | the timer's handle is given up |
| `EventLoop.EventLoop.CancelAsyncTask` | runtime/event_loop.cpp:26-37 | the first task with the id is cancelled and erased; true if there was one |
| `EventLoop.EventLoop.RunTask` | builtins/web/timers.cpp:39-64 | the callback runs; an interval, and nothing else, queues its next round, which repeats; the timer is cancelled |
| `EventLoop.EventLoop.RunEventLoop` | runtime/event_loop.cpp:41-76 | the loop takes the turns the run takes, keeps the invariant if and only if they meet both conditions, and then ends well with nothing lost |
| `FetchEvent.StepKeepsInv` | builtins/web/fetch/fetch_event.cpp:143-324 | every reaction passes the assertions it meets and moves the state forward only |
| `FetchEvent.StateOnlyRises` | builtins/web/fetch/fetch_event.cpp:436-441 | between any two points of a run the state does not fall, and no assertion fails |
| `FetchEvent.PendingIsCounted` | builtins/web/fetch/fetch_event.cpp:26-61 | the count is the number of counted promises whose decrement has not run, so it is never negative |
| `FetchEvent.SentOnce` | builtins/web/fetch/fetch_event.cpp:555-618 | a response is sent at most once, and sent if and only if initialisation succeeds and either the run started it or the loop and the error body succeed |
| `FetchEvent.LaterHandlersSkipped` | builtins/web/fetch/fetch_event.cpp:488-497 | a handler after one that threw or responded makes no difference |
| `FetchEvent.StateTellsResponse` | builtins/web/fetch/fetch_event.cpp:143-324 | on every run the state is `RespondedWithError` if and only if an error was sent, `ResponseStreaming` if and only if a stream was sent that has not ended, `ResponseDone` if and only if a whole response was sent or the stream has ended, `Unhandled` if and only if no handler that was reached called `respondWith` |
| `FetchEvent.RequestTellsResponse` | builtins/web/fetch/fetch_event.cpp:555-618 | the same at the end of a request, where an error is also sent for a run that sent nothing |
| `FetchEvent.OneAnswer` | builtins/web/fetch/fetch_event.cpp:192-250 | of the reactions to the response promise one runs at most, so at most one kind of response is sent |
| `FetchEvent.LateCalls` | builtins/web/fetch/fetch_event.cpp:252-350 | after the dispatch `respondWith` does nothing, and `waitUntil` counts its promise exactly while others are pending or a response is streaming |
| `FetchEvent.DispatchCounts` | builtins/web/fetch/fetch_event.cpp:476-505 | the dispatch counts one promise for each `waitUntil` of the handlers reached and one for the response |
| `FetchEvent.PromisesBalance` | builtins/web/fetch/fetch_event.cpp:26-61 | every promise ever counted is still pending or has had its decrement |
| `FetchEvent.FetchEvent.AddPendingPromise` | builtins/web/fetch/fetch_event.cpp:48-61 | one more promise is counted |
| `FetchEvent.FetchEvent.SetState` | builtins/web/fetch/fetch_event.cpp:436-441 | the state changes; not raising it is a fault |
| `FetchEvent.FetchEvent.SendResponse` | builtins/web/fetch/fetch_event.cpp:143-156 | the response is sent and the state set even if the host refuses it |
| `FetchEvent.FetchEvent.RespondWith` | builtins/web/fetch/fetch_event.cpp:252-297 | succeeds exactly while dispatching and unhandled |
| `FetchEvent.FetchEvent.RespondWithError` | builtins/web/fetch/fetch_event.cpp:299-312 | sends an error response if it can have a body |
| `FetchEvent.FetchEvent.WaitUntil` | builtins/web/fetch/fetch_event.cpp:330-350 | counts a promise exactly while the event is active |
| `FetchEvent.FetchEvent.ResponsePromiseThen` | builtins/web/fetch/fetch_event.cpp:192-232 | sends the response, an error for anything else, nothing for an unusable body |
| `FetchEvent.FetchEvent.BodyDone` | builtins/web/fetch/request-response.cpp:926-941 | a streamed response whose stream has ended is done |
| `FetchEvent.FetchEvent.DispatchFetchEvent` | builtins/web/fetch/fetch_event.cpp:476-505 | handlers are called until one throws or responds |
| `FetchEvent.FetchEvent.HandleRequest` | builtins/web/fetch/fetch_event.cpp:555-618 | no assertion fails, at most one response is sent, exactly one when every fallible part succeeds |
| `Base64.TablesInvert` | builtins/web/base64.cpp:71-111 | the tables are inverse to each other except on `_` |
| `Base64.CharacterToValue` | builtins/web/base64.cpp:115-125 | succeeds exactly on the table's characters |
| `Base64.EncodeGroup` | builtins/web/base64.cpp:326-339 | three bytes become four characters |
| `Base64.ForgivingBase64Encode` | builtins/web/base64.cpp:364-389 | the loop computes the encoding |
| `Base64.Decode4to3` | builtins/web/base64.cpp:127-147 | four characters of the table become three bytes |
| `Base64.RemoveWhitespace` | builtins/web/base64.cpp:207-221 | the text without its white space |
| `Base64.ForgivingBase64Decode` | builtins/web/base64.cpp:205-291 | the loop computes the decoding |
| `Base64Theorems.DecodeBits` | builtins/web/base64.cpp:262-288 | the bits of the bytes are the first bits of the characters' values, and fewer than eight are discarded |
| `Base64Theorems.EncodeBits` | builtins/web/base64.cpp:326-389 | the characters' values carry the bits of the data in order, with fewer than eight bits after them |
| `Base64Theorems.Accepted` | builtins/web/base64.cpp:222-288 | a text is accepted if and only if, stripped and unpadded, it has only the table's characters and not one more than a multiple of four; three bytes for four characters, rounded down |
| `Base64Theorems.WhitespaceIgnored` | builtins/web/base64.cpp:207-221 | white space makes no difference |
| `Base64Theorems.RoundTrip` | builtins/web/base64.cpp:205-389 | decoding the encoding of any bytes gives them back; the encoding has four characters for every three bytes begun |
| `Base64Theorems.EncodingUndoesDecoding` | builtins/web/base64.cpp:205-389 | a text that decodes is the encoding of what it decodes to if and only if it is canonical |
| `Base64Theorems.UnderscoreDecodes` | builtins/web/base64.cpp:83 | a text of `_` decodes but is not the encoding of the result |
| `Base64Theorems.TableIsAlphabet` | builtins/web/base64.cpp:109-111 | the encoding table is the alphabet of RFC 4648, section 4 |
| `Base64Theorems.WhitespaceIsAscii` | builtins/web/base64.cpp:191-202 | what is stripped is ASCII whitespace: tab, line feed, form feed, carriage return, space |
| `Base64Theorems.StripJoins` | builtins/web/base64.cpp:207-221 | stripping goes character by character |
| `Base64Theorems.StripOne` | builtins/web/base64.cpp:191-221 | a character is stripped if and only if it is ASCII whitespace |
| `Base64Theorems.TestVectors` | builtins/web/base64.cpp:326-389 | the first test vectors of section 10 of RFC 4648 |
| `ValuePrinterState.ToSource` | builtins/web/console.cpp:273-406 | terminates on every heap; the list of visited objects grows at its end and never holds an object twice |
| `ValuePrinter.ExpandsReachable` | builtins/web/console.cpp:317-326 | the objects expanded are the least set that holds those the value refers to and those its members refer to, each once |
| `ValuePrinter.ValueCalls` | builtins/web/console.cpp:32-250 | the number of calls is one for the value and one for every reference out of the objects expanded, besides the numbers of typed arrays |
| `ValuePrinter.SharedPrintsCircular` | builtins/web/console.cpp:317-322 | an object met twice is printed as circular although it is in no cycle |
| `ValuePrinterMarks.ValueMarks` | builtins/web/console.cpp:317-326 | every reference met expands its object or prints a mark: the marks are the references less the objects expanded |
| `ValuePrinterMarks.UnmarkedIsTree` | builtins/web/console.cpp:317-322 | no mark is printed if and only if every reachable object is referred to once, from the value or from a reachable object |
| `ValuePrinterMarks.CycleIsMarked` | builtins/web/console.cpp:317-322 | a mark is printed for an object that is still being printed if and only if a cycle can be reached |
| `ValuePrinterMarks.AcyclicIsRightOnTrees` | builtins/web/console.cpp:317-322 | where no cycle can be reached every mark is for a finished object, and there is none if and only if the reachable objects form a tree |
| `ValuePrinterText.ArrayText` | builtins/web/console.cpp:151-169 | an array prints as its elements between brackets, joined with commas |
| `ValuePrinterText.SetText` | builtins/web/console.cpp:114-149 | a set prints with its size and its members between braces |
| `ValuePrinterText.MapText` | builtins/web/console.cpp:63-107 | a map prints with its size and its entries, key and value joined with an arrow |
| `ValuePrinterText.PromiseText` | builtins/web/console.cpp:32-56 | a promise prints as pending, as its value, or as rejected with its reason |
| `ValuePrinterText.ObjectText` | builtins/web/console.cpp:175-250 | an object prints its class name unless that is `Object`, and its properties in order, without inherited functions and without values of accessors |
| `ValuePrinterText.LeafText` | builtins/web/console.cpp:273-406 | objects of other kinds print as the engine prints them |
| `ValuePrinterText.PlainTexts` | builtins/web/console.cpp:273-406 | undefined, null, strings, functions, typed arrays and objects met before print as fixed texts around their names and numbers |
| `ValuePrinterText.DecimalIsNumber` | builtins/web/console.cpp:63-149 | a size is printed in decimal without leading zeros |
| `ValuePrinter.Printer.ToSource` | builtins/web/console.cpp:273-406 | appends the value's text and extends the list of visited objects |
| `ValuePrinter.Printer.ArrayToSource` | builtins/web/console.cpp:151-169 | prints the layout of an array |
| `ValuePrinter.Printer.SetToSource` | builtins/web/console.cpp:114-149 | prints the layout of a set |
| `ValuePrinter.Printer.MapToSource` | builtins/web/console.cpp:63-107 | prints the layout of a map |
| `ValuePrinter.Printer.PromiseToSource` | builtins/web/console.cpp:32-56 | prints the layout of a promise |
| `ValuePrinter.Printer.ObjectToSource` | builtins/web/console.cpp:175-250 | prints the layout of an object, leaving out accessors and functions that are not its own |
| `ValuePrinter.Printer.TypedArrayToSource` | builtins/web/console.cpp:306-315 | prints the numbers of a typed array without remembering it |
| `BodyAccumulator.BufferSize` | builtins/web/fetch/request-response.cpp:594-620 | the size covers all chunks and exceeds their length by the longest chunk and 8192 at most |
| `BodyAccumulator.BodyAccumulator.Read` | builtins/web/fetch/request-response.cpp:672-692 | a chunk of bytes is added at the end, anything else refused |
| `BodyAccumulator.BodyAccumulator.Done` | builtins/web/fetch/request-response.cpp:622-650 | the buffer holds the chunks in order and a zero after them |

## Left out

- Out-of-memory returns, pending exceptions and garbage collection: a call into the engine succeeds, except
  where a parameter of the model says that it may fail.
- Streams: user code inside a size callback (a size is an attribute of the chunk; sizes are reals), readers
  and their release, piping, `set_readable_used_as_body`, and the order of the engine's job queue (reactions
  may run in any order once their promise has settled, so every engine order is covered).
- SHA-256: the hexadecimal output functions; the digest of 2^61 bytes and more, which FIPS 180-4 does not
  define, is modelled with the bit length modulo 2^64 that the source writes.
- Sha256Stream.Hash256OneByOne.Process: a call's length is below half the range of `word_t`, as the type of
  the difference of two iterators has it.
- Sha256Stream.Hash256Buffered: the buffer size is a positive `int`; the source does not end for zero.
- Headers: the insertion order of the map and with it the order of `entries`, `keys`, `values` and
  `forEach`; construction from a sequence or record, which appends pair by pair; the conversion between
  JavaScript strings and UTF-8.
- Headers: a host that lists names in other than lower case, where a change to one name could reach a field
  the map holds under another.
- Headers.CreateCopy: the copy and the original have different handles.
- Headers.Headers.Append: values are shorter than 2^32 - 1 characters, the largest string offset on wasm32.
- HttpOutgoingBody::write_all: the length passed to the host is not the length counted, so bytes are
  conserved only when the capacity covers the buffer.
- BodyAppend.HttpIncomingBody.Read: capacities of 2^32 and more, which the call would truncate.
- Event loop: promise jobs are a count and a list of actions; the clock, deadlines and delays, and with them
  the assertion that a selected timer is ready; which of several ready tasks the host names first.
- EventLoopTheorems.DrainedOk: that `RunJobs` returns only when no job is left is the engine's promise.
- Event loop: the other tasks that are queued, `BodyFutureTask` and `ResponseFutureTask` of
  `request-response.cpp` and `ResponseFutureTask` of `fetch-api.cpp`.
- EventLoop.EventLoop.RunEventLoop: runs a given list of turns, because a loop with an interval need not end.
- EventLoopState: tasks are values named by their place of allocation, so that one task can stand in the
  queue twice while it runs; memory is not freed.
- Fetch events: the request object, the body's bytes, and the overflow of the 32-bit promise count.
- Base64: the conversion of JavaScript strings to byte strings, and the URL table.
- Base64.ForgivingBase64Encode: data is shorter than 2^31 bytes, the range of the `int` that counts it down.
- Value printer: getters that run while properties are read, so that the heap changes under the printer;
  failures of the engine's string conversions.
- Body accumulator: chunks whose buffers change between their arrival and the end of the stream; sizes near
  the limit of `size_t`.
- The release-candidate host interfaces, URL and text encoding, compression streams, cryptography, the
  console's counters and timers, script loading and start-up: wrappers or tables without a deep property.
