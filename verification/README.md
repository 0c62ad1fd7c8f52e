# A verified model of the bridge's interpreters, codecs and protocols

This project models, in Dafny, the parts of the Meta bridge that are small languages, codecs, text algorithms or
protocols, and proves what each of them promises. `dafny verify dfyconfig.toml` checks all of it.

Each part is written twice. Functions on values say what an operation computes. Where the Go code works by changing
things (fields, slots of an argument frame, buffers, maps, the state of a login), a class or a method with a loop does
the same on mutable state, and its contract equates the new state with the function of the old one. The theorems are
lemmas about the functions, so they hold of both. Inputs from outside (server replies, scripts, timers, clock readings,
outcomes of sorting, splits of network reads) are parameters, and every theorem is about all of them.

| files | what they model |
|---|---|
| `Common`, `Decimal`, `Splitting`, `Sextets` | Go's 64-bit integers, decimal text, `strings.Split`, bit strings as characters |
| `BloksScript`, `BloksScriptTheorems` | the parser of Bloks scripts, and a one-line rendering that it inverts |
| `BloksEval`, `BloksInterpreter`, `BloksLaws`, `BloksFrames` | the meaning of Bloks scripts, the interpreter on mutable frames, variables and maps, and its laws |
| `LightSpeedRow`, `LightSpeedLosses`, `LightSpeed`, `LightSpeedTraces`, `LightSpeedTheorems` | the decoder of server-sent step programs, its trace of calls, and the rows that stored procedures build |
| `Bitmap` | the compressed bitmap, its cache, and a decoder |
| `Byter`, `Framing` | the schema-driven codec and the MQTT packets written and read with it |
| `ResponseHandler`, `Requests`, `RequestTheorems` | the channel registry and the request, acknowledgement and response protocol, as interleaved steps |
| `Utf16`, `Mentions`, `Locators` | mentions in UTF-16 text, received and sent |
| `MessageId`, `EpochId` | message IDs as text, and IDs packed from a clock and a counter |
| `Dgw` | DGW frames and the loop that splits a message into them |
| `ChunkedDownload` | the downloader that reads a video in ranges |
| `Backfill`, `BackfillBatches` | sorting, deduplicating and trimming a batch of history |
| `LoginStates`, `Login`, `LoginTheorems` | the login browser that scripts from the server drive |

## Where the code does not do what one would expect

The model follows the code. Where one of these decides a property in the table, the table names the condition under
which the property holds; "exactly" there means that the condition is necessary as well as sufficient.

- A number is truthy in a Bloks script even when it is zero: the source looks for `int`, and scripts hold `int64`.
- Binding arguments to a lambda replaces arguments bound before, and drops those beyond 100, while Apply panics on them.
- The LightSpeed IF step wants an `int64` condition and the I64_EQUAL step yields a Boolean, so a comparison never selects a branch.
- A row field of an unsupported kind swallows its argument: it is neither stored nor kept as unrecognized. With a map for unrecognized arguments nothing else is ever lost.
- A response's 64-bit request ID is cut to 16 bits before it is looked up.
- A channel can be closed between the read loop's lookup and its send; the send then panics.
- The identifier of a QoS 1 PUBLISH is read from a fixed place, which is right for topics of eight bytes only.
- A remaining length of 2^28 or more is written in five bytes and always rejected when read.
- Offsets of outgoing mentions count bytes; those of incoming ones count UTF-16 units.
- The end of an incoming mention is a 64-bit sum: a huge length wraps to a negative end, passes the bounds test, and makes the conversion panic.
- A DGW Data frame whose 16-bit sum of length and header wraps makes the reader panic, and an ack ID loses its top bit.
- The last range request of a chunked download can name one byte past the end of the file.
- A duplicate in a backfill batch is dropped before timestamps are compared with the anchor, so an ID can be lost.
- The 1025th epoch ID of a millisecond repeats another ID.
- A login script can make the login request in the step that displays the login page, before any credentials are given, or while the page's username is being filled in, before the password is.
- After "isn't connected to an account" the message always says "email address", because the arguments of the check are swapped.

## Model

| member | source | states |
|---|---|---|
| BloksScript.ParseAny | pkg/messagix/bloks/script.go:16-34 | a successful parse ends strictly after its start and within the code; the end-of-call signal is given only at a closing parenthesis |
| BloksScript.ParseAnyNode | pkg/messagix/bloks/script.go:16-34 | the index-advancing loop reads just what the parser function reads |
| BloksScript.ParseFuncallNode | pkg/messagix/bloks/script.go:47-107 | the argument loop terminates on every input and reads the call that the recursive parser reads |
| BloksScript.ParseNameText | pkg/messagix/bloks/script.go:47-84 | the two loops over the function name agree with its definition, including the index reported when only separators are left |
| BloksScript.ParseLiteralNode | pkg/messagix/bloks/script.go:158-251 | the loops over number characters and words agree with the definition of a literal |
| BloksScript.ParseStringBody | pkg/messagix/bloks/script.go:201-237 | the loop over a string body collects the unescaped characters up to the closing quote, or fails where the definition fails |
| BloksScriptTheorems.ParseInvertsRender | pkg/messagix/bloks/script.go:16-107 | parsing the one-line rendering of any legal call, with anything before and after it, yields that call and the index just past it |
| BloksScriptTheorems.RenderIsInjective | pkg/messagix/bloks/script.go:118-131 | two legal calls with one rendering are one call |
| BloksScriptTheorems.ParsedCallIsLegal | pkg/messagix/bloks/script.go:47-107 | every call the parser returns, on any code, is legal, so the round trip covers all of its results |
| BloksScriptTheorems.RenderNormalises | pkg/messagix/bloks/script.go:16-131 | rendering what was parsed and parsing it again gives the same call |
| Decimal.ParseIntText | pkg/messagix/bloks/script.go:190-196 | decimal text of any 64-bit integer parses back to it |
| BloksInterpreter.Interpreter.Evaluate | pkg/messagix/bloks/interp.go:328-432 | evaluation on mutable variables, maps and one argument frame computes the script's meaning, and writes to no other frame |
| BloksInterpreter.Interpreter.Branch | pkg/messagix/bloks/interp.go:344-370 | If, Or and And evaluate the first argument and then only the one its truth selects |
| BloksInterpreter.Interpreter.EvaluateList | pkg/messagix/bloks/interp.go:387-396 | the loop evaluates arguments left to right and stops at the first error |
| BloksInterpreter.Interpreter.EvaluateTyped | pkg/messagix/bloks/interp.go:199-210 | operands are evaluated and type-checked in order, each before the next |
| BloksInterpreter.Interpreter.EvaluateApply | pkg/messagix/bloks/interp.go:397-412 | Apply evaluates the lambda and then its arguments in the caller's frame |
| BloksInterpreter.Interpreter.EnterBody | pkg/messagix/bloks/interp.go:397-412 | the body runs in a fresh frame that holds bound and given arguments; the caller's frame is the one its arguments left |
| BloksInterpreter.Interpreter.StoreArguments | pkg/messagix/bloks/interp.go:397-412 | the loop that fills the fresh array, with the panic of an argument that has no slot |
| BloksInterpreter.Interpreter.AssignRef | pkg/messagix/bloks/interp.go:691-708 | a write through a reference sets the global it names |
| BloksInterpreter.Interpreter.ReadRefName | pkg/messagix/bloks/interp.go:674-708 | only a variable form is accepted as a reference, and its name is evaluated |
| BloksInterpreter.Interpreter.RunBuiltin | pkg/messagix/bloks/interp.go:371-850 | each modelled builtin has the result and the effect on frame, variables, maps and bridge that its definition gives |
| BloksLaws.EvalListAppend | pkg/messagix/bloks/interp.go:397-412 | evaluating a list of arguments is evaluating its first part and then its second |
| BloksLaws.PartialApplication | pkg/messagix/bloks/interp.go:397-412 | for an unbound lambda, binding up to 100 arguments and applying to the rest gives the same result, error, variables and frame as applying to all |
| BloksLaws.SurplusArgumentsDiffer | pkg/messagix/bloks/interp.go:788-799 | with more than 100 arguments bound the two differ |
| BloksLaws.PartialApplicationExactly | pkg/messagix/bloks/interp.go:273 | the law of partial application holds for exactly those numbers of bound arguments that the frame has slots for |
| BloksLaws.BindingTwiceReplaces | pkg/messagix/bloks/interp.go:788-799 | binding again replaces the arguments bound before |
| BloksLaws.FuelIsOnlyABound | pkg/messagix/bloks/interp.go:328-432 | the nesting bound of the model changes no evaluation that ends within it |
| BloksFrames.FrameIsKept | pkg/messagix/bloks/interp.go:328-432 | a form with no SetArg of its own leaves every slot of the frame it runs in, whatever lambdas it creates and calls |
| BloksFrames.BodiesLeaveTheCallersFrame | pkg/messagix/bloks/interp.go:397-432 | calling any lambda, with any nesting of SetArg and Apply in its body, changes no slot of the caller's frame |
| BloksFrames.SetArgWritesOneSlot | pkg/messagix/bloks/interp.go:421-432 | for any forms as operands, SetArg evaluates the index and then the value, and changes one slot of the frame they leave, and nothing else |
| BloksFrames.SetArgSucceedsExactly | pkg/messagix/bloks/interp.go:421-432 | it succeeds exactly when both operands have values and the index is an integer that names a slot |
| LightSpeedRow.BuildRow | pkg/messagix/lightspeed/decode.go:245-341 | the loop over the fields and the loop over the leftovers build the row that the definition gives, or panic with it |
| LightSpeedRow.EveryArgumentInOnePlace | pkg/messagix/lightspeed/decode.go:241-344 | for every schema of supported kinds, each non-nil argument is in one field of its kind that looks at it, or unrecognized at its own index, and never in both |
| LightSpeedRow.PlacementIsUnique | pkg/messagix/lightspeed/decode.go:245-341 | that description fits one row only: it says which field wins a shared index and where short data ends the loop |
| LightSpeedLosses.NothingIsLostExactly | pkg/messagix/lightspeed/decode.go:245-341 | for every schema with a map for unrecognized arguments, every non-nil argument is in one field or unrecognized exactly when the loop comes to no field of an unsupported kind that finds an argument at its index |
| LightSpeedLosses.WellFormedNeverPanics | pkg/messagix/lightspeed/decode.go:245-365 | a schema whose indexes are not negative and whose conditions have two choices and stand on Boolean fields builds a row from any arguments |
| LightSpeed.LightSpeedDecoder.constructor | pkg/messagix/lightspeed/decode.go:22-31 | the decoder starts with an empty column for each known type |
| LightSpeed.LightSpeedDecoder.Run | pkg/messagix/lightspeed/decode.go:34-41 | decoding yields the value, references and maps of the step's meaning, and the table grows by exactly the rows it emits |
| LightSpeed.LightSpeedDecoder.RunStep | pkg/messagix/lightspeed/decode.go:34-207 | the same for a step of each kind |
| LightSpeed.LightSpeedDecoder.RunBlock | pkg/messagix/lightspeed/decode.go:43-51 | a block runs its steps in order |
| LightSpeed.LightSpeedDecoder.RunIf | pkg/messagix/lightspeed/decode.go:104-117 | IF runs one branch, none when its condition has the wrong type |
| LightSpeed.LightSpeedDecoder.RunOperands | pkg/messagix/lightspeed/decode.go:104-189 | operands are decoded in order up to the first of the wrong type |
| LightSpeed.LightSpeedDecoder.HandleStoredProcedure | pkg/messagix/lightspeed/decode.go:209-344 | an unknown procedure decodes nothing; a known one decodes its arguments and then appends one row to its column |
| LightSpeed.LightSpeedDecoder.RunArgs | pkg/messagix/lightspeed/decode.go:241-244 | arguments are decoded in order, and their own calls append their rows |
| LightSpeedTheorems.ColumnsOnlyGrow | pkg/messagix/lightspeed/decode.go:342-343 | each column ends as its old rows followed by the rows emitted for it, in order |
| LightSpeedTraces.RowsAreCompletedCalls | pkg/messagix/lightspeed/decode.go:34-344 | the rows a program emits are exactly those of its completed calls of known procedures, in order of completion, each built from the arguments that its call decoded |
| LightSpeedTraces.CallsNest | pkg/messagix/lightspeed/decode.go:209-244 | a call is completed after all calls in its arguments and before any later call is entered; only known procedures are entered, and only unknown ones skipped |
| LightSpeedTraces.SkippedArgumentsDoNotMatter | pkg/messagix/lightspeed/decode.go:209-235 | a program without the arguments of its unknown procedures, however deep in it, decodes to the same value, rows, references and maps |
| LightSpeedTheorems.EveryRowIsFromACall | pkg/messagix/lightspeed/decode.go:209-344 | on every step tree, every emitted row is the row of some call in the program's own trace |
| LightSpeedTheorems.EqualityNeverSelects | pkg/messagix/lightspeed/decode.go:104-117 | an IF on a comparison runs neither branch |
| Sextets.BitsOfTextOf | pkg/messagix/crypto/bitmap.go:87-97 | bits written as 6-bit characters are read back |
| Sextets.TextOfBitsOf | pkg/messagix/methods/methods.go:124 | characters read as bits are written back |
| Bitmap.CompressRoundTrip | pkg/messagix/crypto/bitmap.go:44-97 | decompressing the compressed string recovers every non-empty bitmap |
| Bitmap.ExpandRun | pkg/messagix/crypto/bitmap.go:77-83 | a run code is self-delimiting: whatever follows it, it is read back as its run |
| Bitmap.ExpandPadding | pkg/messagix/crypto/bitmap.go:87-90 | zero padding is never read as a run |
| Bitmap.BitmapCache.constructor | pkg/messagix/crypto/bitmap.go:16-18 | a new bitmap is empty and has been given no index |
| Bitmap.BitmapCache.Update | pkg/messagix/crypto/bitmap.go:20-42 | the bitmap stays the indicator of all indices ever given, and a cached string that is not empty stays a fresh compression |
| Bitmap.BitmapCache.ToCompressedString | pkg/messagix/crypto/bitmap.go:44-75 | the cached string becomes the compression of the bitmap, computed or kept |
| Bitmap.EncodeBase64 | pkg/messagix/crypto/bitmap.go:87-97 | the padding loop and the character loop write the zero-padded bits six at a time |
| Byter.Buffer.WriteFromStruct | pkg/messagix/byter/write.go:32-94 | the buffer grows by the encodings of the fields in order |
| Byter.Buffer.WriteString | pkg/messagix/byter/write.go:96-106 | the buffer grows by the length prefix, none for a signed length type, and the bytes |
| Byter.IntBytesKeepTheLowBytes | pkg/messagix/byter/byter.go:41-78 | written in any width and order, a number reads back as what is left of it below that width: it is kept up to a multiple of 256^size |
| Byter.Buffer.EncodeVLQ | pkg/messagix/byter/write.go:108-128 | the shifting loop appends the variable-length encoding |
| Byter.Buffer.ReadToStruct | pkg/messagix/byter/read.go:39-114 | fields are consumed in order; on an exhausted buffer the rest keep their values |
| Byter.Buffer.ReadInteger | pkg/messagix/byter/read.go:20-37 | an integer is read from its bytes, short data being padded with zeros |
| Byter.Buffer.ReadString | pkg/messagix/byter/read.go:116-143 | a string is read behind its length prefix; a signed length type is an error |
| Byter.Buffer.DecodeVLQ | pkg/messagix/byter/read.go:145-166 | the multiplying loop reads the variable-length integer, and rejects a fifth byte |
| Byter.IntRoundTrip | pkg/messagix/byter/byter.go:41-78 | an integer that fits its width is read back in either byte order |
| Byter.VlqRoundTrip | pkg/messagix/byter/read.go:145-166 | every value below 2^28 is read back, whatever follows it |
| Byter.VlqTooLong | pkg/messagix/byter/write.go:108-128 | larger 32-bit values take five bytes and are always rejected |
| Byter.FieldRoundTripExactly | pkg/messagix/byter/write.go:40-94 | a field is read back, whatever follows it, exactly when its prefix counts it, its variable-length value is below 2^28, an enum is one byte wide, and it is neither skipped nor Boolean |
| Byter.StructRoundTrip | pkg/messagix/byter/read.go:39-114 | a struct of such fields is read back whole, and what follows it is left in the buffer |
| Framing.WriteRequest | pkg/messagix/request.go:12-25 | the packet is the type byte, the remaining length and the payload |
| Framing.ReadResponse | pkg/messagix/response.go:40-67 | a PUBLISH is read by removing its identifier in place and decoding what is left |
| Framing.HeaderRoundTrip | pkg/messagix/response.go:32-67 | every packet of a known type whose remaining length fits is taken apart into what it was written from |
| Framing.LongPacketRejected | pkg/messagix/request.go:12-25 | a packet with a payload of 2^28 bytes or more is always rejected |
| Framing.EightByteTopicIsRead | pkg/messagix/response.go:40-67 | a QoS 1 publication on a topic of eight bytes, such as "/ls_resp", is read as its topic, identifier and payload |
| Framing.PublishReadExactly | pkg/messagix/response.go:40-67 | over all identifiers and payloads, publications are read correctly on exactly the topics of eight bytes |
| ResponseHandlers.AddKeeps | pkg/messagix/responsehandler.go:35-45 | registering a channel keeps every registered channel open and no channel closed twice |
| ResponseHandlers.DeleteKeeps | pkg/messagix/responsehandler.go:122-139 | so does deleting an entry, which closes its channel once |
| ResponseHandlers.CancelKeeps | pkg/messagix/responsehandler.go:155-166 | so does cancelling everything |
| ResponseHandlers.EntriesDiffer | pkg/messagix/responsehandler.go:35-45 | no channel is registered twice, in one map or in both |
| ResponseHandlers.ResponseHandler.AddChannel | pkg/messagix/responsehandler.go:35-45 | a fresh channel is registered under the ID, in place of any other |
| ResponseHandlers.ResponseHandler.DeleteDetails | pkg/messagix/responsehandler.go:122-139 | the entry's channel is closed and the entry is gone; without an entry nothing happens |
| ResponseHandlers.ResponseHandler.GetChannel | pkg/messagix/responsehandler.go:141-153 | lookup answers what is registered, and changes nothing |
| ResponseHandlers.ResponseHandler.CancelAllRequests | pkg/messagix/responsehandler.go:155-166 | both loops close each registered channel once, and both maps are emptied |
| Requests.PacketCounter.SafePacketID | pkg/messagix/socket.go:338-347 | the counter goes round its 16 bits and skips zero |
| Requests.StepKeepsInv | pkg/messagix/socket.go:363-440 | every step of a request, of the read loop and of cancellation keeps the protocol's invariant |
| Requests.RunKeepsInv | pkg/messagix/payload.go:52-104 | so does every interleaving of such steps |
| RequestTheorems.IdFormula | pkg/messagix/socket.go:338-347 | the n-th ID from any starting point, in closed form |
| RequestTheorems.IdsAreDistinct | pkg/messagix/socket.go:338-347 | no ID is zero, and any 65535 consecutive ones are distinct |
| RequestTheorems.IdsRepeat | pkg/messagix/socket.go:338-347 | the next one repeats, so the bound is exact |
| RequestTheorems.EveryRunIsSafe | pkg/messagix/responsehandler.go:35-166 | in every run, registered channels are open, no channel is closed twice, ID 0 is never registered, and a returned response carries the request's ID in its low 16 bits |
| RequestTheorems.RequestsHaveDistinctIds | pkg/messagix/socket.go:338-347 | in every run that starts at most 65535 requests, no two of them have the same ID |
| RequestTheorems.FinishedRequestsLeaveNoEntry | pkg/messagix/socket.go:415-440 | in every run, when a waiting makeLSRequest has returned, with a response or an error, any entry under its ID is the channel of another request with that ID |
| RequestTheorems.FinishedRequestsLeaveNothing | pkg/messagix/socket.go:415-440 | so with at most 65535 requests there is no entry under its ID at all |
| RequestTheorems.ResponseIdsMatchExactly | pkg/messagix/events.go:170-192 | a response whose ID is cut to a request's ID carries exactly that ID if and only if it fits 16 bits |
| RequestTheorems.IdZeroMatchesNothing | pkg/messagix/events.go:170-207 | an event with ID 0 changes nothing |
| RequestTheorems.ArrivalIsKept | pkg/messagix/responsehandler.go:58-67 | when the read loop holds the response and the channel of a request that still waits for it, its next step delivers the response |
| RequestTheorems.ResponseArrives | pkg/messagix/events.go:170-192 | from the packet on, lookup, check and send deliver it, whether or not the acknowledgement has come |
| RequestTheorems.StepKeepsResponse | pkg/messagix/responsehandler.go:47-67 | a delivered response stays until it is returned, and the request's packet channel stays registered and open until it is used, through every step but a cancellation, the request's own failure or timeout, and steps of another request with the same ID |
| RequestTheorems.EarlyResponseIsKept | pkg/messagix/payload.go:59-71 | a response whose packet arrives before the acknowledgement is delivered and still there after any run of such steps |
| RequestTheorems.KeptResponseIsReturned | pkg/messagix/socket.go:415-440 | and from the acknowledgement on the request returns it in four steps of its own |
| RequestTheorems.RunPanicsExactly | pkg/messagix/responsehandler.go:47-67 | in every run, the read loop panics exactly when the channel it has looked up is closed before its send, however many steps lie between |
| RequestTheorems.ClosedUntilSent | pkg/messagix/responsehandler.go:47-67 | once it is closed nothing repairs it: every other step leaves it held and closed, and the send panics |
| RequestTheorems.AcknowledgementRacesTimeout | pkg/messagix/responsehandler.go:100-120 | there is a run in which an acknowledgement is looked up, the request times out, and the send panics |
| Utf16.DecodeOfEncode | pkg/msgconv/mentions.go:34-40 | a string survives the conversion to UTF-16 and back |
| Utf16.DecodeOfCut | pkg/msgconv/mentions.go:34-40 | decoding goes piece by piece, except that a surrogate pair that is cut becomes two replacement characters |
| Utf16.DecodeInPieces | pkg/msgconv/mentions.go:85-95 | pieces of a text decode to the text exactly when no cut goes through a surrogate pair |
| Splitting.SplitOfJoin | pkg/messagix/socket/threads.go:55-65 | splitting at commas undoes joining with them |
| Mentions.Parse | pkg/messagix/socket/threads.go:55-89 | the loop over the four columns reads the mentions, or reports mismatched columns and bad numbers |
| Mentions.ParseOfToData | pkg/messagix/socket/threads.go:120-137 | parsing what was written gives back the same mentions |
| Mentions.MetaToMatrixText | pkg/msgconv/mentions.go:55-97 | the loop over the mentions emits the plain pieces and links of the definition |
| Mentions.PiecesAreTheText | pkg/msgconv/mentions.go:55-97 | whatever the mentions, the pieces concatenate to the UTF-16 text: nothing is lost, repeated or moved |
| Mentions.PanicsExactly | pkg/msgconv/mentions.go:55-94 | the conversion panics exactly when the loop links a mention whose length is negative or whose 64-bit end wraps |
| Mentions.WrappedEndPanics | pkg/msgconv/mentions.go:66-69 | offset 1 with the largest length is read from the wire and panics on any text of two units or more |
| Mentions.ParsedAreMentions | pkg/messagix/socket/threads.go:67-86 | everything Parse reads is a 64-bit number, so these results cover all it can return |
| Mentions.PiecesAreTheMessage | pkg/msgconv/mentions.go:55-97 | with no negative length and no end that wraps, there are pieces, and as strings they are the message exactly when no mention cuts a surrogate pair |
| Mentions.DisjointMentionsAreAllLinked | pkg/messagix/socket/threads.go:112-114 | sorted in any way the order allows, disjoint linkable mentions are all linked at their own ranges, and nothing else is |
| Locators.ReplaceLocators | pkg/msgconv/from-matrix.go:210-225 | the loop finds, records and replaces one locator after another in the text as it then is |
| Locators.SubstituteExactly | pkg/msgconv/from-matrix.go:210-225 | the loop leaves the text with labels and records the labels' places exactly when no locator occurs before its own place |
| Locators.LocatorsReplaced | pkg/msgconv/from-matrix.go:208-228 | each recorded range of the final text reads "@" and the name, and the ranges are disjoint and increasing |
| Locators.ClearWithoutMark | pkg/msgconv/from-matrix.go:144-158 | the condition holds when the final text nowhere spells the mark that locators start with |
| Locators.OffsetsAgreeExactly | pkg/msgconv/from-matrix.go:210-225 | the offset recorded for a mention is its UTF-16 offset exactly when the text in front of it is ASCII, and its length exactly when its name is |
| MessageId.PutUint64 | pkg/messagix/methods/methods.go:113-115 | eight bytes of the buffer are replaced and the others stay |
| MessageId.ToText | pkg/messagix/methods/methods.go:108-117 | despite the overlapping writes the body holds chat ID, five bytes of time and transaction ID |
| MessageId.LowBytes | pkg/messagix/methods/methods.go:113-114 | the bytes of the time that are not overwritten are its low ones |
| MessageId.Fields | pkg/messagix/methods/methods.go:130-140 | the three numbers read from a 21-byte payload |
| MessageId.DecodeOfEncode | pkg/messagix/methods/methods.go:124-129 | decoding the encoded body gives it back |
| MessageId.ParseOfPrint | pkg/messagix/methods/methods.go:108-141 | a printed ID parses back to itself exactly when its time is within 2^40 ms after the epoch |
| MessageId.PrintOfParse | pkg/messagix/methods/methods.go:108-141 | a parsed ID with an ASCII chat type prints back to the same text exactly when the encoded part has no CR or LF |
| EpochId.EpochGenerator.constructor | pkg/messagix/methods/methods.go:22-26 | both package variables start at zero |
| EpochId.EpochGenerator.GenerateEpochID | pkg/messagix/methods/methods.go:29-42 | the counter goes up within a millisecond and restarts with a new one, and the ID packs clock, counter and 42 as 64-bit words |
| EpochId.OrDisjoint | pkg/messagix/methods/methods.go:40 | a bitwise or adds when the right operand is below the lowest bit the left one can have |
| EpochId.FieldsAreReadBackExactly | pkg/messagix/methods/methods.go:40 | clock and counter can be read back from an ID exactly when the counter is below 1024 |
| EpochId.EpochIdsIncrease | pkg/messagix/methods/methods.go:29-42 | over any run with a clock that never steps back and at most 1024 calls in a millisecond, IDs are positive and strictly increasing |
| EpochId.CounterOverflows | pkg/messagix/methods/methods.go:35-40 | the 1025th ID of a millisecond is the first ID of that millisecond, if it is odd, or of the next |
| EpochId.OneCallTooMany | pkg/messagix/methods/methods.go:29-42 | for every millisecond a run with 1025 calls in it repeats an ID |
| EpochId.IdsIncreaseExactly | pkg/messagix/methods/methods.go:29-42 | over all runs with at most n calls in a millisecond, none at time zero, IDs always increase exactly when n is at most 1024 |
| Dgw.Unmarshal | pkg/messagix/dgw/frames.go:29-44 | every frame that is read consumes something, so the loop goes on to shorter data |
| Dgw.ReadMessage | pkg/messagix/dgw/dgwsocket.go:158-171 | the inbound loop sends the frames of the definition, and ends, panics or repeats itself with it |
| Dgw.DataRoundTripExactly | pkg/messagix/dgw/frames.go:102-136 | a Data frame is read back, leaving what followed it, exactly when its payload is at most 65527 bytes and its ack ID below 2^15 |
| Dgw.AckRoundTrip | pkg/messagix/dgw/frames.go:138-163 | an Ack frame with any 16-bit numbers is read back |
| Dgw.FrameRoundTripExactly | pkg/messagix/dgw/frames.go:78-163 | the same for all frame types that are both written and read |
| Dgw.SplitOfMarshalled | pkg/messagix/dgw/dgwsocket.go:158-171 | the loop splits the concatenation of any marshalled frames into just those frames exactly when each of them fits |
| Dgw.DataPanicsExactly | pkg/messagix/dgw/frames.go:121-136 | reading a Data frame panics exactly on a length field below 2 or above 65529 |
| Dgw.SpinsOnlyOnOpen | pkg/messagix/dgw/frames.go:199-217 | the loop repeats itself only on an Open frame whose payload is rejected as JSON |
| ChunkedDownload.ChunkedVideoDownloader.Read | pkg/msgconv/media.go:149-173 | a read copies its bytes to the front of the buffer, requests the next range when none is in flight, and reports EOF only at the end |
| ChunkedDownload.ReadKeepsInv | pkg/msgconv/media.go:149-173 | each read delivers the front of what is left, through errors and unanswered requests |
| ChunkedDownload.ReadingGivesTheFile | pkg/msgconv/media.go:149-173 | however the network splits the data, what was read is a prefix of the file, and reading to EOF gives all of it with one request for each chunk |
| ChunkedDownload.RequestsAreConsecutive | pkg/msgconv/media.go:147-163 | there are ceil(size / chunk) requests, each starts where the one before ended, and the last ends at the end of the file or one byte past it |
| ChunkedDownload.LastRequestIsPastTheEndExactly | pkg/msgconv/media.go:151-154 | it ends past it exactly when the size is one short of a multiple of the chunk size |
| ChunkedDownload.ReadingEnds | pkg/msgconv/media.go:149-173 | productive reads, one more than there are bytes and chunks, reach EOF |
| Backfill.UpsertMessages.WrapBackfillEvents | pkg/connector/backfill.go:300-331 | the messages become the sorted, compacted and trimmed ones, for any outcome of the sort |
| Backfill.SortedAndOnSide | pkg/connector/backfill.go:303-331 | they are sorted by their two keys, strictly on the side of the anchor that is asked for, and all from the batch |
| Backfill.DistinctExactly | pkg/connector/backfill.go:311-320 | compaction leaves distinct IDs exactly when nothing separates messages of one ID in sorted order |
| BackfillBatches.TogetherExactly | pkg/connector/backfill.go:303-310 | every sort of a batch keeps the messages of each ID together exactly when no message of another ID has a key between, ties included, those of two messages of one ID |
| BackfillBatches.AlwaysDistinctExactly | pkg/connector/backfill.go:303-320 | every outcome of the sort leaves distinct IDs exactly for those batches |
| Backfill.DistinctWhenIdsMatchKeys | pkg/connector/backfill.go:303-331 | when equal IDs and equal keys coincide, every sort leaves distinct IDs |
| Backfill.TiesCanRepeat | pkg/connector/backfill.go:304-320 | otherwise a tie can be sorted so that a duplicate stays |
| Backfill.EveryIdKeptExactly | pkg/connector/backfill.go:311-331 | for any sorted batch, every ID on the side asked for survives, for all anchors and directions, exactly when compaction keeps for each message one of its ID that is not older and one that is not newer |
| Backfill.BracketedExactly | pkg/connector/backfill.go:311-331 | when nothing separates messages of one ID, that is so exactly when equal IDs have equal timestamps |
| BackfillBatches.AlwaysKeptExactly | pkg/connector/backfill.go:303-331 | for a batch with no key of another ID between, every outcome of the sort keeps every ID exactly when equal IDs have equal timestamps; with equal timestamps it does for any batch |
| Login.Browser.DoRPC | pkg/messagix/bloks/selenium.go:367-504 | an RPC moves the browser by its table, looked up again after the set-up of the answer, which can run scripts of its own |
| Login.Browser.DisplayNewScreen | pkg/messagix/bloks/selenium.go:505-529 | the same for a screen |
| Login.Browser.HandleLoginResponse | pkg/messagix/bloks/selenium.go:530-550 | a login response is stored and leads to success in the states that accept one, and is otherwise an error without effect |
| Login.Browser.HandleVariableChange | pkg/messagix/bloks/selenium.go:567-591 | an error message is taken up only in the states that wait for the check of a code |
| Login.Browser.HandlePage | pkg/messagix/bloks/selenium.go:858-994 | a page asks, and shows and clears the last error, until its fields are there, and then runs its script |
| Login.Browser.HandleAPAction | pkg/messagix/bloks/selenium.go:714-738 | in all four AP actions, a script that leaves the browser waiting for the check of an email code with a last error sends the user back to the page without the code |
| Login.Browser.HandleCheckedCode | pkg/messagix/bloks/selenium.go:808-851 | in the states that check a code, a last error sends the user back to the page and deletes the rejected code |
| Login.Browser.HandleCredentials | pkg/messagix/bloks/selenium.go:858-904 | without both inputs the page asks; with them it fills one and then the other, whose scripts may run, and only then presses the button |
| Login.Browser.HandleEnteredEmailPassword | pkg/messagix/bloks/selenium.go:774-795 | rejected credentials are deleted and the page is entered again, with the error |
| Login.Browser.HandleEnteredEmailCode | pkg/messagix/bloks/selenium.go:796-807 | the same for a code from an email |
| Login.Browser.HandleEnteredCaptcha | pkg/messagix/bloks/selenium.go:696-713 | a captcha that leads nowhere is deleted and asked for again |
| Login.Browser.HandleAFAD | pkg/messagix/bloks/selenium.go:740-773 | without an answer the browser waits, and tells the user once |
| Login.Browser.HandleChooseMFA | pkg/messagix/bloks/selenium.go:1145-1224 | a method is asked for unless there is only one |
| Login.Browser.DoLoginStep | pkg/messagix/bloks/selenium.go:617-1426 | one step of the state machine, in each state; a step that neither moves nor asks is an error |
| Login.Browser.DoLoginSteps | pkg/messagix/messengerlite.go:189-223 | the driver's loop runs steps until one asks, fails or succeeds |
| LoginTheorems.VisitsAreTracked | pkg/messagix/bloks/selenium.go:367-738 | in every login, whatever scripts, server and user do, the moves form a path through the tables, the code check of the AP actions included, from the initial state to the current one |
| LoginTheorems.SuccessOnlyByLoginResponse | pkg/messagix/bloks/selenium.go:530-550 | success is entered only by a login response in one of the nine accepting states, and a login that reports success returns the data of an accepted response |
| LoginTheorems.CredentialsComeFirstExactly | pkg/messagix/bloks/selenium.go:367-374 | in every login, every way past the credentials page comes directly after a non-empty username and password were filled in and submitted, exactly when no script makes the login request while it is redirecting to that page or while the inputs are being filled in |
| LoginTheorems.PastMeansSubmitted | pkg/messagix/bloks/selenium.go:858-904 | being past the page then means that a non-empty username and password were filled in and submitted |
| LoginTheorems.WaitingScriptsNeedCredentials | pkg/messagix/bloks/selenium.go:367-904 | when no script that runs while the page's inputs are filled in, and no script of a step that begins by redirecting to the page, contains the login request at any depth, then every way past the page follows a submission of credentials |
| LoginTheorems.EagerPageNeedsNoPassword | pkg/messagix/bloks/selenium.go:883-895 | a page that makes the request when its username is filled in gets past it with no password submitted |
| LoginTheorems.HastyScriptNeedsNoCredentials | pkg/messagix/bloks/selenium.go:505-529 | a script that displays the page and makes the request at once gets past it without any |
| LoginTheorems.HandleKeepsError | pkg/messagix/bloks/selenium.go:733-738 | a last error outlives a step only in states that check a code, that scripts cannot leave, or on a page that will ask |
| LoginTheorems.RejectionIsSeenInEveryAPAction | pkg/messagix/bloks/selenium.go:714-738 | for all four AP actions and every script: a script that leaves an email code rejected ends on the code page with its error, without the code and with all other input, and no step that succeeds stays in the code's action with an error |
| LoginTheorems.CodeScriptIsRejected | pkg/messagix/bloks/selenium.go:714-738 | this happens in a step that began in another AP action, with a script that shows the code page, sends a code and has it rejected |
| LoginTheorems.RejectedInputIsAskedForAgain | pkg/messagix/bloks/selenium.go:1225-1245 | a step that begins on a page with a last error runs no script and submits nothing: it asks for the page's fields with that error and clears it |

## Left out

- Bloks parser: float literals, `\u` escapes, the newline form of `Print`, and `Unminify`; nodes that the source fills in place are returned as values.
- BloksScriptTheorems.ParseInvertsRender: uses a one-line rendering, because `Print` emits newlines and a newline is not whitespace to the parser.
- BloksInterpreter.Interpreter.RunBuiltin: the builtins of the span that talk to the device, the server or the screen, and `f32.Eq`, `CallRuntime` and `AssertType`, are one operation that is not implemented.
- Bloks interpreter: device, RPC, screen and timer functions (their effect on a login is in `Login`), and the other builtins, which are one operation that is not implemented; nesting of lambda bodies is bounded by a fuel that FuelIsOnlyABound shows to be no restriction on evaluations that end.
- LightSpeed: aliasing of appended Go slices, reflection, logging, and conversions of NaN and out-of-range floats; blob text, `%v` and the clock are parameters.
- Byter.Buffer.ReadToStruct: JSON struct fields and interface fields, because JSON is not part of this model.
- Byter.Buffer.WriteFromStruct: struct and interface fields, for which the source writes nothing.
- Byter: errors other than the end of the buffer, and the panic of allocating for a huge string length.
- Framing.ReadResponse: reports packets of the other known types as failures, because only a PUBLISH has fields behind its header here.
- Framing: JSON payloads, and packets other than PUBLISH behind their header.
- RequestTheorems.FinishedRequestsLeaveNoEntry: is about requests that wait for a response; a request of type 4 leaves its request entry until the connection is cancelled, and a subscription that fails leaves its packet entry.
- RequestTheorems.StepKeepsResponse: excludes cancellation of the connection, failure or timeout of the request itself, and another request that takes its ID after 65535 others; the source can then drop the response.
- RequestTheorems.EarlyResponseIsKept: excludes the same, and starts with an idle read loop.
- Requests: websocket input and output, encryption, and the contents of tasks; timeouts and cancellations can happen at any step.
- Mentions: looking people up, HTML escaping and thread mentions; `sort.Sort` is any ordering by offset.
- Locators: HTML parsing, which yields the text and its locators.
- Locators.SubstituteExactly: is about texts that hold each locator of the list once, in order; the loop skips a locator that is not there, as the specification of the loop says.
- MessageId: chat types outside ASCII, which print as more than one byte.
- EpochId.EpochIdsIncrease: allows one call less at time zero, where the counter does not start at zero.
- Dgw: text messages, which the loop never gets past, and the JSON of Open frames, whose acceptance is a parameter.
- ChunkedDownload: overflow of the offset near 2^63, and headers; the server follows section 14.1.2 of RFC 9110.
- Backfill: subthreads, conversion of messages, and the collectors that wait for history; the sort is any sorted permutation.
- Login: the shape of pages and how scripts are found on them, which are arbitrary outcomes of a step; waiting times, device identifiers, and the parsing of the login response.
- Everything else in the repository: HTTP and websocket plumbing, tables and queries, SQL, Matrix and WhatsApp calls, media conversion, encryption and key exchange, configuration.
