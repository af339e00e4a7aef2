# Perfetto's protocol and storage cores

Dafny models of the parts of Perfetto whose correctness is a matter of whole runs, and proofs of what they promise:

- **The protozero codec** (`Wire`, `Decoder`, `Tree`, `WireFormat`, `ScatteredBuffer`, `Messages`, `Sessions`,
  `SessionTrees`). A one-pass writer reserves four bytes for the length of a nested message and fills them in when the
  message ends, over slices that are not contiguous. Whatever the slices and however calls on open messages are
  interleaved, the bytes are the encoding of the tree described, and the decoder reads that tree back; every tree can
  be described. Which bytes these are is also said in plain numbers. The indexed decoder agrees with linear reading.
- **The pbtxt compiler** (`PbtxtLexer`, `PbtxtPrinter`, `PbtxtDelegate`, `PbtxtMeaning`, `PbtxtCompiler`). A character
  machine drives the codec; printing a tree in any layout, compiling the text and decoding the bytes gives the tree
  back, and the text is compiled without a problem exactly if the tree fits its descriptor.
- **The IPC stack** (`Framing`, `Pipes`, `Socket`, `Deferred`, `Rpc`, `RpcCallbacks`, `RpcLinks`, `RpcReplies`,
  `RpcSafety`, `RpcEffects`, `RpcSystem`, `RpcNotices`, `RpcOnce`, `RpcBinding`, `RpcCalls`, `RpcEndpoints`,
  `RpcObjects`, `RpcConversation`, `RpcChannels`). Frames cut from a byte stream in any pieces; partial sends; the
  request and reply protocol of a host and any number of clients, with streaming replies, connections that drop and
  proxies that go away; the objects that take its steps, and the byte streams that carry its frames.
- **The task runner** (`Ordering`, `TaskRunner`, `TaskRunnerSafety`, `TaskOrder`, `WatchPolling`, `UnixTaskRunner`,
  `WatchRuns`). The threads that post and the thread that polls, as an interleaving of what each does under the lock
  and of the notifications outside it.
- **The process tracker** (`Associations`, `ProcessTracking`). Pending associations of threads, resolved by a search
  over a graph that changes under it.
- **Trace-processor indexes** (`RowIndex`, `Clocks`, `Events`).

## How the files are built

Code that updates objects step by step is a class (or a method with a loop) with the fields and loops of the source.
Its contracts tie each new state to a function of the old one, and also say what the new state is in terms that do not
name that function; the properties are proved of those functions, over every input, run or reachable state. Where
several parties act (`Rpc`, `TaskRunner`) the functions are the steps of a transition system: the classes in
`RpcEndpoints` and `UnixTaskRunner` take these steps and keep what is proved of them, and the theorems range over
every sequence of steps. `Options` and `Powers` have what is used everywhere. Fields that only record what happened
(what a message means, which requests were made, which callbacks were removed) carry the specification and do not
influence what the code does.

## Where the code does less than it seems to promise

Each of these is stated with the exact condition under which the promise holds, and most with an input on which it
fails:

- A redundant varint reads back only up to 28 bits (`Wire.RedundantVarIntRoundTrip`).
- The context stack of the pbtxt parser follows the braces if and only if the schema has every message that was begun
  (`PbtxtMeaning.StackHeight`); an unknown one makes its end pop the wrong context, and then what follows can abort
  the program (`PbtxtMeaning.StackLost`, `PbtxtMeaning.TextAborts`).
- The row vector of the row index, which is documented as sorted, is put out of order by the filter that swaps with
  the last row, and a later intersection may then miss rows (`RowIndex.LostRow`); it misses none, whatever the list,
  exactly if no row is hidden behind a larger one (`RowIndex.SharesAllIff`). A query gets its rows whatever its lists
  and conditions exactly if it starts with a condition or has its lists first (`RowIndex.Query`,
  `RowIndex.OrderLoses`).
- A text whose last character ends a word has that character taken into the word, so that a last semicolon spoils it
  (`PbtxtPrinter.LastCharacter`); with a line break at the end it is not (`PbtxtPrinter.ReadBack`).
- A delayed task that is overdue by more than 2^31 milliseconds can make the runner sleep, because the difference is
  cut to 32 bits (`TaskRunnerSafety.OversleepsOverdue`, `TaskRunnerSafety.TimeoutInTime`). One that is due in 2^31
  milliseconds or later makes it poll for too short a time, perhaps none (`TaskRunnerSafety.TimeoutExact`,
  `TaskRunnerSafety.SpinsEarly`).
- A watch is meant not to be polled while its task waits. It is polled nonetheless if its descriptor is 0, which is
  its own negative, or once the poll table has been made anew because any watch was added or removed
  (`WatchPolling.RunSwitchedOff`); two tasks can then wait for it (`WatchRuns.TwoForZero`,
  `WatchRuns.TwoAfterRebuild`), and otherwise cannot (`WatchPolling.OneTaskWaits`).
- Times of a clock that runs faster than the trace can translate backwards (`Clocks.GoesBack`); they do not exactly if
  the snapshots are steady (`Clocks.TakenOrder`).
- The new main thread of a process that starts is bound to it exactly if no earlier thread with the same id can be
  taken for one of the process (`ProcessTracking.MainThreadMissed`, `ProcessTracking.ProcessTracker.StartNewProcess`).
- Every callback bound to a deferred reply gets exactly one last result if and only if no other is bound over it
  (`Deferred.Fate`, `Deferred.BindLinear`).

## Model

| member | source | states |
|---|---|---|
| `Wire.WriteVarInt` | include/perfetto/protozero/proto_utils.h:148-175 | writes the base-128 varint of any value |
| `Wire.ParseVarInt` | include/perfetto/protozero/proto_utils.h:204-220 | the one-pass parser agrees with the recursive definition: the value modulo 2^64 and the place after it, or zero and nothing consumed when the bytes end first |
| `Wire.VarIntRoundTrip` | include/perfetto/protozero/proto_utils.h:148-220 | every value parses back from its varint, whatever follows |
| `Wire.WriteRedundantVarInt` | include/perfetto/protozero/proto_utils.h:177-190 | writes four bytes in place and leaves every other byte of the buffer alone |
| `Wire.RedundantVarIntRoundTrip` | include/perfetto/protozero/proto_utils.h:177-220 | a four-byte length parses back to its value exactly if the value has at most 28 bits |
| `Wire.LittleEndianRoundTrip` | include/perfetto/protozero/message.h:131-143 | a fixed-width value reads back from its bytes |
| `WireFormat.VarIntAt` | include/perfetto/protozero/proto_utils.h:148-175 | byte i of the varint of any value is its i-th group of seven bits, with the top bit set exactly while more bits follow |
| `WireFormat.LittleEndianAt` | include/perfetto/protozero/message.h:131-143 | byte i of a fixed-width number is its i-th group of eight bits |
| `WireFormat.StartsWithTag` | include/perfetto/protozero/proto_utils.h:34-39 | in numbers: every field starts with the varint of eight times its id plus 0 for a varint, 1 for eight bytes, 2 for bytes and messages, 5 for four bytes |
| `WireFormat.ReadByNumber` | src/protozero/proto_decoder.cc:42-139 | in numbers: what the reader makes of every input that starts with a tag of one byte; types 3, 4, 6 and 7 are no field |
| `WireFormat.IdsRead` | src/protozero/proto_decoder.cc:128-133 | whatever the tag, a field is read exactly if the low 32 bits of its id are from 1 to 65535 |
| `WireFormat.KnownScalar` | include/perfetto/protozero/message.h:95-108 | field 1 with the number 150 is written as the bytes 08 96 01, and read from them |
| `WireFormat.KnownFixed32` | include/perfetto/protozero/message.h:131-143 | field 1 with the four-byte number 1 is written as 0D 01 00 00 00, and read from them |
| `WireFormat.KnownFixed64` | include/perfetto/protozero/message.h:131-143 | field 2 with the eight-byte number 258 is written as 11 02 01 and six zeros, and read from them |
| `WireFormat.KnownBytes` | src/protozero/message.cc:72-87 | field 3 with two bytes is written as 1A 02 and the two, and read from them |
| `WireFormat.KnownMessage` | src/protozero/message.cc:141-161 | field 4 with a message that has field 1 with the number 5: 22, four bytes of length, 08 05 |
| `Decoder.ParseOneField` | src/protozero/proto_decoder.cc:42-139 | a field never reaches past the bytes, has an id between 1 and the maximum, and nothing is consumed when none can be parsed (which bytes are which field is WireFormat.ReadByNumber) |
| `Decoder.ReadAllValid` | src/protozero/proto_decoder.cc:42-162 | every field that repeated reads return is valid |
| `Decoder.ProtoDecoder.ReadField` | src/protozero/proto_decoder.cc:158-162 | returns the next field of the buffer and moves past it, or an invalid field at the end |
| `Decoder.ProtoDecoder.FindField` | src/protozero/proto_decoder.cc:143-156 | the first occurrence of an id in the whole buffer, from any reading position, which is kept |
| `Decoder.StoredIndexes` | src/protozero/proto_decoder.cc:164-203 | storing a field keeps the table in agreement with linear reading: the slot has the last occurrence, overflow entries and slot together all of them in order |
| `Decoder.SkippedIndexes` | src/protozero/proto_decoder.cc:174-176 | a field with an id above the table changes nothing that the table answers for |
| `Decoder.TypedProtoDecoder.constructor` | include/perfetto/protozero/proto_decoder.h:175-240 | after construction the table agrees with linear reading of any bytes |
| `Decoder.TypedProtoDecoder.ParseAllFields` | src/protozero/proto_decoder.cc:164-203 | for every buffer, however often the storage grows, the table agrees with linear reading |
| `Decoder.TypedProtoDecoder.Store` | src/protozero/proto_decoder.cc:178-200 | moves the earlier occurrence to the overflow area, growing it if it is full, and puts the field in its slot |
| `Decoder.TypedProtoDecoder.ExpandHeapStorage` | src/protozero/proto_decoder.cc:205-217 | doubles the storage in fresh memory and keeps every entry |
| `Decoder.TypedProtoDecoder.Get` | include/perfetto/protozero/proto_decoder.h:161-166 | the last occurrence of an id that linear reading would see |
| `Decoder.TypedProtoDecoder.CollectRepeated` | include/perfetto/protozero/proto_decoder.h:86-137 | iteration over a repeated field yields all its occurrences in order |
| `Tree.ParseEncodedNode` | src/protozero/proto_decoder.cc:42-139 | one encoded field parses back, whatever follows it |
| `Tree.DecodeEncode` | src/protozero/message.cc:72-166 | decoding recursively what the writer produces returns the same tree in the same order |
| `Tree.ReadsAllWritten` | src/protozero/proto_decoder.cc:42-162 | reading what the writer produces field by field returns every field that was written, in order |
| `Tree.EncodeInjective` | src/protozero/message.cc:72-166 | two trees of a message type with the same bytes are the same tree |
| `ScatteredBuffer.ScatteredHeapBuffer.GetNewBuffer` | src/protozero/scattered_heap_buffer.cc:47-54 | notes the unused tail of the slice that is left and allocates the next, twice as large up to a maximum |
| `ScatteredBuffer.ScatteredStreamWriter.Written` | include/perfetto/protozero/scattered_stream_writer.h:103-113 | the count kept by the writer is the length of the log |
| `ScatteredBuffer.ScatteredStreamWriter.Extend` | src/protozero/scattered_stream_writer.cc:41-43 | moves to a fresh range without changing the log |
| `ScatteredBuffer.ScatteredStreamWriter.WriteBytesUnsafe` | include/perfetto/protozero/scattered_stream_writer.h:66-71 | the log grows by the bytes, in the current range |
| `ScatteredBuffer.ScatteredStreamWriter.WriteBytes` | include/perfetto/protozero/scattered_stream_writer.h:73-78 | the log grows by the bytes, whether or not they fit the range |
| `ScatteredBuffer.ScatteredStreamWriter.WriteBytesSlowPath` | src/protozero/scattered_stream_writer.cc:45-58 | the log grows by exactly the bytes, spread over as many ranges as it takes |
| `ScatteredBuffer.ScatteredStreamWriter.ReserveBytes` | src/protozero/scattered_stream_writer.cc:60-73 | reserves contiguous memory whose place in the log is known, whatever was left of the range before |
| `ScatteredBuffer.ScatteredStreamWriter.Backfill` | src/protozero/message.cc:121-131 | filling a reservation changes the log at the reserved place and nowhere else |
| `ScatteredBuffer.ScatteredStreamWriter.StitchSlices` | src/protozero/scattered_heap_buffer.cc:56-66 | returns the whole log, without the unused tails |
| `ScatteredBuffer.AddressesKept` | src/protozero/scattered_stream_writer.cc:60-73 | an address stays good for the same place in the log, whatever is written later |
| `ScatteredBuffer.FlattenSplice` | src/protozero/scattered_heap_buffer.cc:56-66 | a change inside one slice is a change at one place of the log |
| `ScatteredBuffer.Replay` | src/protozero/scattered_stream_writer.cc:34-73 | for every sequence of writes, reservations and backfills and all slice sizes, the stitched slices are the flat log |
| `Messages.Message.WriteToStream` | include/perfetto/protozero/message.h:183-189 | the message and the log grow by the bytes |
| `Messages.Message.AppendVarInt` | include/perfetto/protozero/message.h:95-108 | closes what is nested below and adds a varint field (its bytes in numbers are WireFormat.StartsWithTag and WireFormat.VarIntAt) |
| `Messages.Message.AppendTinyVarInt` | include/perfetto/protozero/message.h:116-128 | the short form writes the same field as the general one |
| `Messages.Message.AppendFixed64` | include/perfetto/protozero/message.h:131-143 | adds an eight-byte field |
| `Messages.Message.AppendFixed32` | include/perfetto/protozero/message.h:131-143 | adds a four-byte field |
| `Messages.Message.AppendBytes` | src/protozero/message.cc:72-87 | closes what is nested below and adds a bytes field |
| `Messages.Message.AppendScatteredBytes` | src/protozero/message.cc:89-112 | writes one bytes field gathered from several ranges behind all that was written, and counts it as this message's; with nothing open inside, it is one more field |
| `Messages.Message.Finalize` | src/protozero/message.cc:114-139 | closes everything nested below and fills the length fields; the rest of the log does not change |
| `Messages.Message.Seal` | src/protozero/message.cc:121-138 | the reserved length field of a nested message, or of a root that has one, gets the size less what was declared as written before |
| `Messages.Message.EndNestedMessage` | src/protozero/message.cc:163-166 | the finished nested message becomes one more field of the message around it |
| `Messages.Message.BeginNestedMessage` | src/protozero/message.cc:141-161 | opens a message inside, with a reserved length field at the end of the log |
| `Messages.Message.IncSizeAlreadyWritten` | include/perfetto/protozero/message.h:80-84 | declares part of any open message, the root included, as written elsewhere, before or after its bytes are written; every open message stays in its place |
| `Messages.NestedCommits` | src/protozero/message.cc:114-166 | once its length is filled in, a nested message is the encoding of one more field |
| `Messages.GrownOk` | include/perfetto/protozero/message.h:183-189 | writing to the innermost message keeps every open message in its place |
| `Messages.BegunOk` | src/protozero/message.cc:141-161 | opening a nested message keeps every open message in its place |
| `Messages.SealedOk` | src/protozero/message.cc:121-138 | filling the length of the innermost message keeps every open message in its place |
| `Messages.MergedOk` | src/protozero/message.cc:163-166 | closing the innermost message keeps every open message in its place |
| `Messages.AppendedOk` | include/perfetto/protozero/message.h:183-189 | bytes that encode a field, written behind the innermost message, are one more field of it, and every open message stays in its place |
| `Messages.AlreadyOk` | include/perfetto/protozero/message.h:80-84 | what is declared as written elsewhere moves no open message |
| `Sessions.SizesAddUp` | src/protozero/message.cc:114-166 | at every point of every session the bytes written are the sum of the sizes along the chain of open messages |
| `Sessions.WeightIs` | src/protozero/message.cc:114-166 | the bytes that a message has so far are those of the encodings and headers along the chain |
| `Sessions.CoveredIs` | src/protozero/message.cc:124-128 | whether the messages to be closed have as many bytes as were declared of them can be told from the tree described |
| `Sessions.LengthReadsBack` | src/protozero/message.cc:121-131 | a closed message's length field parses to its byte count, less what was declared as written before |
| `Sessions.Perform` | src/protozero/message.cc:72-166 | one call on any open message (a field, scattered bytes, a declaration, a beginning or an end), closing what is nested below it, keeps memory and meaning in step |
| `Sessions.Write` | src/protozero/message.cc:72-166 | for every well-nested session and all slice sizes the bytes are the encoding of the tree described, and decode to it |
| `SessionTrees.TreeIsMeant` | src/protozero/message.cc:72-166 | for every tree within the nesting limit, the calls that name its fields in order and enter and leave its messages are allowed, and mean that tree |
| `SessionTrees.WriteTree` | src/protozero/message.cc:72-166 | every tree within the nesting limit can be written, comes out as its encoding whatever the slices, and decodes to itself |
| `Sessions.WritePacket` | src/tracing/core/trace_writer_impl.cc:85-143 | a message whose length field is reserved in front of it in the same stream: for every well-nested session the bytes are that length, less what was declared as written elsewhere, and the encoding of the tree described |
| `Sessions.SessionDone` | src/protozero/message.cc:114-139 | at the end of every session the log is the root's filled-in length field, if it has one, and the encoding of the tree |
| `PbtxtLexer.StepReports` | src/perfetto_cmd/pbtxt_to_pb.cc:483-601 | a character gives at most one report, and the depth moves only with a beginning or an end |
| `PbtxtLexer.RunSound` | src/perfetto_cmd/pbtxt_to_pb.cc:457-611 | in every run the reports are balanced up to the current depth, and strings never end in the middle of an escape |
| `PbtxtLexer.RunConcat` | src/perfetto_cmd/pbtxt_to_pb.cc:457-611 | reading a text in two parts is reading it at once |
| `PbtxtPrinter.RunPrint` | src/perfetto_cmd/pbtxt_to_pb.cc:457-611 | reading a printed tree, whatever white space and comments are between its parts and whether or not it has colons and semicolons, gives exactly its reports and comes back to the same state |
| `PbtxtPrinter.ReadBack` | src/perfetto_cmd/pbtxt_to_pb.cc:457-611 | reading a printed document in any layout reports exactly the tree that was printed |
| `PbtxtPrinter.RunBlank` | src/perfetto_cmd/pbtxt_to_pb.cc:468-492 | between fields, and between a key and its value, white space and comments make no difference |
| `PbtxtPrinter.LastCharacter` | src/perfetto_cmd/pbtxt_to_pb.cc:589-597 | the semicolon of a word at the very end of an input becomes part of the word |
| `PbtxtDelegate.FindFieldIs` | src/perfetto_cmd/pbtxt_to_pb.cc:392-402 | the lookup gives the first field with the name, and none exactly if none has it |
| `PbtxtDelegate.FindEnumIs` | src/perfetto_cmd/pbtxt_to_pb.cc:298-311 | the lookup gives the number of the first enum value with the name, and none exactly if none has it |
| `PbtxtDelegate.HandleInStep` | src/perfetto_cmd/pbtxt_to_pb.cc:151-336 | whatever is reported, what the delegate asks of the writer is well nested and fits its stack |
| `PbtxtDelegate.DriveInStep` | src/perfetto_cmd/pbtxt_to_pb.cc:151-336 | the same over every sequence of reports |
| `PbtxtMeaning.StackHeight` | src/perfetto_cmd/pbtxt_to_pb.cc:317-336 | for all reports the parser survives, the context stack has the types that the schema alone says were entered, its height is the depth plus one less the messages that the schema does not have, and it is the depth plus one if and only if the schema has every message begun |
| `PbtxtMeaning.HeightIsDepth` | src/perfetto_cmd/pbtxt_to_pb.cc:317-336 | at every character of every input the parser survives, the height is the number of open braces plus one if and only if the schema has every message begun; so it is as long as no problem was reported |
| `PbtxtMeaning.StackLost` | src/perfetto_cmd/pbtxt_to_pb.cc:317-336 | after an unknown nested field and its end the context stack is empty, and the next report aborts |
| `PbtxtMeaning.TextAborts` | src/perfetto_cmd/pbtxt_to_pb.cc:317-336 | every text that is an empty message the schema does not have, followed by any other fields, aborts the program |
| `PbtxtMeaning.SmallTextAborts` | src/perfetto_cmd/pbtxt_to_pb.cc:317-336 | one such text |
| `PbtxtMeaning.NumberSurvives` | src/perfetto_cmd/pbtxt_to_pb.cc:151-201 | a reader of a field of any integer type gets back every number, negative ones included, that the type has |
| `PbtxtMeaning.NumberWritten` | src/perfetto_cmd/pbtxt_to_pb.cc:151-201 | every integer, negative or too large included, is written as the low bits of its type, sign-extended, in zigzag or with a fixed width as the type asks |
| `PbtxtMeaning.NumberEnds` | src/perfetto_cmd/pbtxt_to_pb.cc:383-390 | a number is read up to the first character that is not a digit, and a sign alone is not a number |
| `PbtxtMeaning.WordIsTaken` | src/perfetto_cmd/pbtxt_to_pb.cc:274-315 | true and false are written as 1 and 0 and any other word in a boolean field is an error; an enum value is written as the number of the first value with its name, a negative one in 64-bit two's complement; a word that no value has, and only that, aborts the program |
| `PbtxtMeaning.EscapesKnown` | src/perfetto_cmd/pbtxt_to_pb.cc:226-265 | the escapes a, b, t, n, v, f and r are the bytes 7 to 13, quotes, backslash and question mark are themselves, and no other is known |
| `PbtxtMeaning.DigitsKnown` | src/perfetto_cmd/pbtxt_to_pb.cc:383-390 | digits count as they do in decimal |
| `PbtxtMeaning.BadTextIsTaken` | src/perfetto_cmd/pbtxt_to_pb.cc:219-265 | an unknown escape is an error and nothing is written |
| `PbtxtMeaning.UnescapeEscape` | src/perfetto_cmd/pbtxt_to_pb.cc:203-272 | unescaping undoes escaping, for every text |
| `PbtxtMeaning.DriveEntries` | src/perfetto_cmd/pbtxt_to_pb.cc:151-336 | driven by a well-typed tree the delegate complains about nothing and adds exactly the fields the tree means |
| `PbtxtMeaning.ParsePrintedTree` | src/perfetto_cmd/pbtxt_to_pb.cc:457-611 | compiling a printed tree that fits its descriptor, in any layout, gives no problem, and calls that mean that tree |
| `PbtxtMeaning.TakenIffTyped` | src/perfetto_cmd/pbtxt_to_pb.cc:151-440 | a printed tree in any layout is compiled without a problem if and only if it fits its descriptor: every field known, of the right kind, repeated only where it may be, every word a value of its field, and not nested too deep |
| `PbtxtMeaning.UnmatchedEnds` | src/perfetto_cmd/pbtxt_to_pb.cc:489-498 | a closing brace too many ends the parse with that one error and what was compiled before it, whatever follows |
| `PbtxtMeaning.UnexpectedAborts` | src/perfetto_cmd/pbtxt_to_pb.cc:504-513 | where a field could start, every character that starts none aborts the program |
| `PbtxtMeaning.CleanIsSettled` | src/perfetto_cmd/pbtxt_to_pb.cc:635-675 | a text without problems ends between two fields, outside of all braces, and leaves no message open below the root |
| `PbtxtCompiler.NextCharacter` | src/perfetto_cmd/pbtxt_to_pb.cc:468-601 | the loop over positions and tokens takes the same step as the machine over characters, for every character |
| `PbtxtCompiler.NextField` | src/perfetto_cmd/pbtxt_to_pb.cc:483-512 | waiting for a key: the same step as the machine |
| `PbtxtCompiler.NextKey` | src/perfetto_cmd/pbtxt_to_pb.cc:514-521 | reading a key: the same step as the machine, with the character that ends the key swallowed |
| `PbtxtCompiler.NextValue` | src/perfetto_cmd/pbtxt_to_pb.cc:523-557 | waiting for a value: the same step as the machine |
| `PbtxtCompiler.NextNumber` | src/perfetto_cmd/pbtxt_to_pb.cc:559-570 | reading a number: the same step as the machine, including at the last character |
| `PbtxtCompiler.NextString` | src/perfetto_cmd/pbtxt_to_pb.cc:572-587 | reading a string or an escape: the same step as the machine |
| `PbtxtCompiler.NextIdentifier` | src/perfetto_cmd/pbtxt_to_pb.cc:589-600 | reading an identifier: the same step as the machine, including at the last character |
| `PbtxtCompiler.UnescapeToken` | src/perfetto_cmd/pbtxt_to_pb.cc:213-263 | the loop over a string token computes its unescaped bytes, or the first bad escape |
| `PbtxtCompiler.ParserDelegate.FindFieldByName` | src/perfetto_cmd/pbtxt_to_pb.cc:392-440 | finds the first field with the name in the current message type; reports an unknown name, a repetition that is not allowed and a wrong type, each exactly when it is one; only an unknown name and a wrong type hide the field |
| `PbtxtCompiler.ParserDelegate.NumericField` | src/perfetto_cmd/pbtxt_to_pb.cc:151-201 | every decimal number is written as the type of its field asks |
| `PbtxtCompiler.ParserDelegate.StringField` | src/perfetto_cmd/pbtxt_to_pb.cc:203-272 | writes the unescaped bytes of a string; an unknown escape is an error and writes nothing |
| `PbtxtCompiler.ParserDelegate.IdentifierField` | src/perfetto_cmd/pbtxt_to_pb.cc:274-315 | writes 1 or 0 for a boolean, or the declared number of the first enum value with the name; any other word is an error for a boolean, and for an enum aborts the program exactly if no value has the name |
| `PbtxtCompiler.ResolveIdentifier` | src/perfetto_cmd/pbtxt_to_pb.cc:283-311 | the loop over the enum values finds the first with the name, or none exactly if none has it |
| `PbtxtCompiler.FirstNamed` | src/perfetto_cmd/pbtxt_to_pb.cc:395-402 | the loop over the fields finds the first with the name, or none exactly if none has it |
| `PbtxtCompiler.ParserDelegate.BeginNestedMessage` | src/perfetto_cmd/pbtxt_to_pb.cc:317-331 | opens the nested message and pushes its context, or neither |
| `PbtxtCompiler.ParserDelegate.EndNestedMessage` | src/perfetto_cmd/pbtxt_to_pb.cc:333-336 | closes the message and pops its context, whether or not one was pushed |
| `PbtxtCompiler.ParseInput` | src/perfetto_cmd/pbtxt_to_pb.cc:457-611 | for every input, the loop that drives the writer ends with the problems and the calls that the definition gives |
| `PbtxtCompiler.PbtxtToPb` | src/perfetto_cmd/pbtxt_to_pb.cc:635-675 | for every input without problems the bytes encode what it means; a printed tree, in any layout, is compiled without a problem if and only if it fits its descriptor, and its bytes then decode to that tree |
| `Framing.DrainPieces` | src/ipc/buffered_frame_deserializer.cc:67-125 | a stream that arrives in two pieces holds the same frames, and is rejected at the same frame, as in one |
| `Framing.DrainLeavesIncomplete` | src/ipc/buffered_frame_deserializer.cc:91-125 | what is left after draining is the start of one frame that fits, or a frame that never can |
| `Framing.DrainStream` | src/ipc/buffered_frame_deserializer.cc:177-190 | serialized frames that fit come back exactly, with nothing left over |
| `Framing.DrainAnyStream` | src/ipc/buffered_frame_deserializer.cc:91-125 | any stream of frames is rejected if and only if one of them does not fit, and exactly there, after all frames before it |
| `Framing.HeaderBytes` | src/ipc/buffered_frame_deserializer.cc:177-190 | in numbers: a frame starts with its length in four bytes, the lowest first |
| `Framing.BufferedFrameDeserializer.BeginReceive` | src/ipc/buffered_frame_deserializer.cc:48-65 | there is always space to receive into, and it never overlaps what is live |
| `Framing.BufferedFrameDeserializer.EndReceive` | src/ipc/buffered_frame_deserializer.cc:67-156 | decodes every complete frame, keeps the rest, and refuses exactly a frame that can never fit |
| `Framing.BufferedFrameDeserializer.NextFrame` | src/ipc/buffered_frame_deserializer.cc:93-118 | tells part of a frame, a whole frame and one that is too large apart |
| `Framing.BufferedFrameDeserializer.DecodeAll` | src/ipc/buffered_frame_deserializer.cc:89-125 | the loop takes exactly the whole frames at the front |
| `Framing.BufferedFrameDeserializer.Shift` | src/ipc/buffered_frame_deserializer.cc:127-155 | the bytes left are moved to the front, and giving back pages does not touch them |
| `Framing.BufferedFrameDeserializer.DecodeFrame` | src/ipc/buffered_frame_deserializer.cc:166-175 | an empty frame and one that does not parse are skipped |
| `Framing.BufferedFrameDeserializer.PopNextFrame` | src/ipc/buffered_frame_deserializer.cc:158-164 | hands out the oldest frame, or nothing |
| `Framing.Receive` | src/ipc/buffered_frame_deserializer.cc:48-156 | for every stream and every split into receives, what is decoded and whether the stream is rejected depend only on the bytes received, and receiving always gets on |
| `Framing.FramesRoundTrip` | src/ipc/buffered_frame_deserializer.cc:67-190 | if parsing undoes serializing, the frames decoded from any stream of frames that fit are the frames sent, in order |
| `Framing.FramesArrive` | src/ipc/buffered_frame_deserializer.cc:67-190 | frames that fit, sent whole, arrive in order however they are cut up, and are never rejected |
| `Socket.ShiftMsgHdr` | src/base/unix_socket.cc:103-122 | drops the bytes sent from the front of the message, for all lengths of its pieces, and empties it exactly when nothing is left |
| `Socket.ShiftedGather` | src/base/unix_socket.cc:103-122 | the pieces left gather to the rest of the message |
| `Socket.UnixSocket.SendMsgAll` | src/base/unix_socket.cc:228-248 | for every schedule of partial sends, bytes accepted and bytes left make up the message; without errors all of it is sent; it stops early only at a call that fails, with -1, or would block, with the count so far; ancillary data goes with the first bytes only |
| `Associations.ConnectedAgree` | src/trace_processor/process_tracker.cc:200-237 | threads connected to a bound thread are unbound or bound to the same process |
| `Associations.FollowedUnderway` | src/trace_processor/process_tracker.cc:220-236 | following a pair keeps the search right, despite erasing by swapping |
| `Associations.ErasedKeeps` | src/trace_processor/process_tracker.cc:228-231 | erasing by swapping removes one pair and keeps the others as a multiset |
| `Associations.SearchDone` | src/trace_processor/process_tracker.cc:200-237 | when nothing is left to look at, exactly the component is bound and exactly its pairs are gone |
| `ProcessTracking.ProcessTracker.StartNewThread` | src/trace_processor/process_tracker.cc:36-45 | a new unbound thread, listed last under its id |
| `ProcessTracking.ProcessTracker.UpdateThreadName` | src/trace_processor/process_tracker.cc:47-64 | the latest thread with the id gets the name unless the name is 0, and no other thread changes; if there is none, a new one is added |
| `ProcessTracking.ProcessTracker.FindCandidate` | src/trace_processor/process_tracker.cc:66-90 | the first thread with the id that is unbound or in a process with the pid |
| `ProcessTracking.ProcessTracker.UpdateThread` | src/trace_processor/process_tracker.cc:66-108 | chooses the first candidate or a new thread, which ends up in a process with the pid; if it was unbound it gets the process known by the pid, with exactly what waited for it, and nothing is bound to any other process |
| `ProcessTracking.ProcessTracker.GetOrCreateProcess` | src/trace_processor/process_tracker.cc:144-167 | the recursion through the main thread ends; a known start time stays, a new process takes that of its unbound main thread; every thread bound on the way is bound to the process returned |
| `ProcessTracking.ProcessTracker.StartNewProcess` | src/trace_processor/process_tracker.cc:110-119 | a new process and a new thread; which thread is taken for the main thread and is bound to the process; it is the new one exactly if no earlier thread with that id could be taken for one of the process |
| `ProcessTracking.MainThreadMissed` | src/trace_processor/process_tracker.cc:110-119 | a run in which an earlier thread with the same id gets the new process and its new main thread does not |
| `ProcessTracking.ProcessTracker.UpdateProcess` | src/trace_processor/process_tracker.cc:121-136 | names the process and its parent; every thread newly bound is bound to one of these two, and no binding changes |
| `ProcessTracking.ProcessTracker.UpdateProcessStart` | src/trace_processor/process_tracker.cc:138-142 | the process with the pid: a known one gets the start time only if it had none; a new one gets that of its unbound main thread if it has one, else the given one |
| `ProcessTracking.ProcessTracker.AssociateThreads` | src/trace_processor/process_tracker.cc:169-198 | for any two threads, the same one twice included: binds the other thread and its component, or lets both wait, or reports a conflict and changes nothing |
| `ProcessTracking.ProcessTracker.ResolvePendingAssociations` | src/trace_processor/process_tracker.cc:200-237 | ends, binds exactly the component of the thread, removes exactly its pairs and keeps the others as a multiset |
| `ProcessTracking.ProcessTracker.SettleThread` | src/trace_processor/process_tracker.cc:99-107 | binding an unbound thread binds exactly the threads connected to it and changes nothing else |
| `ProcessTracking.ProcessTracker.ResolveOne` | src/trace_processor/process_tracker.cc:209-236 | one pass over pairs that change under it misses none |
| `ProcessTracking.ResolvedOk` | src/trace_processor/process_tracker.cc:200-237 | after resolving, every pending pair has both ends unbound or bound to one process, and no binding has changed |
| `ProcessTracking.TiedAgree` | src/trace_processor/process_tracker.cc:169-237 | threads connected by associations, however far apart, are bound to one process or to none |
| `ProcessTracking.Replay` | src/trace_processor/process_tracker.cc:36-237 | every sequence of calls goes from the empty tables by exactly what each call may do to all tables; in it a binding never changes once made, and threads connected by associations are never in different processes |
| `RowIndex.FilteredRowIndex.IntersectRows` | src/trace_processor/filtered_row_index.cc:27-71 | computes the restriction of each of the three forms; keeps exactly the rows that are also in the list, provided the row vector hides none |
| `RowIndex.SharesAllIff` | src/trace_processor/filtered_row_index.cc:45-50 | the walk over two lists finds what they share for every list exactly if no row comes after a larger one without having come before it; without repetitions, exactly if the row vector is in order |
| `RowIndex.LostRow` | src/trace_processor/filtered_row_index.cc:27-90 | a query on the index that loses a row which satisfies all its restrictions |
| `RowIndex.FilteredRowIndex.FilterRows` | src/trace_processor/filtered_row_index.h:57-73 | computes the restriction of each of the three forms; keeps exactly the rows that satisfy the condition |
| `RowIndex.FilteredRowIndex.FilterAllRows` | src/trace_processor/filtered_row_index.h:99-108 | marks exactly the rows of the range that satisfy the condition |
| `RowIndex.FilteredRowIndex.FilterBitVector` | src/trace_processor/filtered_row_index.h:110-121 | clears exactly the marks of rows that fail the condition |
| `RowIndex.FilterRowVector` | src/trace_processor/filtered_row_index.h:123-135 | erases in place by swapping with the last row |
| `RowIndex.SwapFilterKeeps` | src/trace_processor/filtered_row_index.h:123-135 | the rows left are those that satisfy the condition, each once; their order is kept exactly if none was dropped |
| `RowIndex.SetIntersection` | src/trace_processor/filtered_row_index.cc:45-50 | the loop over two lists computes the walk |
| `RowIndex.MergeShared` | src/trace_processor/filtered_row_index.cc:45-50 | the walk over a list that hides no row and one in order finds exactly what they share |
| `RowIndex.MergeMisses` | src/trace_processor/filtered_row_index.cc:45-50 | the walk misses every row that a larger one hides |
| `RowIndex.FillAround` | src/trace_processor/filtered_row_index.cc:53-70 | clears the mark of every row that is not in the list and of no other |
| `RowIndex.SortDistinct` | src/trace_processor/filtered_row_index.cc:30-31 | sorting a list changes how often no row is in it |
| `RowIndex.RestrictedHas` | src/trace_processor/filtered_row_index.cc:27-71 | each restriction of each form keeps exactly the rows it accepts, but for a list after rows that hide one |
| `RowIndex.FilteredRowIndex.ToRowVector` | src/trace_processor/filtered_row_index.cc:73-90 | the wanted rows, in order unless they were a row vector; the index is as new |
| `RowIndex.FilteredRowIndex.ConvertBitVectorToRowVector` | src/trace_processor/filtered_row_index.cc:92-105 | the marked rows in order |
| `RowIndex.Query` | src/trace_processor/filtered_row_index.cc:27-90 | every query on the index gets the rows of the restrictions one after the other; with a condition first, or all lists before the conditions, exactly the rows that satisfy all of them |
| `RowIndex.OrderLoses` | src/trace_processor/filtered_row_index.cc:27-90 | for every other order of lists and conditions there are lists and conditions for which a row that satisfies all of them is lost |
| `Clocks.ClockTracker.SyncClocks` | src/trace_processor/clock_tracker.cc:31-58 | refuses a snapshot exactly if trace time does not advance, or the monotonic clock does not; otherwise it takes the place of exactly those kept that are not before it in the clock |
| `Clocks.ClockTracker.ToTraceTime` | src/trace_processor/clock_tracker.cc:60-75 | the binary search gives what scanning the snapshots would give: every time, also before the first and after the last snapshot, is as far from the snapshot it goes by in trace time as in the clock |
| `Clocks.DistanceKept` | src/trace_processor/clock_tracker.cc:60-75 | every time is as far from the last snapshot not after it, or else from the first, in trace time as in the clock |
| `Clocks.DistancesKept` | src/trace_processor/clock_tracker.cc:60-75 | two times with no snapshot but the first between them are as far apart in trace time as in the clock |
| `Clocks.StandingIncreasing` | src/trace_processor/clock_tracker.cc:31-58 | the snapshots kept increase strictly in both clocks |
| `Clocks.StandingSnoc` | src/trace_processor/clock_tracker.cc:46-55 | a new snapshot drops from the end exactly those at or after its clock time |
| `Clocks.TakenExact` | src/trace_processor/clock_tracker.cc:60-75 | after every run each snapshot that no later one contradicts translates to its own trace time |
| `Clocks.TakenOrder` | src/trace_processor/clock_tracker.cc:60-75 | after every run translation never goes backwards if and only if between neighbouring snapshots that stand trace time advances no less than the clock, but for the last instant |
| `Clocks.GoesBack` | src/trace_processor/clock_tracker.cc:60-75 | two snapshots for which a later time translates to an earlier one |
| `Events.EventTracker.PushSchedSwitch` | src/trace_processor/event_tracker.cc:49-132 | a switch in order closes the open slice of its CPU if it was for the thread now left, opens the next for the latest thread with the id switched to, gives the two threads their names and changes no other thread and nothing else of the process tracker; one out of order changes nothing there at all |
| `Events.SwitchNames` | src/trace_processor/event_tracker.cc:70-72 | after a switch between two threads each has the name given for it, if one was, and no other thread has changed |
| `Events.EventTracker.PushCounter` | src/trace_processor/event_tracker.cc:134-155 | adds a counter value unless it comes out of order |
| `Events.PushedSlices` | src/trace_processor/event_tracker.cc:76-131 | after a switch every slice ends where the next switch on its CPU says |
| `Events.SlicesTile` | src/trace_processor/event_tracker.cc:76-131 | slices start in order, those of a CPU never overlap, and each has no length or ends exactly where the next begins |
| `Events.Track` | src/trace_processor/event_tracker.cc:49-155 | over every run the slices and counters are those of the events that came in order, each slice names the thread with the id that was switched to, and there is one thread for each id mentioned, with the last name given for it and the time of its first mention |
| `TaskRunnerSafety.OtherOk` | src/base/unix_task_runner.cc:180-222 | whatever another thread asks for, it leaves the event signalled or owes the notification if the polling thread has more to do |
| `TaskRunnerSafety.TakeLockOk` | src/base/unix_task_runner.cc:43-56 | nothing is forgotten between computing the timeout and polling |
| `TaskRunnerSafety.PostNextOk` | src/base/unix_task_runner.cc:123-147 | clearing the event and switching a watch off keep the invariant |
| `TaskRunnerSafety.BeginWatchFinds` | src/base/unix_task_runner.cc:149-167 | the lookup that begins a watch's task finds its place in the poll table |
| `TaskRunnerSafety.BeginWatchOk` | src/base/unix_task_runner.cc:149-167 | switching a watch on again keeps the invariant |
| `TaskRunnerSafety.RebuiltCorresponds` | src/base/unix_task_runner.cc:83-93 | a poll table made anew corresponds one to one with the watches |
| `TaskRunnerSafety.RunOk` | src/base/unix_task_runner.cc:43-222 | in every state of every interleaving no wake-up is lost, the poll table corresponds with unchanged watches up to sign, and no watch stays switched off without a task for it |
| `TaskRunnerSafety.EventReported` | src/base/unix_task_runner.cc:58-60 | a signalled event is reported to the thread that polls |
| `TaskRunnerSafety.TimeoutInTime` | src/base/unix_task_runner.cc:169-178 | the timeout lets no delayed task wait too long exactly unless the first is overdue by more than 2^31 ms and the 32-bit difference is positive |
| `TaskRunnerSafety.TimeoutExact` | src/base/unix_task_runner.cc:169-178 | the timeout is the time until the first delayed task exactly if that is less than 2^31 milliseconds and the task is not overdue by so much that the 32-bit difference comes out positive; beyond 2^31 it is always too short |
| `TaskRunnerSafety.SpinsEarly` | src/base/unix_task_runner.cc:174-175 | a task due in 2^31 milliseconds gives a timeout of zero |
| `TaskRunnerSafety.OversleepsOverdue` | src/base/unix_task_runner.cc:169-178 | an overdue task for which the runner sleeps almost 25 days |
| `TaskRunnerSafety.RemovedNeverRuns` | src/base/unix_task_runner.cc:149-222 | the callback of a removed watch is never selected later |
| `WatchPolling.RunSwitchedOff` | src/base/unix_task_runner.cc:83-167 | in every state of every run, while no watch has changed, a watch is switched off if and only if its task was posted since the poll table was made and has not begun, and its descriptor is not 0 |
| `WatchPolling.OneTaskWaits` | src/base/unix_task_runner.cc:123-167 | as long as no watch is added or removed, at most one task waits for each watch whose descriptor is not 0 |
| `WatchPolling.StepWaiting` | src/base/unix_task_runner.cc:95-167 | in every step the number of tasks that wait for a watch grows only when the loop over the poll table posts one and shrinks only when one begins |
| `WatchRuns.TwoAfterRebuild` | src/base/unix_task_runner.cc:83-147 | a run in which two tasks wait for one watch, because another was added while the first task waited |
| `WatchRuns.TwoForZero` | src/base/unix_task_runner.cc:141-146 | a run in which two tasks wait for descriptor 0 |
| `TaskOrder.FirstInFirstOut` | src/base/unix_task_runner.cc:95-121 | in every run the immediate tasks posted are those that the running thread took in hand, in that order, and then those waiting |
| `TaskOrder.NoneLost` | src/base/unix_task_runner.cc:95-121 | in every run the delayed tasks posted for a time are those that the running thread took in hand, in that order, and then those waiting |
| `TaskOrder.EarliestFirst` | src/base/unix_task_runner.cc:95-121 | whenever the running thread looks, a delayed task is taken in hand if and only if one is due, and it is the earliest |
| `TaskOrder.EachRunsOnce` | src/base/unix_task_runner.cc:95-167 | in every run each task taken in hand is run to its end once, in that order, and what is not over is still in hand |
| `TaskOrder.WatchHasItsCallback` | src/base/unix_task_runner.cc:201-222 | in every run the callback of a watch is the one that its descriptor was last added with |
| `TaskOrder.WatchRunsItsCallback` | src/base/unix_task_runner.cc:149-167 | a watch's task hands over to the callback of the watch if it is still there, and to nothing otherwise |
| `UnixTaskRunner.UnixTaskRunner.constructor` | src/base/unix_task_runner.cc:30-35 | the runner starts with the event watched and signalled |
| `UnixTaskRunner.UnixTaskRunner.WakeUp` | src/base/unix_task_runner.cc:39-41 | pays one notification that is owed, and signals the event |
| `UnixTaskRunner.UnixTaskRunner.PostTask` | src/base/unix_task_runner.cc:180-189 | the task goes to the end of the queue, and the caller must notify exactly if the queue was empty |
| `UnixTaskRunner.UnixTaskRunner.PostDelayedTask` | src/base/unix_task_runner.cc:191-199 | the task waits after all others of its time, the queue stays in the order of time, and the caller must notify |
| `UnixTaskRunner.UnixTaskRunner.AddFileDescriptorWatch` | src/base/unix_task_runner.cc:201-211 | the descriptor is watched, with a callback that no other watch has; the other watches stay, the table is out of date and the caller must notify |
| `UnixTaskRunner.UnixTaskRunner.RemoveFileDescriptorWatch` | src/base/unix_task_runner.cc:213-222 | the descriptor, and no other, is no longer watched, and the table is out of date |
| `UnixTaskRunner.UnixTaskRunner.Quit` | src/base/unix_task_runner.cc:67-71 | takes the step of the protocol and notifies under the lock |
| `UnixTaskRunner.UnixTaskRunner.TakeLock` | src/base/unix_task_runner.cc:48-57 | leaves exactly if it is to quit; otherwise returns the timeout, and the poll table corresponds with the watches, which keep their callbacks |
| `UnixTaskRunner.UnixTaskRunner.PostFileDescriptorWatch` | src/base/unix_task_runner.cc:125-146 | the entry, if it is ready and not the event, gets its task at the end and is switched off if and only if its descriptor is not 0; the event is cleared; no other entry changes |
| `UnixTaskRunner.UnixTaskRunner.PostFileDescriptorWatches` | src/base/unix_task_runner.cc:123-147 | whatever other threads do before any turn or notification, exactly the watches found ready get a task, in the order of the table; of these exactly those with a descriptor other than 0 are switched off, no other descriptor changes, and nothing is owed at the end |
| `UnixTaskRunner.UnixTaskRunner.RunImmediateAndDelayedTask` | src/base/unix_task_runner.cc:95-121 | what is run is the first immediate task, if there is one, and after it the earliest delayed one, if and only if one is due; exactly these leave the queues |
| `UnixTaskRunner.TakeTasks` | src/base/unix_task_runner.cc:100-113 | the part of it that holds the lock |
| `UnixTaskRunner.UnixTaskRunner.RunFileDescriptorWatch` | src/base/unix_task_runner.cc:149-167 | selects the callback of the watch if there is still one for the descriptor, which is then polled again, and none otherwise |
| `UnixTaskRunner.UpdateWatchTasksLocked` | src/base/unix_task_runner.cc:83-93 | the loop makes the poll table in the order of the descriptors, with each watch's place |
| `UnixTaskRunner.InsertDelayed` | src/base/unix_task_runner.cc:191-199 | a delayed task goes after all that are due no later |
| `UnixTaskRunner.GetDelayMsToNextTaskLocked` | src/base/unix_task_runner.cc:169-178 | zero with an immediate task, none without any task, and else the time until the first delayed one exactly if 32 bits hold the difference, or it comes out negative |
| `Deferred.DeferredBase.Resolve` | src/ipc/deferred.cc:62-71 | hands on a result and lets the callback go with the last one |
| `Deferred.DeferredBase.Reject` | src/ipc/deferred.cc:74-76 | hands on a last result without a message |
| `Deferred.DeferredBase.Destroy` | src/ipc/deferred.cc:29-32 | rejects a callback that is still there |
| `Deferred.DeferredBase.Move` | src/ipc/deferred.cc:48-51 | takes the callback over, and leaves none behind |
| `Deferred.DeferredBase.Assign` | src/ipc/deferred.cc:41-46 | rejects its own callback and takes the other's over; assigned to itself, it holds none |
| `Deferred.BindLinear` | src/ipc/deferred.cc:53-56 | binding keeps every callback accounted for exactly if the place was empty; otherwise the one that was there is lost |
| `Deferred.ResolveLinear` | src/ipc/deferred.cc:62-71 | a result keeps every callback accounted for |
| `Deferred.MoveLinear` | src/ipc/deferred.cc:41-51 | moving keeps every callback in one place |
| `Deferred.Fate` | src/ipc/deferred.cc:25-76 | over every sequence of operations, once all places are gone, a callback that was bound has been given exactly the results given to the place it was in, in order, and a rejection if it was still held; it has had exactly one last result if and only if no other callback was ever bound over it, and otherwise none |
| `Deferred.Live` | src/ipc/deferred.cc:25-76 | the objects, whatever is done with any number of them and once all are destroyed, have given each callback what the run says |
| `RpcCallbacks.InvokeOk` | src/ipc/service_proxy.cc:47-79 | a call puts its callback in one place, or rejects it at once |
| `RpcCallbacks.EndInvokeOk` | src/ipc/service_proxy.cc:81-97 | a result goes to the callback that waits, which is let go with the last one |
| `RpcCallbacks.LetGoOk` | src/ipc/service_proxy.cc:107-110 | letting go of a proxy's callbacks gives each exactly one last result |
| `RpcCallbacks.NoticedCompletes` | src/ipc/service_proxy.cc:107-110 | when a proxy learns of the disconnection, every callback that waited there has had its last result |
| `RpcCallbacks.DestroyedCompletes` | src/ipc/service_proxy.cc:33-36 | when a proxy is destroyed, every callback that waited there has had its last result |
| `RpcCallbacks.ClientStepOk` | src/ipc/client_impl.cc:57-269 | whatever the client does and whatever frame arrives, a waiting callback has had no last result and any other exactly one |
| `RpcCallbacks.ClientStepGrows` | src/ipc/client_impl.cc:57-269 | what a callback was given is never taken back, and nothing follows its last result |
| `RpcReplies.MethodMapFinds` | src/ipc/host_impl.cc:140-158 | with distinct names, a client knows each method of a service by its own number |
| `RpcReplies.BoundNow` | src/ipc/client_impl.cc:208-242 | a proxy that becomes bound has the number of its service and the right number of each method |
| `RpcReplies.ReceivedLink` | src/ipc/client_impl.cc:179-269 | a frame from the host keeps what holds between client and host |
| `RpcLinks.InvokeLink` | src/ipc/client_impl.cc:85-115 | a call keeps what holds between client and host |
| `RpcLinks.BindAllLink` | src/ipc/client_impl.cc:131-142 | the bindings asked for before the connection keep what holds between client and host |
| `RpcSafety.HandledLink` | src/ipc/host_impl.cc:125-204 | a frame handled by the host keeps what holds between client and host |
| `RpcSafety.SentLink` | src/ipc/host_impl.cc:206-230 | a result sent by the host keeps what holds between client and host |
| `RpcSafety.ClientLink` | src/ipc/client_impl.cc:57-269 | every step of a client keeps what holds between client and host |
| `RpcSafety.GetServiceByNameOk` | src/ipc/host_impl.cc:264-274 | a service is found by its name exactly if there is one |
| `RpcEffects.BindReplyTells` | src/ipc/host_impl.cc:140-159 | the reply to a request to bind succeeds if and only if a service of that name is exposed, and then tells its number and its methods, numbered from one |
| `RpcEffects.MethodMapReads` | src/ipc/client_impl.cc:227-237 | a client knows exactly the methods told that have a name and a number, each by the last number told for its name |
| `RpcEffects.BindIsTaken` | src/ipc/client_impl.cc:208-242 | a reply binds the proxy that asked if and only if it is alive, the host agreed and no proxy that is alive has the service; it then has the number and the methods told, and nothing else changes |
| `RpcEffects.AllAreAsked` | src/ipc/client_impl.cc:131-142 | once connected, one request goes out for each proxy in the queue that is alive, in that order, under consecutive numbers, and waits for its reply |
| `RpcEffects.CallIsMade` | src/ipc/service_proxy.cc:47-79 | a call goes out if and only if the connection stands, the proxy is bound and the method is known; its callback then waits for the reply, and is rejected otherwise |
| `RpcEffects.ServiceExposed` | src/ipc/host_impl.cc:71-82 | a service is added under a new number if and only if its name is not taken, so that there is one service of a name |
| `RpcSystem.StepInv` | src/ipc/host_impl.cc:71-262 | every step of host and clients keeps the whole invariant, with the two tables of clients each other's inverse and at most one reply owed for a request |
| `RpcSystem.CallsReachTheirMethods` | src/ipc/host_impl.cc:140-204 | in every run the method that runs for a request is the one the call named, on the proxy's service, with its arguments |
| `RpcBinding.BindingCompletes` | src/ipc/host_impl.cc:140-159 | in every run, once a client has taken the reply to a request that the host took while it exposed the service, the proxy that asked, if it is alive and no proxy that is alive is bound to the service, has the number of the service and knows every method of it that has a name, each by a right number |
| `RpcBinding.RequestAnswered` | src/ipc/host_impl.cc:140-159 | in every run a request to bind to a service that is exposed is answered at once, with that service and its methods, and nothing else under its number |
| `RpcBinding.FreeIff` | src/ipc/client_impl.cc:208-242 | a service is free to be bound if and only if no proxy that is alive is bound to it |
| `RpcBinding.StepHolders` | src/ipc/client_impl.cc:208-242 | in every step a proxy that a service is bound to, and that is alive, is bound to that service and to no other |
| `RpcCalls.CallGoesOut` | src/ipc/client_impl.cc:85-115 | in every run a call goes out if and only if the connection stands, the proxy is bound and the method is known, as a frame for which the host would run that method of the proxy's service with its arguments |
| `RpcCalls.CallIsRun` | src/ipc/host_impl.cc:161-204 | in every run a call that the host takes is run as it was made, and a reply is owed to its socket if a callback waits; it is rejected exactly if its arguments do not parse |
| `RpcCalls.AnswerIsSent` | src/ipc/host_impl.cc:206-230 | in every run what a service answers is sent to the client that called, if it is still there, and the reply is owed no more exactly after the last answer |
| `RpcCalls.ResultIsHandedOn` | src/ipc/client_impl.cc:244-269 | in every run a result that comes in is handed to the callback that waits for it, which goes on waiting exactly if more is to come |
| `RpcConversation.Converse` | src/ipc/client_impl.cc:57-269 | for every service, method, arguments and answers: a client object that binds to a host object and calls has the method run with these arguments, and its callback is given all the answers in order |
| `RpcSystem.ResultsGoBack` | src/ipc/host_impl.cc:206-230 | in every run a result goes to the client whose call it answers, or nowhere |
| `RpcSystem.CallbacksGetTheirResults` | src/ipc/client_impl.cc:244-269 | in every run a callback is given the beginning of what was sent for its own request, in order, and perhaps a rejection at the end; while it waits and its client has not learnt that the connection is gone, what it was given and what is on its way are all that was sent |
| `RpcOnce.RunSent` | src/ipc/host_impl.cc:161-230 | in every run at most one last result is sent for each request, with nothing after it, and none while a reply is owed |
| `RpcOnce.CallbacksGetAll` | src/ipc/service_proxy.cc:81-97 | in every run a callback that was handed a last result got everything that was sent for its request |
| `RpcOnce.RunsOnce` | src/ipc/host_impl.cc:161-204 | in every run a method is run at most once for a request |
| `RpcSystem.WaitingIsQueued` | src/ipc/service_proxy.cc:47-110 | in every run, until a client has learnt that its connection is gone, the callbacks that wait at a proxy are exactly those of its calls in the queue |
| `RpcSystem.OneLastResult` | src/ipc/service_proxy.cc:81-110 | in every run a callback that waits has had no last result, and any other exactly one |
| `RpcSystem.ResultsGrow` | src/ipc/service_proxy.cc:81-110 | in every run results are never taken back, and nothing follows the last |
| `RpcNotices.NoneForgotten` | src/ipc/client_impl.cc:144-154 | in every run, once a client has learnt that its connection is gone, a callback still waits only at a proxy that is going to be told; when all are told, every callback has had its last result |
| `RpcNotices.ClientTold` | src/ipc/client_impl.cc:57-269 | whatever a client does and whatever frame arrives, frames read before the shut socket was noticed included, every proxy where a callback waits is bound or is going to be told |
| `RpcNotices.BoundAnew` | src/ipc/client_impl.cc:208-242 | a service is bound to another proxy only when the one it was bound to is gone |
| `RpcEndpoints.ClientImpl.OnConnect` | src/ipc/client_impl.cc:131-142 | asks for every binding that was queued and whose proxy is alive, in order, each under its own number, and gives no callback anything |
| `RpcEndpoints.ClientImpl.MakeProxy` | src/ipc/service_proxy.cc:28-31 | a new proxy for the service, not bound; the others stay |
| `RpcEndpoints.ClientImpl.BindService` | src/ipc/client_impl.cc:57-76 | the request goes out at once under a new number, or waits for the connection |
| `RpcEndpoints.ClientImpl.BeginInvoke` | src/ipc/client_impl.cc:85-115 | sends the call under a number that no request, result or queue entry has had, and queues it if a reply is wanted; the number returned is 0 exactly if no reply will come |
| `RpcEndpoints.ClientImpl.ProxyBeginInvoke` | src/ipc/service_proxy.cc:47-79 | the call goes out exactly if the connection stands, the proxy is bound and the method is known; the new callback then waits in one place, and otherwise has had its one last result; no other callback is given anything |
| `RpcEndpoints.ClientImpl.OnReceived` | src/ipc/client_impl.cc:179-206 | whatever frame arrives, no callback loses what it was given, and exactly the one that waits for this request, if any, is given anything: the frame's result; a reply to a binding binds the proxy that asked exactly if it may |
| `RpcEndpoints.ClientImpl.ProxyEndInvoke` | src/ipc/service_proxy.cc:81-97 | the callback that waits for the request, if there is one, is given the result and goes on waiting exactly if more is to come; otherwise it has had its one last result |
| `RpcEndpoints.ClientImpl.OnDisconnect` | src/ipc/client_impl.cc:144-154 | every proxy that was bound, and so every one where a callback waits, is going to be told |
| `RpcEndpoints.ClientImpl.RunNotice` | src/ipc/service_proxy.cc:107-110 | every callback that waited at the proxy has had its one last result, and no other is given anything after its own |
| `RpcEndpoints.ClientImpl.DestroyProxy` | src/ipc/service_proxy.cc:33-36 | every callback that waited at the proxy has had its one last result, and no other is given anything after its own |
| `RpcEndpoints.ReadMethods` | src/ipc/client_impl.cc:227-237 | the loop over a reply builds the map from names to numbers: exactly the methods with a name and a number, each with the last number told for its name |
| `RpcEndpoints.HostImpl.FindService` | src/ipc/host_impl.cc:264-274 | the loop finds a service by name exactly if there is one |
| `RpcEndpoints.HostImpl.ExposeService` | src/ipc/host_impl.cc:71-82 | exposes a service under a new number exactly if its name is not taken, and keeps the others |
| `RpcEndpoints.HostImpl.OnNewIncomingConnection` | src/ipc/host_impl.cc:84-94 | the new client gets a number under which no reply is owed; replies owed go where they did, and the tables stay each other's inverse |
| `RpcEndpoints.HostImpl.OnReceivedFrame` | src/ipc/host_impl.cc:125-138 | for any frame, either a reply to that request goes out at once or a method runs, and replies owed stay right; a request to bind succeeds exactly if the service is exposed, and a frame that is no request is answered with an error |
| `RpcEndpoints.HostImpl.OnBindService` | src/ipc/host_impl.cc:140-159 | succeeds if and only if a service of that name is exposed; the reply then has its number and its methods, numbered from one |
| `RpcEndpoints.HostImpl.OnInvokeMethod` | src/ipc/host_impl.cc:161-204 | a method runs exactly if the call names one and its arguments parse; exactly then, if a reply is wanted, one more is owed, and it would go to the socket that the call came from |
| `RpcEndpoints.HostImpl.ReplyToMethodInvocation` | src/ipc/host_impl.cc:206-230 | the result goes to the socket that the call came from, or nowhere if its client is gone |
| `RpcEndpoints.HostImpl.OnDisconnect` | src/ipc/host_impl.cc:245-262 | what is owed to the client goes nowhere from now on, what is owed to others goes where it did, and the tables stay each other's inverse |
| `RpcObjects.Simulate` | src/ipc/client_impl.cc:57-269 | objects for a host and its clients, driven by any run of the protocol, are in the state that the run says, so that what is proved of runs holds of them |
| `RpcObjects.PerformReceive` | src/ipc/host_impl.cc:110-204 | a frame taken from a client's socket and handled by the host object leaves all objects where the protocol says |
| `Pipes.PipeCarries` | src/ipc/buffered_frame_deserializer.cc:48-190 | a queue of frames carried as bytes cut into any pieces goes on carrying exactly the frames of the queue, for every sequence of sends, arrivals and receives |
| `Pipes.PipeDelivers` | src/ipc/buffered_frame_deserializer.cc:67-164 | once its bytes have arrived, every frame of the queue can be handed out, in order |
| `Pipes.Arrive` | src/ipc/buffered_frame_deserializer.cc:48-125 | the deserializer takes the bytes that arrive as the pipe says, always gets on, and refuses none |
| `RpcChannels.ChannelsQueue` | src/ipc/client_impl.cc:117-129 | in every step of the protocol each channel is a queue: frames are added at its end, or its oldest is taken |
| `RpcChannels.LinkCarried` | src/ipc/client_impl.cc:117-177 | in every run, whatever pieces the bytes arrive in, what a socket hands out is what the protocol says is received |

## Left out

- Positions (row and column) and the wording of errors in the pbtxt parser; only which problem, in which order.
- PbtxtMeaning.ParsePrintedTree: a printed tree escapes exactly the characters that need it and writes numbers without
  leading zeros; other spellings are covered by what is stated for every input.
- Floating-point fields in the pbtxt parser and `std::stod`; numbers are read as `sscanf` reads an optional minus sign
  and leading digits, and give the largest number beyond 64 bits.
- Varint bits beyond the 64th, whose shift is undefined in C++; the model drops them.
- 32-bit wrap-around of message sizes and of the capacity of the typed decoder's storage.
- The arena of nested messages that a message reuses: a nested message is a new object. Message handles and their
  generations.
- Messages.Message.AppendScatteredBytes: with a nested message still open it states the bytes and the size only; the
  code does not close that message, and what it becomes when more is written to it is not modelled. Sessions append
  scattered bytes to the innermost message.
- Sessions.WritePacket: the length field of the root lies in front of it in the same stream. Fragments of a packet in
  other chunks, and patches to length fields in chunks already handed over, are not part of this model.
- `AppendSignedVarInt` of the message (its zig-zag encoding is part of the pbtxt model).
- Parsing and serializing of protobuf messages inside frames: parsing is a parameter of the framing layer, and
  messages and arguments of the RPC model are opaque values that arrive as they were sent.
- Callbacks that call back into a proxy or destroy it while they run; a callback's own calls are later steps.
- RpcChannels.LinkCarried: asks that every frame fits the receive buffer and that parsing undoes serializing, as the
  frames of both ends do; a frame that does not fit shuts the socket.
- The destruction of a client object, which does what its disconnection does; a proxy that calls through a destroyed
  client rejects its callback.
- File descriptors passed along with frames, peer credentials, and the connection life cycle of sockets; a socket is
  connected or not, and takes any part of a message.
- Poll, eventfd, clocks, page mapping and memory advice: environment steps or parameters. Giving back pages is
  modelled as erasing them.
- RpcEndpoints.ClientImpl.SendFrame: sending succeeds exactly while the socket is connected, as the code asserts.
- The Android task runner, whose timer is armed outside the lock.
- The listeners of proxies and services, and what a service does with a call other than to resolve or drop its reply.
- Raw events, their arguments and the interning of strings in the event tracker; counter definitions.
- Signed 64-bit overflow of timestamps.
- ProcessTracking.ProcessTracker.AssociateThreads: asks for threads that exist; a thread associated with itself does
  what it does in a build without debug assertions.
- RowIndex.FilteredRowIndex.IntersectRows: for the bit vector alone, asks for a list that has no row of the range
  twice; there the code fills a range whose end is before its start, which is undefined.
- RowIndex.FillAround: asks for the same, for the same reason.
- RowIndex.Query: asks for lists without repetitions if the query starts with a condition, for the same reason.
- `ToRowIterator` and the error text of the row index.
- SQLite tables, trace storage beyond threads, processes, slices and counters, and everything else in the repository.
