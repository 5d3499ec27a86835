# A verified model of go-amqp

This project models the hard core of go-amqp, a client for AMQP 1.0, and proves what its design
relies on. `dafny verify dfyconfig.toml` checks everything (Dafny 4.11). It has three parts.

**The wire.** `Values`, `Decoder`, `RoundTrip`, `Frames` and `Messages` give the type system, the
encodings and the decoder as functions, and prove that decoding inverts encoding; where it does
not, they say which of refusal and panic comes instead, and `Panics` says what a panic takes on
arbitrary bytes. None of that pins the codes themselves, since a reader and a writer wrong in the
same way would agree. `Spelling` therefore writes down the forms of sections 1.2 to 1.6 of the AMQP
standard, what each stands for and the field tables of parts 2 and 3, in literal bytes and without a
word of the encoder or the decoder (but for assignment to a map, which `InsertAssigns` describes), and
`Utf8` does so for strings; `Conformance` proves that the decoder reads every such form, `Conforming` that the
encoder writes none but such forms, `Performatives` and `Sections` the same for frame bodies and
messages with every field in its place, and `Refusals` what is turned away. `Buffers`, `Slices`, `Writer`, `Reader` and `Framing` are the code that does it in
place: a buffer with a read index on a shared array, sizes patched in after the fact, a stream
reader fed by arbitrary chunks. `Delivery` splits a message into transfers and puts it together
again; `Deliveries` says what comes of any transfers, whoever cut them. `EndToEnd` joins the functions: a message marshaled, split, numbered, encoded and framed on
one side is delivered on the other, however the byte stream is cut. `Exchange` joins the code: the
writer, the sender, the session's mux and the frame writer produce the bytes the receiver is fed.

**The protocol.** `Session` has one step for each case of the session mux, `SessionMux` is the same
as an object updated in place, and `SessionRuns` proves what holds in every run. `Settlement` says
which deliveries a disposition completes, and follows a message from Send to its result;
`SessionFrames` says where each frame goes. `Links` and `Receiving` do this for the two link muxes,
and `LinkFrames` says which frames they put out and joins their answers to the session; `LinkCredit` proves credit safety of two ends joined by
FIFO channels, and `LinkPair` that the two muxes are such ends. `AutoCredit`, `ManualCredit` and
`InFlight` account for credit and for settlements. Each mux object has a `Drive` method that takes
it through any run of events and ends with the run's properties on its own fields.

**The structures below.** `Queue` (a ring of segments, with its pointers), `Holder` and `Bitmap`
(64-bit words) are proved to be a sequence, a token and a set of numbers.

Conventions. A counter the code keeps in 32 bits is `uint32` with explicit wrap-around (`Add32`,
`Sub32`); proofs relate it to an unbounded counter by `Wrap`. What the environment decides (whether
a write succeeds, which case of a select is taken, how the network chunks bytes) is a parameter or
an event. A Go panic is an outcome of its own. Every lemma is marked `{:induction false}`: no proof
rests on a generated induction hypothesis.

Nine things the code's comments and names suggest turn out not to hold of the code. Each has an
input, or a family of them, and the exact condition under which it does hold.

- A signed array is read back as written: not when it is narrowed with an element below -128
  (`NumArrayExact`, `NarrowingLoses`).
- So is an array of strings: not when it ends its buffer and its strings are too short
  (`VarArrayExact`, `EmptyStringsRefused`).
- Decoding reports bad input as an error: not a key that Go cannot hash, in annotations or inside a
  described value, which panics (`MapExact`, lifted to messages, delivery states and deliveries by
  `MessageExact`, `DispositionExact`, `TransferExact` and `DeliveryExact`; `ListKeyPanics` is eight
  bytes long; `UnmarshalSafe` and `ParseSafe` hold for any bytes).
- A composite is known by its descriptor: of a full-width one only the last byte counts
  (`LowByteDecides`).
- A flow frame is handled: not by a sender when it names the link and no credit, which dereferences
  nil (`SenderPanicRun`).
- A receiver's own error survives until its mux exits: not when credit is due for reclaiming
  (`LocalErrorKept`, `LocalErrorLost`, `LocalErrorReached`).
- A send that fails leaves the link usable: not when it stops in the middle of a delivery, since
  nothing aborts it (`NextAfterStopped`).
- A drain ends the sender's credit: not when the sender takes its flow at another count than the flow
  states, that is, when the messages on the way as it was sent and those sent since, less those
  taken back, are not none (`DrainTaken`, `DrainExact`, `DrainReached`).
- A disposition's range is worked off: not when it reaches 2^32-1, where the loop has no end
  (`RangeLoopEnds`).

## Model

| member | source | states |
|---|---|---|
| `Buffers.Buffer.Next` | internal/buffer/buffer.go:24-34 | the bytes returned and the bytes still unread make up what was unread; short buffers give what is left |
| `Buffers.Buffer.Skip` | internal/buffer/buffer.go:37-39 | advances by n unchecked; the buffer stays readable if and only if n bytes were left, and then exactly those are dropped |
| `Buffers.Buffer.Reset` | internal/buffer/buffer.go:43-46 | nothing is left unread and the capacity is kept |
| `Buffers.Buffer.Reclaim` | internal/buffer/buffer.go:50-55 | moving the unread bytes to the front does not change them; the copy itself is SliceBuffer.Reclaim |
| `Buffers.Buffer.ReadFromOnce` | internal/buffer/buffer.go:125-142 | whatever the growth, unread bytes followed by bytes still to come stay the same stream |
| `Buffers.Buffer.Append` | internal/buffer/buffer.go:145-147 | appends, leaving the read index |
| `Buffers.Buffer.AppendUint16` | internal/buffer/buffer.go:184-189 | appends the big-endian spelling of the number |
| `Buffers.Buffer.AppendUint32` | internal/buffer/buffer.go:192-199 | appends the big-endian spelling of the number |
| `Buffers.Buffer.AppendUint64` | internal/buffer/buffer.go:202-213 | appends the big-endian spelling of the number |
| `Buffers.Buffer.PutUint32` | internal/frames/parsing.go:153-157 | overwrites four bytes with the number's spelling and no others |
| `Slices.SliceBuffer.Next` | internal/buffer/buffer.go:24-34 | the bytes handed out are a stretch of the buffer's own array |
| `Slices.SliceBuffer.Reclaim` | internal/buffer/buffer.go:50-55 | the overlapping copy upwards leaves the unread bytes as they were, at the front of the same array, and writes nowhere behind them |
| `Slices.SliceBuffer.Grow` | internal/buffer/buffer.go:128-136 | the copy loop moves the contents to a new array; the old one, and what was handed out of it, is not written |
| `Slices.SliceBuffer.Append` | internal/buffer/buffer.go:145-147 | appends in place or on a larger array; no byte the slice held, handed out or not, changes |
| `Slices.SliceBuffer.ReadFromOnce` | internal/buffer/buffer.go:125-142 | the same stream as on the value, and the bytes held before stay where they were |
| `Values.SetCount` | internal/encoding/encode.go:287-301 | the fields up to and including the last one set, all later ones being omitted |
| `Decoder.ReadNum` | internal/encoding/decode.go:833-1041 | on any bytes a success consumes at least one and stops within the buffer |
| `Decoder.ReadBool` | internal/encoding/decode.go:1043-1060 | a boolean is read exactly from the three codes, the one-byte form by whether its byte is zero, and never past the buffer |
| `Decoder.ReadVar` | internal/encoding/decode.go:414-480 | likewise for strings, symbols and binaries; the announced length never reaches past the end |
| `Decoder.ReadString` | internal/encoding/decode.go:414-443 | likewise; only strings and symbols are accepted |
| `Decoder.ReadHeader` | internal/encoding/decode.go:375-412 | a compound header is read within the buffer or refused |
| `Decoder.ReadListHeader` | internal/encoding/decode.go:333-373 | likewise with the one-byte empty list |
| `Decoder.ReadMapHeader` | internal/encoding/decode.go:1108-1149 | likewise, and the count does not exceed the bytes left |
| `Decoder.ReadArray` | internal/encoding/decode.go:628-716 | arrays of every element type are read within the buffer or refused, never with a panic |
| `Decoder.ReadAny` | internal/encoding/decode.go:482-581 | totality of the mutually recursive decoder: it ends on every byte string, success consumes, the index never passes the end; when it panics is said by AnyPanics and MapExact |
| `Panics.AnyPanics` | internal/encoding/decode.go:482-581 | on any bytes, a panic means that behind the code of some map stands a value Go cannot hash |
| `Panics.EntriesPanic` | internal/encoding/exported_types.go:256-276 | the pair loop panics at a key of its own or inside one of its values |
| `Decoder.ReadList` | internal/encoding/types.go:1512-1539 | the same for lists |
| `Panics.MapPanics` | internal/encoding/types.go:265-298 | likewise for maps of all three kinds |
| `Decoder.ReadEntries` | internal/encoding/decode.go:583-620 | the pair loop moves the index forward within the buffer |
| `Decoder.ReadDescribed` | internal/encoding/exported_types.go:429-446 | the same for described values |
| `Decoder.ReadComposite` | internal/encoding/decode.go:718-831 | the same for whatever a descriptor announces |
| `Decoder.PeekMessageType` | internal/encoding/types.go:202-234 | the header length reported, later skipped unchecked, lies within the buffer |
| `Decoder.UnmarshalComposite` | internal/encoding/decode.go:237-284 | success yields exactly the declared number of fields and stops within the buffer |
| `Decoder.ReadFields` | internal/encoding/decode.go:250-284 | every declared field is filled, from the wire or from its null handler |
| `Decoder.ReadField` | internal/encoding/decode.go:36-235 | reading by target type consumes and stays within the buffer |
| `RoundTrip.NumRoundTrip` | internal/encoding/encode.go:198-285 | every number of every width is read back from its shortest encoding |
| `RoundTrip.VarRoundTrip` | internal/encoding/encode.go:354-405 | every string, symbol and binary is read back, a symbol as a string |
| `RoundTrip.ValueOutcome` | internal/encoding/decode.go:482-581 | what reading any encoded value tree gives: itself, an error or a panic, as the first key that decides says |
| `RoundTrip.MapExact` | internal/encoding/exported_types.go:256-276 | a map is read back if and only if its keys are read as strings or Go can hash all of them; otherwise the first that it cannot hash gives a panic in annotations or as a described value, and an error elsewhere |
| `RoundTrip.ValueRoundTrip` | internal/encoding/encode.go:18-196 | for every value tree, at any place in any buffer, ReadAny returns its normal form and consumes exactly its encoding |
| `RoundTrip.FieldRoundTrip` | internal/encoding/decode.go:36-235 | a value that fits a field's Go type is read back by the reader of that type |
| `RoundTrip.CompositeRoundTrip` | internal/encoding/encode.go:287-344 | a composite written with trailing fields dropped and inner ones null is read back up to defaults, and the reader stops at its end |
| `RoundTrip.NumArrayReread` | internal/encoding/types.go:670-750 | what a numeric array decodes to in every case, narrowed or not |
| `RoundTrip.VarArrayReread` | internal/encoding/types.go:1101-1192 | what a string, symbol or binary array decodes to, given the bytes that follow it |
| `RoundTrip.DescribedExact` | internal/encoding/decode.go:718-831 | a described value with a numeric descriptor is read back if and only if its code is not reserved |
| `RoundTrip.NumArrayExact` | internal/encoding/types.go:847-927 | a numeric array is read back as itself if and only if it is not a signed 32- or 64-bit one, or some element exceeds 127, or none is below -128 |
| `RoundTrip.NarrowingLoses` | internal/encoding/types.go:670-696 | the int array holding -129 is read back holding 127 |
| `RoundTrip.VarArrayExact` | internal/encoding/types.go:1101-1192 | a variable-width array that ends its buffer is read back if and only if it is wide or has at most one element more than bytes |
| `RoundTrip.EmptyStringsRefused` | internal/encoding/types.go:1135-1150 | an array of two empty strings at the end of a buffer is refused |
| `Conformance.NumSpelled` | internal/encoding/decode.go:833-1104 | every fixed-width form of the standard is read as the number its bytes stand for, sign included |
| `Conformance.VarSpelled` | internal/encoding/decode.go:414-480 | every string, symbol and binary, with either size of length |
| `Conformance.AnySpelled` | internal/encoding/decode.go:482-581 | every form of every value, nested at will (short and long sizes, one-byte and full numbers, both booleans, arrays of every element type, described values and the composites that may stand anywhere), is read as the value it stands for, and nothing behind it is touched |
| `Conformance.DescribedSpelled` | internal/encoding/decode.go:718-831 | a described value whose descriptor names no composite type is read as such, whatever form the descriptor has |
| `Conformance.TablesAgree` | internal/frames/frames.go:525-1370 | the fields of every composite type, their order, types, defaults and which are mandatory, are those of the standard |
| `Conformance.CompositeSpelled` | internal/encoding/decode.go:237-284 | a composite with its descriptor and field list in any form, fields null or left off at will, is read with each field in its place or default, and refused if and only if a mandatory field is missing |
| `Conformance.FieldSpelled` | internal/encoding/decode.go:36-235 | the reader a field's Go type selects takes every form of that type |
| `Conforming.EncodeConforms` | internal/encoding/encode.go:18-196 | what Marshal writes is a form the standard gives the value, sizes and counts included, and stands for it |
| `Conforming.FieldsConform` | internal/encoding/encode.go:287-344 | the same for the fields of any composite, each in its place and none mandatory left off |
| `Conforming.Shortest` | internal/encoding/encode.go:198-405 | of all forms of a number, string, symbol or binary, Marshal writes one of the shortest |
| `Conforming.ArrayHeaderShort` | internal/encoding/encode.go:529-570 | an array has the one-byte header if and only if its sizes fit it |
| `Conforming.ArrayNarrowed` | internal/encoding/types.go:670-927 | an int or long array, signed or not, is written in one byte per element if and only if no element is above the range of one byte; the check has no lower bound (NarrowingLoses) |
| `Utf8.ValidExact` | internal/encoding/encode.go:354-358 | the strings Marshal accepts are exactly the encodings of sequences of Unicode characters, surrogates and overlong spellings excluded |
| `Utf8.AcceptedExact` | internal/encoding/encode.go:354-405 | a string is accepted if and only if it is text of fewer than 2^32-1 bytes; a symbol or binary need not be text |
| `Refusals.UnknownRefused` | internal/encoding/decode.go:482-581 | a code that begins no form is refused |
| `Refusals.OversizeRefused` | internal/encoding/decode.go:333-412 | a list, map or array that announces more bytes than there are is refused, whatever it holds |
| `Refusals.OvercountRefused` | internal/encoding/decode.go:583-626 | a list or map that announces more items than bytes are left is refused before any of them is read |
| `Refusals.PlacedRefused` | internal/encoding/decode.go:718-831 | a performative, terminus, SASL frame or section is refused where a value is read |
| `Refusals.ScalarExact` | internal/encoding/decode.go:833-1104 | a field of a simple type is read if and only if the form is of its type |
| `Refusals.TooManyFields` | internal/encoding/decode.go:237-284 | a field list longer than the type has fields is refused |
| `Refusals.OtherType` | internal/encoding/decode.go:237-284 | a composite of another type is refused |
| `Refusals.LowByteDecides` | internal/encoding/decode.go:310-331 | behind a full-width descriptor a composite is read if and only if the last byte is its type and no mandatory field is missing, whatever the other seven bytes are |
| `Refusals.OtherDescriptor` | internal/encoding/decode.go:310-331 | a composite whose descriptor is not an unsigned long is refused |
| `Refusals.StateRefused` | internal/encoding/decode.go:182-206 | where a delivery state is due, any composite but the five states is refused |
| `Refusals.SymbolsRefused` | internal/encoding/types.go:1548-1565 | and where symbols are due, an array of anything else |
| `Refusals.OddCountRounded` | internal/encoding/types.go:265-298 | a map that announces an odd number of items is read as if there were one more |
| `Refusals.InsertAssigns` | internal/encoding/decode.go:583-620 | storing a pair is assignment to a map: the key has the new value, every other key its own |
| `Writer.WriteNum` | internal/encoding/encode.go:198-285 | appends the shortest encoding of the number |
| `Writer.WriteVar` | internal/encoding/encode.go:354-405 | appends the encoding, and fails exactly on invalid UTF-8 or a length of 2^32-1 or more |
| `Writer.WriteArrayHeader` | internal/encoding/encode.go:529-570 | appends the one-byte or four-byte header as the size demands |
| `Writer.WriteNumArray` | internal/encoding/types.go:670-696 | the narrowing loop and the element loop append the array's encoding |
| `Writer.WriteVarArray` | internal/encoding/types.go:1101-1133 | the measuring loop and the element loop append the array's encoding, and fail exactly on invalid UTF-8 |
| `Writer.WriteList32` | internal/encoding/types.go:1490-1509 | with the size patched in afterwards the bytes are header and items; it fails exactly when some item cannot be marshaled |
| `Writer.WriteMap` | internal/encoding/encode.go:407-521 | with size and count patched in afterwards the bytes are header and pairs; it fails exactly when an entry cannot be marshaled or there are too many |
| `Writer.MarshalComposite` | internal/encoding/encode.go:287-344 | appends the composite's encoding, trailing omitted fields dropped |
| `Writer.Marshal` | internal/encoding/encode.go:18-196 | appends exactly the value's encoding, and fails exactly when it has none; earlier bytes are never touched |
| `Writer.MarshalMessage` | message.go:151-228 | appends the sections of the message in order, and fails exactly when one of them cannot be marshaled |
| `Writer.WriteFrame` | internal/frames/parsing.go:133-159 | the frame with its size patched in is the layout the stream reader expects; refused exactly when the body cannot be marshaled or the frame reaches 2^32 bytes |
| `Reader.NumFrom` | internal/encoding/decode.go:833-1041 | moves the index and answers as the decoder function does, on every buffer |
| `Reader.BoolFrom` | internal/encoding/decode.go:1043-1060 | likewise |
| `Reader.VarFrom` | internal/encoding/decode.go:414-480 | likewise |
| `Reader.StringFrom` | internal/encoding/decode.go:414-443 | likewise |
| `Reader.HeaderFrom` | internal/encoding/decode.go:375-412 | likewise |
| `Reader.ListHeaderFrom` | internal/encoding/decode.go:333-373 | likewise |
| `Reader.ArrayFrom` | internal/encoding/decode.go:628-716 | likewise, over the element loops |
| `Reader.AnyFrom` | internal/encoding/decode.go:482-581 | likewise, over the mutual recursion, which ends because the unread length falls |
| `Reader.ListFrom` | internal/encoding/types.go:1512-1539 | likewise, over the item loop |
| `Reader.MapFrom` | internal/encoding/types.go:265-298 | likewise, for the three kinds of map |
| `Reader.EntriesFrom` | internal/encoding/types.go:276-297 | the pair loop builds the map the function describes, stopping at the first bad pair |
| `Reader.DescribedFrom` | internal/encoding/exported_types.go:429-446 | likewise |
| `Reader.CompositeFrom` | internal/encoding/decode.go:718-831 | likewise |
| `Reader.UnmarshalCompositeFrom` | internal/encoding/decode.go:237-284 | likewise |
| `Reader.FieldsFrom` | internal/encoding/decode.go:250-284 | the field loop with its null handlers does what the function says |
| `Reader.FieldFrom` | internal/encoding/decode.go:36-235 | likewise, by target type |
| `Reader.SymbolsFrom` | internal/encoding/types.go:1548-1565 | a single symbol or an array of symbols |
| `Reader.SectionFrom` | message.go:235-313 | one section, its header skipped |
| `Reader.MessageFrom` | message.go:235-313 | the section loop ends on every buffer and fills the message as the function says |
| `Messages.ReadSection` | message.go:235-313 | a section is read within the buffer and consumes bytes |
| `Messages.Unmarshal` | message.go:235-313 | a message that is accepted has consumed the whole buffer |
| `Messages.SectionsRoundTrip` | message.go:235-313 | any sequence of sections is read back and stored in order |
| `Messages.SectionsOutcome` | message.go:235-313 | what reading any encoded sections gives, up to the first key that decides otherwise |
| `Messages.MessageExact` | message.go:235-313 | a message faithful but for the keys of its annotations is read back if and only if Go can hash every key, and panics otherwise |
| `Messages.ListKeyPanics` | internal/encoding/exported_types.go:256-276 | eight bytes, a message whose one annotation has the empty list as its key, panic |
| `Panics.UnmarshalSafe` | message.go:235-313 | any bytes in which no map code is followed by a value Go cannot hash are decoded or refused |
| `Messages.MessageRoundTrip` | message.go:151-313 | every message is read back from its encoding, in normal form |
| `Sections.MessageSpelled` | message.go:235-313 | a message of any sections in any order, each in any form, is read with every section in its place: the last of its kind, or appended |
| `Sections.MessageLayout` | message.go:151-228 | a message is written as the sections 0x70 to 0x78 in the order of the standard, each behind its number and only if set |
| `Frames.ParseBody` | internal/frames/parsing.go:70-129 | a body that is accepted was read within the buffer |
| `Frames.BodyRoundTrip` | internal/frames/frames.go:907-1256 | begin, flow, transfer, disposition, detach, end and close are read back up to defaults, a transfer with its payload intact; the numbers and places on the wire are in the next two rows |
| `Performatives.BodySpelled` | internal/frames/parsing.go:70-129 | a body that begins with the number of a performative (0x11, 0x13 to 0x18) and goes on with its fields, in any form, is parsed as that performative with every field taken from its place in the standard |
| `Performatives.BodyConforms` | internal/frames/frames.go:525-1370 | the body written for a performative begins with that number and holds each field in its place, in a form of the standard |
| `Performatives.BodyRefused` | internal/frames/parsing.go:70-75 | a body that does not begin with a one-byte descriptor is refused, and one with another number is none of the seven |
| `Performatives.DefaultsOmitted` | internal/frames/frames.go:525-1370 | nothing is written for a field if and only if it is at its default |
| `Performatives.EmptyPropertiesOmitted` | internal/frames/frames.go:907-921 | a flow with an empty property map is written as one with none |
| `Frames.BodyOutcome` | internal/frames/parsing.go:70-129 | what parsing any encoded performative gives, up to the first key that decides otherwise |
| `Frames.DispositionExact` | internal/encoding/exported_types.go:659-665 | a disposition with the outcome modified is parsed if and only if Go can hash the keys of its annotations, and panics otherwise |
| `Frames.TransferExact` | internal/encoding/exported_types.go:659-665 | the same for a transfer that carries the state |
| `Panics.ParseSafe` | internal/frames/parsing.go:70-129 | any bytes in which no map code is followed by a value Go cannot hash are parsed or refused |
| `Frames.FrameSizeExact` | internal/frames/frames.go:1127-1147 | the exact size of every transfer frame send builds |
| `Frames.SentFrameFits` | sender.go:185-244 | such frames pass the size check for tags up to 27 bytes; for longer tags a full first frame passes if and only if handle, id, format and tag take at most 42 bytes; continuations always pass |
| `Framing.ParseHeader` | internal/frames/parsing.go:44-67 | accepts exactly headers of at least eight bytes with offset at least two, and takes eight bytes |
| `Framing.Conn.ReadFrame` | conn.go:687-766 | finds the frame a parser of the whole stream would find, and leaves exactly the rest unread, for any chunking |
| `Framing.Conn.ReadFrames` | conn.go:687-766 | successive reads give all frames of the stream up to its end or first malformed header |
| `Framing.LayoutParsed` | internal/frames/parsing.go:133-159 | frames laid out as Write does are recovered in order, keepalives dropped |
| `Refusals.FrameLayout` | internal/frames/parsing.go:133-159 | the eight bytes of a frame's header, one by one: size, a data offset of two, type zero, channel |
| `Refusals.FrameExact` | internal/frames/parsing.go:44-67 | what the bytes at the head of a stream come to: malformed, awaited, skipped or a frame, each by its exact condition on the eight header bytes |
| `Framing.ReceiveLayout` | conn.go:687-766 | any division of such a layout into reads, empty ones included, yields its frames |
| `Delivery.Sender.Send` | sender.go:184-303 | the transfers handed to the mux are the split of the encoded message under the right tag, up to the first that is not written; credit is asked back exactly when the last transfer was taken and its write failed; or the exact error; the tag counter moves only when used |
| `Delivery.Sender.NextTag` | sender.go:226-231 | the eight big-endian bytes of the counter, which then advances |
| `Delivery.TagsDiffer` | sender.go:226-231 | no two of 2^64 successive tags of a sender's own making are alike |
| `Delivery.Sender.SendFrames` | sender.go:233-296 | the loop over the shared buffer emits the split of its unread bytes, or the part before the first failure, and ends |
| `Delivery.SplitShape` | sender.go:233-296 | pieces hold the bytes in order within the limit; only the first asks for an id and carries tag and format; only the last ends the delivery, and it alone may be settled |
| `Delivery.OneDetach` | link.go:343-358 | whatever transfers arrive, the link closes itself at most once, with one detach and the first error found |
| `Delivery.Receiver.CheckFields` | receiver.go:770-825 | the identifying fields are recorded on a first transfer and compared on a continuation |
| `Delivery.Receiver.TakePayload` | receiver.go:840-881 | the payload is taken in; a complete message is queued and counted, closes the link when it does not decode, and takes the process down when decoding panics; what any transfers come to is Deliveries.AnyDelivery |
| `Delivery.Receiver.MuxReceive` | receiver.go:770-881 | one transfer has the effect the specification gives, errors and aborts included |
| `Delivery.Reassemble` | receiver.go:770-881 | the stamped pieces of a message deliver it if it fits and decodes, close the link with nothing delivered if it does not, and crash the process with nothing delivered if decoding panics |
| `Deliveries.AnyDelivery` | receiver.go:770-881 | any transfers of one delivery, whoever sent them: one message is queued, of the payloads joined, with the first transfer's id, format and tag, settled if and only if some transfer said so, and counted once; bytes that do not decode close the link |
| `Deliveries.BegunTakenIn` | receiver.go:842-853 | the transfers before the last are taken in byte by byte and flag by flag |
| `Deliveries.WrongRefused` | receiver.go:770-825 | behind any beginning, a transfer that lacks an identifying field where one is due or gives one that differs closes the link with that error, and nothing is delivered |
| `Deliveries.TooLargeRefused` | receiver.go:835-840 | so does one that makes the message larger than the link allows |
| `Deliveries.AbortedAnywhere` | receiver.go:827-833 | an aborted transfer, at any point of any delivery, leaves the receiver as it was before it |
| `Delivery.RunDelivers` | receiver.go:770-881 | any sequence of messages, each cut at its own size, arrives as exactly those messages with their tags, formats and settled flags, and the receiver is idle again |
| `Delivery.AbortRestores` | receiver.go:827-833 | an aborted transfer undoes any unfinished delivery to the last field |
| `Delivery.StoppedMidway` | receiver.go:842-853 | the first k pieces of a delivery leave the receiver holding exactly their bytes |
| `Delivery.NextAfterStopped` | sender.go:274-286 | after a send stopped behind its k-th transfer, the next delivery makes the receiver close the link if and only if k is not zero |
| `EndToEnd.ShortTagsWritten` | sender.go:185-244 | with a tag of at most 27 bytes no transfer of any message is turned away |
| `EndToEnd.AllShortTagsWritten` | sender.go:185-244 | the same for all transfers of any sequence of messages |
| `EndToEnd.ReceivedFromWire` | receiver.go:770-881 | parsing and receiving the encoded transfers of any messages delivers those messages |
| `EndToEnd.DeliveryExact` | receiver.go:855-860 | a delivery with any annotations, cut anywhere, arrives if and only if Go can hash their keys, and crashes the receiving process otherwise |
| `EndToEnd.ReceiveFrames` | conn.go:596-685 | the loop over received frames feeds the receiver the transfers they hold, up to the first body that does not parse, which ends the connection |
| `EndToEnd.Arrive` | conn.go:687-766 | end to end: for any chunking and any keepalives the receiver ends with exactly the messages sent, in normal form |
| `EndToEnd.ArriveShortTags` | sender.go:185-244 | the same with no condition on the frames, for tags of at most 27 bytes |
| `Exchange.Prepare` | sender.go:184-231 | marshaling into the buffer and sending it hands over the split of the message, and uses a tag of its own only when none is given |
| `Exchange.Number` | session.go:650-708 | the session object sends the pieces of a message under one delivery id, and can go on |
| `Exchange.WriteTransfers` | conn.go:878-907 | the frames written for any transfers are the layout the reader expects |
| `Exchange.Transmit` | sender.go:184-303 | any messages, one after the other, go out as the frames of their stamped pieces |
| `Exchange.SendAndReceive` | conn.go:687-766 | both halves run: what writer, sender, session and frame writer produce, cut into reads anywhere, leaves the receiver with exactly the messages handed over, in order |
| `SessionMux.SessionState.constructor` | session.go:334-360 | the initial maps and counters |
| `SessionMux.SessionState.Drive` | session.go:374-748 | the object over any run of events: at most one End and nothing after it, every completion channel closed at most once and for its stated cause, and window plus next id equal to the peer's latest grant |
| `SessionMux.Serve` | session.go:317-750 | a session from the peer's begin on: its window field is the exact distance to the granted edge, and an honest peer always has room |
| `SessionMux.SessionState.CompleteDelivery` | session.go:452-462 | a waiting channel gets the state, is closed and leaves the map; other ids are untouched |
| `SessionMux.SessionState.OnDisposition` | session.go:428-476 | the loop over the range settles, completes and forwards as the specification does, id by id; what that comes to is Settlement.DispositionCompletes |
| `Settlement.DispositionCompletes` | session.go:428-476 | of a disposition received: exactly the deliveries it names leave the map of its role and their links get it; if it is settled and a receiver's, exactly the awaited ones among them are completed, their channels closed holding its state; every other channel, map and counter is unchanged, and the session fails if and only if a link is missing |
| `Settlement.ConfirmationCompletes` | session.go:713-739 | of a disposition sent: if it is settled and a sender's, exactly the awaited deliveries it names are completed with its state; otherwise none, and it goes out either way |
| `Settlement.StillWaits` | session.go:428-737 | over any run, a delivery waits until a disposition names it |
| `Settlement.ClosedStays` | session.go:452-462 | what a completion channel was told never changes |
| `Settlement.DeliveryCompletes` | session.go:428-476 | over any run, a delivery that waits is completed by the first disposition of the peer that names it, if settled, with that state for good |
| `Settlement.SentWaits` | session.go:650-708 | a message sent unsettled, in however many transfers, waits on the channel its sender was given |
| `Settlement.SentSettled` | session.go:690-708 | a message sent settled is complete, with no state, once its last transfer is written |
| `Settlement.SendSettles` | sender.go:184-303 | from Send to its result: the channel it waits on ends up holding the state of the first settled disposition that names the delivery, whatever else happens |
| `SessionMux.SessionState.ReceiveFlow` | session.go:477-532 | windows, forwarding, echo and errors of a flow |
| `SessionFrames.FlowHandled` | session.go:477-532 | a flow reaches the link of its handle and no other; one for the session is answered if it asks, with the counters as they are after it; one that cannot be placed closes the session |
| `SessionFrames.LinkFlowStamped` | session.go:738-743 | a link's flow goes out with the session's four counters filled in and its own fields as they were |
| `SessionFrames.AttachHandled` | session.go:534-558 | an attach binds its link to the handle, leaves the others, and reaches it |
| `SessionFrames.DetachHandled` | session.go:603-621 | a detach reaches its link, which then has no handle and no delivery id |
| `SessionFrames.TransferHandled` | session.go:560-601 | a transfer reaches the link of its handle; an unsettled one to a link in mode second is remembered under its id; at half the window, and only then, a flow goes out |
| `SessionFrames.SettlementReachesReceiver` | session.go:428-601 | from the first transfer of a delivery in mode second on, over any run, the sender's disposition that names it reaches the link it came in on |
| `SessionFrames.ClosesExactly` | session.go:394-401 | a session begins to close if and only if it is told to or gets a frame it cannot place |
| `SessionFrames.EndsExactly` | session.go:405-648 | its mux ends if and only if the peer's End comes or the connection goes |
| `SessionFrames.SecondClosePanics` | session.go:362-373 | a second End, or a second completion of a channel, would panic; EndOnceRun and SoundRun exclude both |
| `SessionFrames.UnwrittenTransfer` | session.go:678-690 | a transfer that is not written leaves no trace but its number |
| `SessionRuns.RoutedWhileAttached` | session.go:534-601 | from a link's attach to its detach, whatever else happens, transfers on its handle are passed to that link |
| `SessionRuns.DetachExact` | session.go:603-621 | a detach takes out exactly the handle it names if and only if its link is known under that handle |
| `SessionMux.SessionState.ReceiveTransfer` | session.go:560-601 | window bookkeeping, forwarding and the flow that widens the window |
| `SessionMux.SessionState.ReceiveDetach` | session.go:603-621 | the link gets the frame and is forgotten |
| `SessionRuns.EndAnswered` | session.go:623-641 | when the peer's End arrives, after any run, the mux leaves having sent exactly one End, its last frame, and the error reported is its own if it began the close |
| `SessionMux.SessionState.SendTransfer` | session.go:650-708 | numbering, completion channel and windows of a transfer, written or not |
| `SessionMux.SessionState.SendDisposition` | session.go:713-739 | the loop completes every waiting delivery of the range |
| `SessionMux.SessionState.Pass` | session.go:374-748 | one pass through the select is one step of the specification |
| `SessionRuns.RangeLoopEnds` | session.go:434-434 | the loop over a range ends if and only if its upper bound is below 2^32-1 |
| `SessionRuns.EndOnceRun` | session.go:362-648 | in every run at most one End is sent, no frame follows it, and endSent is closed exactly when closing started locally |
| `SessionRuns.FirstErrorSurvives` | session.go:394-401 | once closing, the session's error and the frames sent do not change, unless the connection ends |
| `SessionRuns.SoundRun` | session.go:434-737 | in every run each completion channel is closed at most once, by a settled transfer or a settled disposition covering its id, holds that disposition's state, and no closed channel is used again |
| `SessionRuns.CompletionsGrow` | session.go:452-462 | what completed a channel is never revised |
| `SessionRuns.WindowRun` | session.go:494-708 | with a peer that does not retract, the 32-bit window is the exact distance to the granted edge in every run, so no run writes past it |
| `SessionRuns.GrantRun` | session.go:504-505 | for any peer, window plus next id equals the latest grant modulo 2^32 |
| `SessionRuns.PeerNeverStarves` | session.go:560-601 | facing an honest peer, a session that is not closing always leaves it more than half of the window |
| `SessionRuns.SendsStamped` | session.go:651-699 | a split message goes out as its stamped pieces under one id, and that id is the one whose completion is awaited |
| `SessionRuns.SendsKeep` | session.go:651-708 | sending a message uses one delivery id and as much of the window as it has transfers |
| `SessionRuns.EveryRun` | session.go:317-750 | all of the above from the begin frame on |
| `Links.SenderMux.constructor` | sender.go:325-345 | no credit and a link that is open |
| `Links.SenderMux.Drive` | sender.go:450-531 | the object over any run of events: its frames hold at most one detach and no transfer after it, and it panics exactly when a flow without credit is among them |
| `Links.SenderPanicRun` | sender.go:540-540 | a run panics if and only if a flow for the link carries no credit, and then that flow is its last event |
| `Links.SenderMux.HandleFlow` | sender.go:537-578 | credit is set by the formula of section 2.6.7 of the AMQP Transport part, and an echo is answered; without a link credit it panics |
| `Links.SenderMux.HandleDetach` | link.go:267-300 | a detach is acknowledged once, or ends a close in progress with its error |
| `Links.SenderMux.Pass` | sender.go:450-531 | one pass through the sender's select is one step of the specification; the frames it puts out are in the rows that follow |
| `LinkFrames.SenderConfirms` | sender.go:575-600 | an unsettled disposition is answered with one of the sender's role, settled, of the same range and state; a settled one with nothing |
| `LinkFrames.ConfirmationJoins` | sender.go:575-600 | that answer, handed to the session, completes exactly the deliveries of the range that wait, with the peer's state |
| `LinkFrames.SecondModeCompletes` | session.go:428-737 | receiver-settle-mode second as a whole: the peer's unsettled disposition reaches the link, the link confirms it, the confirmation completes the delivery with its state |
| `LinkFrames.SenderAnswersFlow` | sender.go:537-573 | a flow that asks is answered with the sender's handle and the counters it has come to, any other with nothing |
| `LinkFrames.SenderTransfers` | sender.go:486-503 | a transfer the session takes goes out as it is, and the last of a message uses one credit |
| `LinkFrames.SenderPutsOut` | sender.go:450-600 | over any run the transfers put out are those handed in and the dispositions one confirmation for each unsettled one received, both in order |
| `LinkFrames.DetachAnswered` | link.go:267-300 | a closing detach is answered in kind and ends the link with the peer's error, or with its own if it was closing; one that does not close is an error |
| `LinkFrames.FailureDetaches` | link.go:343-361 | a link that finds an error sends one closing detach that carries an error |
| `LinkFrames.ClientDetaches` | sender.go:505-517 | a link closed by the client sends one that carries none |
| `Links.SenderDetachRun` | sender.go:457-515 | in every run at most one detach, and no transfer after it |
| `Links.SenderErrorSurvives` | link.go:343-358 | the error a sender closed with is the one it ends with, unless the session ends first |
| `LinkCredit.FormulaExact` | sender.go:537-548 | the 32-bit formula is the unbounded distance to the limit |
| `LinkCredit.InvStep` | sender.go:450-548 | every step keeps the limits in order and the counts apart by the deliveries in flight |
| `LinkCredit.StepRefines` | receiver.go:669-701 | every step of the 32-bit code is the wrapped image of the unbounded step |
| `LinkCredit.NoUnderflow` | receiver.go:878-880 | neither unguarded decrement of credit ever underflows |
| `LinkCredit.RunRefines` | sender.go:450-548 | link-credit safety of sender and receiver joined, over every run |
| `LinkCredit.AttachedRuns` | receiver.go:571-573 | the same from attach on, for any initial count and credit |
| `LinkCredit.CountersAgree` | receiver.go:876-880 | reassembly counts a delivery with every message it completes and with nothing else |
| `LinkCredit.IssueKeepsLimit` | creditor.go:58-64 | issuing credit raises the limit if and only if the sum fits 32 bits |
| `LinkCredit.MissingCount` | sender.go:540-546 | a flow without a delivery count gives the right credit if and only if that count is zero |
| `LinkPair.PassIssues` | receiver.go:576-606 | a pass of the receiver's mux issues what is pending, and the flow it sends states the new counters |
| `LinkPair.PassDrains` | receiver.go:599-606 | a pass with a drain pending sends its flow, keeps the counters and drops what was to be issued |
| `LinkPair.EchoAnswers` | receiver.go:711-743 | an answer of the receiver states its counters |
| `LinkPair.GrantTaken` | sender.go:537-578 | the sender's mux takes such a flow by the formula, and answers when asked |
| `LinkPair.StayTogether` | receiver.go:770-881 | reassembly and the mux keep the same counters and the same state of the detach on any transfer, accepted or refused |
| `LinkPair.StepFollows` | sender.go:450-548 | every step of the two muxes joined is a step of the counters in LinkCredit, or none they see |
| `LinkPair.SafeRun` | receiver.go:571-665 | link-credit safety of the two muxes: over every run, drains included, their counters and flows are the wrapped image of unbounded ones whose limits stay in order |
| `LinkPair.BudgetStep` | receiver.go:576-606 | the credit, settled count, pending credit and unsettled messages of a receiver on automatic credit stay below 2^32, so that no sum it issues wraps |
| `LinkPair.EveryRun` | receiver.go:571-573 | from attach on, automatic or manual: a transfer that completes a message finds credit, and the sender never holds more than the receiver gave |
| `LinkPair.DrainTaken` | sender.go:537-548 | a drain's flow leaves the sender without credit if and only if it states the sender's own count; otherwise the credit wraps to 2^32 less the difference, and it never answers |
| `LinkPair.DrainExact` | receiver.go:669-700 | over any run from the drain's sending to its receipt, behind all flows sent before it, that difference is the messages on the way at the start plus those sent since less those taken back |
| `LinkPair.DrainReached` | sender.go:537-548 | a run in which the difference is one although nothing is on the way when the drain is sent or taken: the sender ends with a credit of 2^32-1 |
| `Receiving.ReceiverMux.Drive` | receiver.go:571-665 | the object over any run of events: its frames hold at most one detach and no disposition after it |
| `Receiving.CreditorState.Flow` | creditor.go:44-68 | the values of the next flow, after which nothing is pending |
| `Receiving.ReceiverMux.MuxFlow` | receiver.go:669-701 | the flow sent, and own credit set unless draining |
| `Receiving.ReceiverMux.ReclaimCredit` | receiver.go:576-593 | settled deliveries become credit once they reach the credit left |
| `Receiving.ReceiverMux.TopOfLoop` | receiver.go:571-610 | the pass down to the select |
| `Receiving.ReceiverMux.HandleFlow` | receiver.go:711-743 | a drain reply zeroes credit and ends the drain; an echo is answered |
| `Receiving.ReceiverMux.HandleDetach` | link.go:267-300 | as for the sender |
| `Receiving.ReceiverMux.Pass` | receiver.go:612-665 | one event is one step of the specification, a drain released on the way out |
| `LinkFrames.ReceiverPasses` | receiver.go:576-610 | a pass states new credit added to what is left, or a drain with none, and exactly when one is due |
| `LinkFrames.ReceiverMoves` | receiver.go:704-721 | what moves a receiver's counters: a whole message, the pass, and on manual credit the answer to a drain; settlements count on automatic credit only |
| `LinkFrames.ReceiverDisposes` | receiver.go:639-640 | a disposition handed to the mux goes out as it is |
| `LinkFrames.DispositionsGoOut` | receiver.go:612-665 | over any run the dispositions put out are exactly those handed in, in order |
| `LinkFrames.DrainGoesOut` | receiver.go:89-103 | a drain the user asks for is sent by the next pass |
| `LinkFrames.DrainReleased` | receiver.go:551-566 | however the mux ends, no drain is left waiting |
| `Receiving.DetachRun` | receiver.go:612-655 | in every run at most one detach, and no disposition after it |
| `Receiving.LocalErrorKept` | receiver.go:588-597 | a receiver that closed its link leaves with that error if and only if no credit is due for reclaiming |
| `Receiving.LocalErrorLost` | receiver.go:588-597 | from every state in which it is due, the link ends as if closed cleanly once the peer answers the detach |
| `Receiving.LocalErrorReached` | receiver.go:588-597 | a new receiver with two credits reaches such a state: a message, its settlement, then a transfer that is refused |
| `AutoCredit.ConservedStep` | receiver.go:335-384 | every event, in both settlement modes, conserves credit |
| `AutoCredit.SettlingAnswered` | receiver.go:335-367 | settling in mode second, and trying again after giving up, are both answered by the next acknowledgement that names the message |
| `AutoCredit.ConservedRun` | receiver.go:571-606 | credit, settled count, pending credit and outstanding messages always add up to the credit configured |
| `AutoCredit.NeverStalls` | receiver.go:576-606 | after the mux's pass more than half of the credit not outstanding is available |
| `AutoCredit.EveryRun` | receiver.go:405-428 | the same from a new receiver on |
| `ManualCredit.BalancedRun` | creditor.go:27-117 | every credit accepted is added, pending, discarded, lost or untold, modulo 2^32, whether or not the session takes the flows, and drain flows never outnumber accepted drains |
| `ManualCredit.ExactRun` | creditor.go:44-68 | below 2^32 nothing is lost and the books balance exactly |
| `ManualCredit.LostExactly` | creditor.go:58-64 | a pass loses credit if and only if it would make the receiver's credit exactly 2^32 |
| `ManualCredit.NothingAcceptedWhileDraining` | creditor.go:107-117 | from an accepted drain until its reply, or the end of the mux, no credit and no further drain is accepted |
| `ManualCredit.DrainReplied` | receiver.go:712-721 | after the peer's reply credit is zero and the drain is over |
| `ManualCredit.DrainSent` | receiver.go:599-606 | an accepted drain is sent once, with zero credit, leaving own credit alone, if the session takes the flow |
| `ManualCredit.EveryRun` | creditor.go:27-117 | the ledger from a new receiver on |
| `InFlight.InFlightMap.Drive` | receiver.go:897-946 | the object over any calls: each waiter added has one result, or none exactly when it still waits or was displaced; after a clear nobody waits |
| `InFlight.AddKeeps` | receiver.go:897-909 | a second wait for an id displaces the first, whose waiter is then the only one never told |
| `InFlight.InFlightMap.Remove` | receiver.go:911-937 | the loop empties the range and returns how many ids were in flight in it |
| `InFlight.InFlightMap.Clear` | receiver.go:939-946 | every waiter left is told, in some order |
| `InFlight.RemoveExact` | receiver.go:911-937 | exactly the ids of the range go, and exactly their waiters are told |
| `InFlight.HitTold` | receiver.go:911-937 | whoever waits for an id of the range is told |
| `InFlight.FanOut` | session.go:428-476 | any number of copies of a disposition settles what one does, and is counted once |
| `InFlight.EachToldOnce` | receiver.go:897-946 | in every run a waiter is told at most one result, and exactly one unless it still waits or was displaced by a second wait for its id |
| `Queue.SegmentQueue.constructor` | internal/queue/queue.go:81-91 | an empty queue of one segment |
| `Queue.SegmentQueue.Enqueue` | internal/queue/queue.go:95-122 | appends to the sequence; the loop ends; segments outside head to tail stay blank |
| `Queue.SegmentQueue.Dequeue` | internal/queue/queue.go:125-151 | removes the first item, or nothing from an empty queue; no slot keeps an item that has left |
| `Queue.SegmentQueue.Len` | internal/queue/queue.go:154-156 | the count kept is the length |
| `Queue.SegmentQueue.LinkSegment` | internal/queue/queue.go:113-120 | a new blank segment enters the ring behind the tail |
| `Queue.FullRing` | internal/queue/queue.go:107-120 | a ring grows only when nearly all its slots are in use |
| `Queue.GrowCounted` | internal/queue/queue.go:113-120 | a ring of K segments of size S has once held (K-2)S+1 items |
| `Holder.OneTokenRun` | internal/queue/queue.go:31-57 | in every run the queue is in exactly one of the two channels or one pair of hands, and in populated only with items |
| `Holder.NeverBlocked` | internal/queue/queue.go:31-70 | hence Release never waits, and Wait is offered exactly when the queue at rest has items |
| `Bitmap.BitmapState.constructor` | internal/bitmap/bitmap.go:13-15 | the empty set |
| `Bitmap.BitmapState.Add` | internal/bitmap/bitmap.go:22-37 | adds a number up to the maximum, growing as needed |
| `Bitmap.BitmapState.Remove` | internal/bitmap/bitmap.go:42-53 | removes a number |
| `Bitmap.BitmapState.Next` | internal/bitmap/bitmap.go:61-96 | returns and adds the least number not in the set; fails if and only if all up to the maximum are taken |
| `Bitmap.Handles.Allocate` | session.go:754-777 | numbers in use stay distinct, in range and equal to the bitmap's set; the least free one is given; failures leave everything as it was |
| `Bitmap.Handles.Deallocate` | session.go:779-785 | key and number are forgotten; numbers in use stay exactly the bitmap's set if and only if the link was live under that number, or neither was in use any more |
| `Bitmap.Handles.AllocateChannel` | conn.go:561-578 | a new session gets the least channel no session has, and is found under it; refused exactly when all are in use |
| `Bitmap.Handles.Drive` | session.go:754-785 | over any links attaching and each detaching once: those attached have different handles in range, and the bitmap holds exactly these |
| `Bitmap.Handles.DriveSessions` | conn.go:561-586 | the same over any sessions beginning and ending |

## Left out

- Dialing, TLS, SASL, connection establishment, timers and contexts: no state worth a theorem beyond library calls.
- The open, attach and SASL performatives: composites like the ones modeled; the session model takes an attach frame by what it looks up.
- Goroutines: each mux is single-threaded, so runs interleave whole passes; the lock-protected part of a receiver's pass and the credit it issues are one step.
- Floating-point numbers are carried as their bits, timestamps as milliseconds, UUIDs as the number their bytes spell; map keys are compared structurally.
- Map iteration order: a map is the sequence of its entries in the order Go happens to iterate.
- Elements and buffers of 4 GiB and more inside arrays, and the uint32 overflow of a map's pair loop; a 64-bit int is assumed.
- Frames with a data offset above two: the reader checks the offset but does not skip by it.
- A second header or properties section in one message: Go refills the same struct, the model replaces it.
- Messages.MessageRoundTrip: the annotations, application properties and footer are required to be maps or absent, as their Go types make them.
- RoundTrip.ValueRoundTrip: excludes what cannot come back, namely reserved descriptors, unhashable map keys, narrowed negative arrays and over-short string arrays; the exact conditions are DescribedExact, MapExact, NumArrayExact and VarArrayExact.
- Conformance.AnySpelled: the standard's char and decimal types and descriptors that are symbols of composite types are not read by the code; map keys are of types Go can hash, and string arrays long enough for the reader's estimate (VarArrayExact has the exact condition).
- Conforming.EncodeConforms: values under 4 GiB, beyond which the standard has no size field to write, and those ValueRoundTrip speaks of.
- Performatives.BodySpelled: the seven performatives modeled; the code looks only for a one-byte descriptor in front of them.
- Panics.UnmarshalSafe: a condition on the bytes that suffices; the exact one is stated for encoded messages (MessageExact).
- Frames.ParseBody: the bodies of open, attach and SASL frames are errors here.
- Framing.Conn.ReadFrames: ends at a malformed header; that a body which does not parse also ends connReader is in EndToEnd.ReceiveFrames.
- Delivery.Receiver.MuxReceive: calls the decoder as a function rather than through Reader.MessageFrom, which is proved equal to it.
- Delivery.Sender.Send: starts from the buffer with the encoded message; marshaling it, and its errors, are Writer.MarshalMessage.
- EndToEnd.Arrive: speaks of frames that writeFrame lets through; ArriveShortTags needs no such condition.
- Delivery.Receiver.TakePayload: after a decode error the whole buffer is kept, where the code has moved its read index; only transfers that follow in the states of LocalErrorLost could tell.
- Exchange.SendAndReceive: a peer's frame limit below 2^31, a window wide enough for all transfers, tags of at most 27 bytes and writes that succeed; NextAfterStopped and SentFrameFits are about the rest.
- LinkPair.SafeRun: runs in which both ends are up, ending before a drain that does not find the sender at its count (DrainTaken), and with manual credit below 2^32 (IssueKeepsLimit).
- SessionRuns.SoundRun: ranges whose upper bound is 2^32-1 are excluded, since the loop over them does not end (RangeLoopEnds).
- SessionMux.SessionState.OnDisposition: excludes those ranges too.
- SessionMux.SessionState.SendDisposition: excludes those ranges too.
- InFlight.InFlightMap.Remove: excludes those ranges too.
- InFlight.InFlightMap.Drive: excludes those ranges too.
- SessionRuns.WindowRun: assumes the peer's edge never falls behind what was sent; without that only GrantRun holds.
