# LifeLens and Matter server: a verified model

The repository joins a lifelog server, a Python client for Matter devices, and a TypeScript
Matter server with its dashboard and Bluetooth proxy. This project models the parts of it where
a property spans several functions or a whole run, and proves those properties for all inputs
and all runs:

- the Matter TLV writer and reader (Appendix A of the Matter Core Specification) and the
  descriptor layer above them: a printer and parser pair for nested data, with the exact
  values it carries;
- JSON with big integers (sections 2 to 7 of RFC 8259): a scanner that rewrites text before the
  standard parser, and a serializer that patches text after the standard one, with the exact
  values that survive each and both;
- acronym rewriting: fifty replacements in sequence as one simultaneous pass;
- log rotation: conservation of lines over all interleavings of writes and rotation steps, and what
  a whole rotation leaves in each file;
- the endpoint tree: totality on cyclic data, and recovery of a forest from descendant lists;
- the Bluetooth proxy: ownership of peripherals, command correlation, early frames and the
  message queue;
- the snapshot stream of the camera view, day windows over text timestamps, event
  subscriptions, the tariff timeline and the encoder budget.

Classes of the sources are classes here. A class keeps the fields of its source, each method is
one synchronous stretch of code between two waits, and its contract equates the new state with a
step function on values; what holds over all runs is proved about those step functions. Where
the source awaits, the completion is an event that may come at any time. Beside the invariants, what
each operation does is stated on its own terms: bytes, characters and outcomes. Every lemma switches
automatic induction off: what a proof needs stands in its body.

## Where the code falls short

Each of these is proved, with the exact condition under which the code does what it promises
and an input or a run at which it does not.

- A value holding a `TLVList` is written but never read back: the reader has no case for type
  0x17 (`TlvRoundTrip.RoundTrip`, with the value of `TlvAccepts.ListWrittenNotRead`).
- A JSON string value that starts with the scanner's marker does not survive reading
  (`JsonReader.ReadsExactly`, with the document of `JsonReader.MarkerStringMisread`).
- The reader accepts texts that are not JSON. Of texts made of tokens it accepts exactly those that
  are JSON once each large integer is a marked string, provided the marked strings revive
  (`JsonReader.ReadTokens`): a large integer may stand for a name (`JsonReader.LargeNameAccepted`).
  Leading zeros of a large integer vanish (`JsonReader.LeadingZerosAccepted`).
- A value does not survive writing and reading if a string or name of its own equals, or ends in a
  quotation mark followed by, the placeholder of one of its big integers
  (`JsonRoundTrip.WriteReadsBack`, with `JsonRoundTrip.PlaceholderStringLost`). Nor does a number
  that prints as an integer outside the safe range (`JsonRoundTrip.LargeNumberTurned`), or a big
  integer below that range which the serializer rounds (`JsonRoundTrip.RoundedComesBack`).
- The comment in wire-naming.ts (lines 13-20) says that the order of the acronym table matters.
  For this table it does not (`WireNaming.OrderIrrelevant` with `WireTable.TableIsGood`).
- A hello may arrive after the handshake timeout closed the connection. A sighting reported by
  such a client can leave a peripheral without connected owner although a connected client saw it
  (`BleHandler.StepCovers`, with the run of `BleHandler.OwnershipFails`).
- A command may be settled with the answer of another one, or lose its own, once its id has come
  round: while the earlier command is pending (`BleConnection.FloodClashes`), or when the answer to
  a command that timed out comes late (`BleConnection.LateAnswerMisleads`). The events that do so
  are exactly the clashes of `BleConnection.StepKeeps`. There are none while the client answers each
  command at most once and no command still open or unanswered is 65536 sends old
  (`BleConnection.RecentRunsNeverClash`).
- A second `next()` while one waits leaves the first unanswered for good exactly while the channel
  is connected (`BleChannel.SecondCallForgets`, with the run of `BleChannel.FirstCallForgotten`).
- An attribute path equal to the wildcard's own text makes every matching callback run twice
  (`Subscriptions.SignalledOnce`, with the registration of `Subscriptions.CalledTwice`).
- The window of a day does not exist for the first and the last day of the calendar
  (`DayWindow.BoundsAre`).

## Model

| member | source | states |
|---|---|---|
| TlvFormat.UnpackPack | matterjs-server-main/python_client/chip/tlv/__init__.py:244-257 | unsigned little-endian packing reads back |
| TlvFormat.UnpackPackSigned | matterjs-server-main/python_client/chip/tlv/__init__.py:122-138 | two's complement packing reads back for every value that fits the width |
| TlvWire.LittleEndianBytes | matterjs-server-main/python_client/chip/tlv/__init__.py:244-257 | the i-th byte of a packed number is its i-th digit in base 256: the least significant comes first |
| TlvWire.FromLittleEndianValue | matterjs-server-main/python_client/chip/tlv/__init__.py:296-311 | any bytes, read as unsigned or two's complement, give the number whose digits they are, least significant first |
| TlvWriter.TLVWriter.Append | matterjs-server-main/python_client/chip/tlv/__init__.py:183-195 | appends a given encoding, or raises its error leaving the buffer alone |
| TlvWriter.TLVWriter.PutSignedInt | matterjs-server-main/python_client/chip/tlv/__init__.py:122-138 | appends the integer in its least of four widths, or raises out of range |
| TlvWriter.TLVWriter.PutUnsignedInt | matterjs-server-main/python_client/chip/tlv/__init__.py:140-146 | appends the integer in its least of four widths, or raises out of range |
| TlvWriter.TLVWriter.PutFloat | matterjs-server-main/python_client/chip/tlv/__init__.py:148-162 | appends a 4- or 8-byte payload under the matching type |
| TlvWriter.TLVWriter.PutString | matterjs-server-main/python_client/chip/tlv/__init__.py:164-181 | appends length and content, the length in its least width |
| TlvWriter.TLVWriter.StartContainer | matterjs-server-main/python_client/chip/tlv/__init__.py:192-204 | appends the header and pushes the container, or raises |
| TlvWriter.TLVWriter.EndContainer | matterjs-server-main/python_client/chip/tlv/__init__.py:206-209 | pops the container and appends the end marker |
| TlvWriter.TLVWriter.PutContainer | matterjs-server-main/python_client/chip/tlv/__init__.py:99-119 | a container's bytes, in order, with the stack restored |
| TlvWriter.TLVWriter.PutEntries | matterjs-server-main/python_client/chip/tlv/__init__.py:99-119 | the entries of a structure or list, one after the other |
| TlvWriter.TLVWriter.PutElems | matterjs-server-main/python_client/chip/tlv/__init__.py:114-118 | the elements of a sequence, untagged |
| TlvWriter.TLVWriter.Put | matterjs-server-main/python_client/chip/tlv/__init__.py:81-120 | any value at any depth: exactly its encoding is appended and the stack restored, or its error is raised |
| TlvAccepts.WriterAccepts | matterjs-server-main/python_client/chip/tlv/__init__.py:81-257 | put succeeds on exactly the values whose tags suit their containers and whose integers fit 64 bits |
| TlvWire.WriterIsWire | matterjs-server-main/python_client/chip/tlv/__init__.py:81-257 | for every value the writer accepts, it writes exactly the bytes of the format: control bytes 0x14, 0x08 and 0x09, 0x04+code, 0x00+code, 0x0A and 0x0B, 0x0C+code, 0x10+code, 0x15, 0x16, 0x17 and 0x18, 0x20 more with a tag, numbers in the least of 1, 2, 4 and 8 little-endian bytes |
| TlvWire.TagRefused | matterjs-server-main/python_client/chip/tlv/__init__.py:211-242 | which error a tag that does not suit its container raises, in the order of the checks |
| TlvReader.TLVReader.Advance | matterjs-server-main/python_client/chip/tlv/__init__.py:288-360 | taking n bytes moves the cursor by n, or raises on a short buffer |
| TlvReader.TLVReader.TakeString | matterjs-server-main/python_client/chip/tlv/__init__.py:332-358 | a length and the bytes it announces |
| TlvReader.TLVReader.DecodeControlAndTag | matterjs-server-main/python_client/chip/tlv/__init__.py:271-286 | type and tag of an element, moving past them |
| TlvReader.TLVReader.DecodeVal | matterjs-server-main/python_client/chip/tlv/__init__.py:288-359 | on any bytes, terminates with the value of the specification or its error |
| TlvReader.TLVReader.GetInto | matterjs-server-main/python_client/chip/tlv/__init__.py:361-376 | fills the dict or list with the elements up to an end marker or the end of the buffer |
| TlvReader.TLVReader.GetAll | matterjs-server-main/python_client/chip/tlv/__init__.py:266-269 | the dict of a whole buffer and the number of bytes read |
| TlvWire.ReadsFixed | matterjs-server-main/python_client/chip/tlv/__init__.py:296-330 | on any bytes: null, booleans, floats by their literal types, unsupported type for 0x17 and above 0x18 |
| TlvWire.ReadsInteger | matterjs-server-main/python_client/chip/tlv/__init__.py:305-320 | on any bytes: integers of all four widths, least or not, little-endian; truncated exactly if the buffer ends too early |
| TlvWire.ReadsString | matterjs-server-main/python_client/chip/tlv/__init__.py:332-358 | on any bytes: a little-endian length of any width, the content clamped to the buffer, the cursor moved by the whole length |
| TlvWire.ReadsTag | matterjs-server-main/python_client/chip/tlv/__init__.py:271-286 | on any bytes: only the tag control 0x20 brings a tag byte |
| TlvWire.LastOneKept | matterjs-server-main/python_client/chip/tlv/__init__.py:361-374 | of several elements under one key the last one's value is kept |
| TlvRoundTrip.ElementReadsBack | matterjs-server-main/python_client/chip/tlv/__init__.py:271-376 | an element embedded at any offset before any suffix reads back with the cursor right behind it |
| TlvRoundTrip.RoundTrip | matterjs-server-main/python_client/chip/tlv/__init__.py:81-376 | every writable value reads back as its meaning under "Any", all bytes read; with a TLVList anywhere inside, unsupported type |
| TlvAccepts.ListWrittenNotRead | matterjs-server-main/python_client/chip/tlv/__init__.py:271-376 | a dict holding a TLVList is written, and reading what was written raises unsupported type |
| TlvRoundTrip.SortedPermutes | matterjs-server-main/python_client/chip/tlv/__init__.py:101-106 | sorting a dict by tag loses and adds no entry |
| TlvRoundTrip.SortedAscends | matterjs-server-main/python_client/chip/tlv/__init__.py:379-389 | a dict is written with ascending sort keys |
| TlvWire.SortedByNumber | matterjs-server-main/python_client/chip/tlv/__init__.py:101-106 | a dict's entries are written by strictly ascending tag numbers, all of them |
| TlvAccepts.DictUpToOrder | matterjs-server-main/python_client/chip/tlv/__init__.py:101-106 | a dict reads back with the same value under every key; only the order of keys may differ |
| Schema.PutSingleElement | matterjs-server-main/python_client/chip/clusters/ClusterObjects.py:40-59 | a struct or a converted leaf is written, or an exception is raised |
| Schema.PutField | matterjs-server-main/python_client/chip/clusters/ClusterObjects.py:61-92 | null, absent, list and single values of a field, each written as its type allows |
| Schema.PutList | matterjs-server-main/python_client/chip/clusters/ClusterObjects.py:83-90 | the elements between array start and end |
| Schema.PutElems | matterjs-server-main/python_client/chip/clusters/ClusterObjects.py:85-89 | each element in turn, untagged |
| Schema.PutFields | matterjs-server-main/python_client/chip/clusters/ClusterObjects.py:171-176 | each field in turn, absent ones as None |
| Schema.DictToTLVWithWriter | matterjs-server-main/python_client/chip/clusters/ClusterObjects.py:168-177 | a structure with the descriptor's fields in order |
| Schema.DictToTLV | matterjs-server-main/python_client/chip/clusters/ClusterObjects.py:179-182 | the bytes of a label dict, or an exception |
| Schema.TagDictToLabelDict | matterjs-server-main/python_client/chip/clusters/ClusterObjects.py:126-162 | decoded fields under their labels, unknown tags kept |
| Schema.TLVToDict | matterjs-server-main/python_client/chip/clusters/ClusterObjects.py:164-166 | the label dict of a buffer, or an exception |
| SchemaEdges.UnknownTagsKept | matterjs-server-main/python_client/chip/clusters/ClusterObjects.py:131-134 | a decoded field is kept raw under its tag if and only if no descriptor field has that tag |
| SchemaEdges.LabelsRead | matterjs-server-main/python_client/chip/clusters/ClusterObjects.py:130-162 | a label is in the dict if and only if its tag was decoded, with the converted value |
| SchemaEdges.ReadRaises | matterjs-server-main/python_client/chip/clusters/ClusterObjects.py:126-162 | reading raises if and only if the value under a known tag cannot be converted |
| SchemaEdges.FieldRead | matterjs-server-main/python_client/chip/clusters/ClusterObjects.py:136-162 | null is read as NullValue for every field, a list element by element, a list where none is expected raises |
| SchemaEdges.EnumRead | matterjs-server-main/python_client/chip/clusters/ClusterObjects.py:111-119 | an enum value outside the members becomes the unknown member |
| SchemaEdges.AnonymousRead | matterjs-server-main/python_client/chip/clusters/ClusterObjects.py:164-166 | on any bytes: the dict of the anonymous structure, whose keys are distinct; empty without one; an exception if it is no structure |
| SchemaEdges.FieldTakes | matterjs-server-main/python_client/chip/clusters/ClusterObjects.py:61-92 | null needs a nullable field, absence an optional one, and lists and list fields go together |
| SchemaEdges.WriteRaises | matterjs-server-main/python_client/chip/clusters/ClusterObjects.py:168-177 | writing a dict raises if and only if one of its descriptor's fields does |
| SchemaEdges.MandatoryFieldsNeeded | matterjs-server-main/python_client/chip/clusters/ClusterObjects.py:63-76 | an absent mandatory field, or null on a field that is not nullable, makes DictToTLV raise |
| SchemaEdges.WrittenInFieldOrder | matterjs-server-main/python_client/chip/clusters/ClusterObjects.py:172-176 | each present field is written right behind the present ones among the fields before it |
| SchemaEdges.EnumWritten | matterjs-server-main/python_client/chip/clusters/ClusterObjects.py:53-59 | an enum field is written with a member, the unknown one for what is none |
| SchemaRoundTrip.SchemaRoundTrip | matterjs-server-main/python_client/chip/clusters/ClusterObjects.py:61-182 | every well-typed label dict is written, and reads back with nulls kept and absent optionals omitted, at any depth |
| SchemaRoundTrip.ReturnedLookup | matterjs-server-main/python_client/chip/clusters/ClusterObjects.py:126-162 | what comes back has exactly the fields that were present, each with its value |
| SchemaRoundTrip.ExactDictReturned | matterjs-server-main/python_client/chip/clusters/ClusterObjects.py:61-182 | a dict without None entries and foreign keys comes back equal |
| JsonParse.TokensReadBack | matterjs-server-main/packages/ws-client/src/json-utils.ts:154-160 | the text of tokens of a JSON text splits into those tokens again |
| JsonParse.ParseDocument | matterjs-server-main/packages/ws-client/src/json-utils.ts:154-160 | the standard parser reads every document's text as its syntax tree's value, whatever the white space, escapes and repeated names |
| JsonWritten.LastMemberCounts | matterjs-server-main/packages/ws-client/src/json-utils.ts:154-160 | of members with one name the last one's value is read |
| JsonWritten.DigitsJoin | matterjs-server-main/packages/ws-client/src/json-utils.ts:133-140 | decimal digits count highest first |
| JsonScanner.SkipDigits | matterjs-server-main/packages/ws-client/src/json-utils.ts:105-107 | moves past the whole run of digits |
| JsonScanner.SkipFraction | matterjs-server-main/packages/ws-client/src/json-utils.ts:110-117 | moves past a decimal point and its digits, if there is one |
| JsonScanner.SkipExponent | matterjs-server-main/packages/ws-client/src/json-utils.ts:119-129 | moves past an exponent with its sign, if there is one |
| JsonScanner.SkipNumber | matterjs-server-main/packages/ws-client/src/json-utils.ts:103-129 | moves past integer, fraction and exponent, and tells an integer from a float |
| JsonScanner.PlaceNumber | matterjs-server-main/packages/ws-client/src/json-utils.ts:95-144 | what stands for a number: marked if an integer of 15 or more digits outside the safe range |
| JsonScanner.CopyInside | matterjs-server-main/packages/ws-client/src/json-utils.ts:69-85 | inside a string, escapes and contents are copied up to the closing mark |
| JsonScanner.CopyNumber | matterjs-server-main/packages/ws-client/src/json-utils.ts:95-144 | a minus already pushed is taken back into its number |
| JsonScanner.Scan | matterjs-server-main/packages/ws-client/src/json-utils.ts:58-151 | on any text, the look-back loop computes the rewriting that reads each number with its sign |
| JsonExact.CutoffIsSafe | matterjs-server-main/packages/ws-client/src/json-utils.ts:133-140 | an integer of fewer than 15 digits is always safe |
| JsonExact.OutsideTokens | matterjs-server-main/packages/ws-client/src/json-utils.ts:58-151 | on the text of tokens the scanner changes integers outside the safe range and nothing else |
| JsonExact.ScannedDocument | matterjs-server-main/packages/ws-client/src/json-utils.ts:58-151 | the rewritten text is again the text of a JSON document, with only those integers replaced |
| JsonReader.BigIntReadsBack | matterjs-server-main/packages/ws-client/src/json-utils.ts:154-158 | BigInt of a marked integer's text is that integer |
| JsonReader.RevivesIff | matterjs-server-main/packages/ws-client/src/json-utils.ts:154-160 | reviving undoes marking exactly if no string value starts with the marker |
| JsonReader.ParseBigIntAwareJson | matterjs-server-main/packages/ws-client/src/json-utils.ts:58-160 | scan, parse and revive; None for an exception |
| JsonReader.ReadsExactly | matterjs-server-main/packages/ws-client/src/json-utils.ts:51-160 | a document reads as its value with every integer exact, if and only if no string value starts with the marker |
| JsonReader.MarkerStringMisread | matterjs-server-main/packages/ws-client/src/json-utils.ts:154-160 | the document of a string that is the marker alone reads as the big integer 0 |
| JsonReader.ReadTokens | matterjs-server-main/packages/ws-client/src/json-utils.ts:51-160 | tokens in any order are accepted exactly if they are JSON once each large integer is a marked string, and reviving succeeds |
| JsonReader.LargeNameAccepted | matterjs-server-main/packages/ws-client/src/json-utils.ts:86-160 | a large integer in the place of a name is no JSON but is read as a name |
| JsonReader.LeadingZerosAccepted | matterjs-server-main/packages/ws-client/src/json-utils.ts:95-144 | an integer of 15 or more digits with leading zeros is no JSON, but is read without them if large |
| JsonReplace.ReplaceTokens | matterjs-server-main/packages/ws-client/src/json-utils.ts:42-46 | a text search for a quoted placeholder replaces exactly the string tokens spelt so, unless a string ends in a quotation mark and it |
| JsonWriter.ToBigIntAwareJson | matterjs-server-main/packages/ws-client/src/json-utils.ts:22-49 | the serializer's text with each placeholder replaced in turn |
| JsonWritten.HolderIsHex | matterjs-server-main/packages/ws-client/src/json-utils.ts:30-31 | a placeholder is 0x and the lower-case hexadecimal digits of its integer |
| JsonWreck.TangledUnread | matterjs-server-main/packages/ws-client/src/json-utils.ts:42-46 | if a string ends in a quotation mark and a placeholder, the written text does not parse, whatever is replaced later |
| JsonRoundTrip.WrittenDocument | matterjs-server-main/packages/ws-client/src/json-utils.ts:22-49 | otherwise the scanner sees the text of one document |
| JsonRoundTrip.WriteReadsBack | matterjs-server-main/packages/ws-client/src/json-utils.ts:22-160 | a written value reads back, safe big integers as numbers, if and only if no string is marked, no string or name meets a placeholder of its own, no number prints as an unsafe integer and none below the range is rounded |
| JsonRoundTrip.PlaceholderStringLost | matterjs-server-main/packages/ws-client/src/json-utils.ts:30-31 | a big integer beside a string that is its placeholder does not come back |
| JsonRoundTrip.LargeNumberTurned | matterjs-server-main/packages/ws-client/src/json-utils.ts:22-160 | a number that prints as an integer outside the safe range comes back as a big integer |
| JsonRoundTrip.RoundedComesBack | matterjs-server-main/packages/ws-client/src/json-utils.ts:28-36 | of a big integer below the safe range the rounded number comes back |
| JsonWritten.WritesExactly | matterjs-server-main/packages/ws-client/src/json-utils.ts:22-49 | the written text is a standard JSON document whose exact value is the value, every big integer with all its digits |
| WireNaming.SequentialIsSimultaneous | matterjs-server-main/packages/ws-client/src/wire-naming.ts:159-170 | for every name and every table without plurals of entries and two-letter entries in S, the loop upper-cases exactly the positions covered in the original name |
| WireNaming.LettersKept | matterjs-server-main/packages/ws-client/src/wire-naming.ts:159-170 | only the case of letters changes |
| WireNaming.OrderIrrelevant | matterjs-server-main/packages/ws-client/src/wire-naming.ts:13-78 | tables with the same entries rewrite alike, in any order |
| WireNaming.Idempotent | matterjs-server-main/packages/ws-client/src/wire-naming.ts:159-170 | a second rewrite changes nothing |
| WireNaming.OccurrenceIs | matterjs-server-main/packages/ws-client/src/wire-naming.ts:163-165 | an occurrence is the capital and the lower-case letters of an acronym, up to the end of the word or a plural s |
| WireNaming.RaisedAt | matterjs-server-main/packages/ws-client/src/wire-naming.ts:159-170 | position by position: lower-case letters inside an occurrence become their capitals, all else stays |
| WireTable.TableIsGood | matterjs-server-main/packages/ws-client/src/wire-naming.ts:21-78 | the shipped table meets the condition |
| WireTable.VideoStreamId | matterjs-server-main/packages/ws-client/test/WireNamingTest.ts:42 | VideoStreamId becomes VideoStreamID, although it starts with Vid |
| WireTable.ChipNames.ToChipName | matterjs-server-main/packages/ws-client/src/wire-naming.ts:156-170 | cached or not, the result is the simultaneous pass, and the cache stays right |
| WireTable.ChipNames.MatterNameToWireField | matterjs-server-main/packages/ws-client/src/wire-naming.ts:172-184 | overrides first; otherwise the converted name, whose first letter alone is lowered unless two capitals lead |
| LogRotation.ShiftedBackups | matterjs-server-main/packages/matter-server/src/file-logger.ts:36-54 | shifting moves every backup up by one, with gaps or without, for any number of backups |
| LogRotation.StepKeeps | matterjs-server-main/packages/matter-server/src/file-logger.ts:109-205 | every step keeps streams and files as its stage has them, and the logged lines unchanged but for the line it writes |
| LogRotation.RunKeeps | matterjs-server-main/packages/matter-server/src/file-logger.ts:109-228 | over every interleaving, dropped backups, backups, active file, temporary file and pending lines are the accepted lines in order |
| LogRotation.StartKeeps | matterjs-server-main/packages/matter-server/src/file-logger.ts:86-99 | startup keeps the earlier log, but for its last backup and a stale temporary file |
| RotationCycle.StartRotates | matterjs-server-main/packages/matter-server/src/file-logger.ts:86-99 | startup makes the last log backup 1, moves every backup up and opens an empty log without a temporary file |
| LogRotation.CloseDelivers | matterjs-server-main/packages/matter-server/src/file-logger.ts:210-217 | from any stage, finishing the rotation and closing leaves every line in a file |
| RotationCycle.RotationCompletes | matterjs-server-main/packages/matter-server/src/file-logger.ts:109-205 | from any idle state, a rotation with anything written in between ends idle: the log so far is backup 1, every backup has moved up, the last is dropped, and what was written since the temporary file opened is the whole new log |
| RotationCycle.QuietRun | matterjs-server-main/packages/matter-server/src/file-logger.ts:219-228 | between completions, lines are added to the current log and nothing else changes |
| RotationCycle.FlushReaches | matterjs-server-main/packages/matter-server/src/file-logger.ts:59-69 | a flush puts exactly the first lines of the buffer into the file |
| RotationCycle.TimerAndFailure | matterjs-server-main/packages/matter-server/src/file-logger.ts:109-123 | only an idle logger starts a rotation, and one whose file cannot be opened leaves no trace |
| FileLogger.FileLogger.constructor | matterjs-server-main/packages/matter-server/src/file-logger.ts:86-99 | the startup state on the files of earlier runs |
| FileLogger.FileLogger.ShiftBackupsSync | matterjs-server-main/packages/matter-server/src/file-logger.ts:36-54 | the backward rename loop moves all files at once to their targets |
| FileLogger.FileLogger.Rename | matterjs-server-main/packages/matter-server/src/file-logger.ts:43-53 | renaming replaces the target and passes over a missing file |
| FileLogger.FileLogger.Write | matterjs-server-main/packages/matter-server/src/file-logger.ts:219-228 | buffers the line while a rotation is between files, else gives it to the stream |
| FileLogger.FileLogger.RotateLog | matterjs-server-main/packages/matter-server/src/file-logger.ts:196-205 | starts a rotation only if none is in progress |
| FileLogger.FileLogger.TempFailed | matterjs-server-main/packages/matter-server/src/file-logger.ts:120-123 | a rotation that cannot open its file ends without effect |
| FileLogger.FileLogger.FlushWriter | matterjs-server-main/packages/matter-server/src/file-logger.ts:59-69 | buffered lines reach the file in order, at any time |
| FileLogger.FileLogger.FlushOld | matterjs-server-main/packages/matter-server/src/file-logger.ts:74-84 | so do those of the stream being drained |
| FileLogger.FileLogger.TempOpened | matterjs-server-main/packages/matter-server/src/file-logger.ts:112-135 | swaps the writer and starts draining the old stream |
| FileLogger.FileLogger.OldDrained | matterjs-server-main/packages/matter-server/src/file-logger.ts:130-155 | shifts the backups, starts keeping lines in memory, drains the temporary file |
| FileLogger.FileLogger.TempDrained | matterjs-server-main/packages/matter-server/src/file-logger.ts:154-169 | the temporary file takes the log's name |
| FileLogger.FileLogger.WriteAll | matterjs-server-main/packages/matter-server/src/file-logger.ts:186-193 | the loop gives the kept lines to the new stream in order |
| FileLogger.FileLogger.FinalOpened | matterjs-server-main/packages/matter-server/src/file-logger.ts:171-194 | the kept lines are written in order and rotation ends |
| FileLogger.FileLogger.CloseDrained | matterjs-server-main/packages/matter-server/src/file-logger.ts:210-217 | the writer ends with all its lines in the file |
| EndpointTree.EachOnce | matterjs-server-main/packages/dashboard/src/util/endpoints.ts:30-67 | on any lists, cyclic or not, the traversal ends and shows each endpoint exactly once |
| EndpointShape.TreeShape | matterjs-server-main/packages/dashboard/src/util/endpoints.ts:30-67 | on any lists: first all roots, ascending, each with its part, then, ascending, what no root leads to; every endpoint below the top is a direct child of the one in whose part it stands |
| EndpointTree.Traversal.VisitOne | matterjs-server-main/packages/dashboard/src/util/endpoints.ts:55-60 | a visit emits the endpoint and its unvisited descendants |
| EndpointTree.Traversal.VisitEach | matterjs-server-main/packages/dashboard/src/util/endpoints.ts:59-65 | visits the endpoints of a list in turn |
| EndpointTree.Relate | matterjs-server-main/packages/dashboard/src/util/endpoints.ts:41-50 | the loop's children map, and the endpoints that are anyone's child |
| EndpointTree.GetEndpointTree | matterjs-server-main/packages/dashboard/src/util/endpoints.ts:30-67 | the emitted entries |
| EndpointForest.DirectAreTop | matterjs-server-main/packages/dashboard/src/util/endpoints.ts:43-48 | where lists are descendants, the kept children are exactly the direct ones, ascending |
| EndpointForest.ForestRecovered | matterjs-server-main/packages/dashboard/src/util/endpoints.ts:30-67 | where lists are descendants of some forest, in any order and with repetitions, the output is that forest's preorder with true depths |
| BleHandler.StepKeeps | matterjs-server-main/packages/ble-proxy/src/BleProxyHandler.ts:83-237 | every event keeps each owner among the clients that saw the address |
| BleHandler.StepCovers | matterjs-server-main/packages/ble-proxy/src/BleProxyHandler.ts:198-237 | an event keeps every address covered if and only if it is not a stale sighting |
| BleHandler.QuiescentOwned | matterjs-server-main/packages/ble-proxy/src/BleProxyHandler.ts:129-133 | once every closing is handled, covered means: an address with a connected seer has a connected owner |
| BleHandler.OwnershipOverRuns | matterjs-server-main/packages/ble-proxy/src/BleProxyHandler.ts:83-237 | over all runs from the start, both of these hold where no sighting was stale |
| HubRuns.SeersAreReporters | matterjs-server-main/packages/ble-proxy/src/BleProxyHandler.ts:198-237 | over all runs, of a connected client exactly the addresses it reported are recorded |
| HubRuns.ReportedIsOwned | matterjs-server-main/packages/ble-proxy/src/BleProxyHandler.ts:83-237 | over all runs, an owner reported its address, and, without stale sightings, an address that a connected client reported has an owner |
| HubRuns.OwnerStays | matterjs-server-main/packages/ble-proxy/src/BleProxyHandler.ts:198-237 | an owner stays until it drops or is closed, or the hub is |
| HubRuns.FirstSeerIsNext | matterjs-server-main/packages/ble-proxy/src/BleProxyHandler.ts:219-236 | when an owner is closed, the first of the others that is still connected is next; without one the address is dropped |
| HubRuns.WhoScans | matterjs-server-main/packages/ble-proxy/src/BleProxyHandler.ts:135-196 | which clients scan after each event |
| HubRuns.NobodyScansIdle | matterjs-server-main/packages/ble-proxy/src/BleProxyHandler.ts:135-196 | over all runs, nobody scans unless a scan is active |
| HubRuns.UnregisterForgets | matterjs-server-main/packages/ble-proxy/src/BleProxyHandler.ts:98-126 | after any run, unregistering leaves no connected client, no owner and no scan |
| BleHandler.StaleSightingDisowns | matterjs-server-main/packages/ble-proxy/src/BleProxyHandler.ts:198-212 | a run in which a stale sighting leaves a seen address without connected owner |
| BleHandler.LateHello | matterjs-server-main/packages/ble-proxy/src/BleProxyConnection.ts:83-89 | the timed-out client of that run shakes hands after its closing was handled |
| BleHandler.TwoConnect | matterjs-server-main/packages/ble-proxy/src/BleProxyHandler.ts:83-95 | two more clients of that run join |
| BleHandler.TwoSee | matterjs-server-main/packages/ble-proxy/src/BleProxyHandler.ts:198-213 | both see the address, which reaches the state the run starts from |
| BleHandler.OwnershipFails | matterjs-server-main/packages/ble-proxy/src/BleProxyHandler.ts:83-237 | the whole of that run, from a hub without clients: all closings handled, and a seen address without connected owner |
| BleHub.BleProxyHandler.OnConnection | matterjs-server-main/packages/ble-proxy/src/BleProxyHandler.ts:83-95 | a new client joins, unless the hub is closed |
| BleHub.BleProxyHandler.OnHandshakeCompleted | matterjs-server-main/packages/ble-proxy/src/BleProxyHandler.ts:169-179 | a client that shook hands joins a scan in progress |
| BleHub.BleProxyHandler.MarkNotScanning | matterjs-server-main/packages/ble-proxy/src/BleProxyHandler.ts:188-196 | the client no longer scans |
| BleHub.BleProxyHandler.StartScan | matterjs-server-main/packages/ble-proxy/src/BleProxyHandler.ts:135-151 | every connected client scans |
| BleHub.BleProxyHandler.StopScan | matterjs-server-main/packages/ble-proxy/src/BleProxyHandler.ts:153-167 | no client scans |
| BleHub.BleProxyHandler.GetOwner | matterjs-server-main/packages/ble-proxy/src/BleProxyHandler.ts:129-133 | the owner given is connected and saw the address; none exactly if the address is unknown or its owner gone |
| BleHub.BleProxyHandler.OnDeviceDiscovered | matterjs-server-main/packages/ble-proxy/src/BleProxyHandler.ts:198-213 | adds the seer and takes over an address whose owner is gone |
| BleHub.BleProxyHandler.NextOwner | matterjs-server-main/packages/ble-proxy/src/BleProxyHandler.ts:222-228 | the first connected seer, if any |
| BleHub.BleProxyHandler.HandOn | matterjs-server-main/packages/ble-proxy/src/BleProxyHandler.ts:219-236 | one address loses the seer, and changes owner or goes if it was owned |
| BleHub.BleProxyHandler.OnConnectionClosed | matterjs-server-main/packages/ble-proxy/src/BleProxyHandler.ts:215-237 | every address of the client goes to the next connected seer or is dropped, all others only lose the seer |
| BleHub.BleProxyHandler.CloseConnection | matterjs-server-main/packages/ble-proxy/src/BleProxyConnection.ts:262-281 | closing reaches the hub the first time only |
| BleHub.BleProxyHandler.Unregister | matterjs-server-main/packages/ble-proxy/src/BleProxyHandler.ts:98-126 | closes every connection and forgets everything |
| BleConnection.StepKeeps | matterjs-server-main/packages/ble-proxy/src/BleProxyConnection.ts:124-281 | every event keeps the books; it keeps each answered command settled with its own answer, and each pending one under its id, if and only if it is no clash |
| BleConnection.ReplyKeeps | matterjs-server-main/packages/ble-proxy/src/BleProxyConnection.ts:229-242 | an answer settles no other command if and only if its own command still waits or nothing holds the id |
| BleConnection.SettledForGood | matterjs-server-main/packages/ble-proxy/src/BleProxyConnection.ts:124-153 | a settled command never settles again |
| BleConnection.CleanupKeeps | matterjs-server-main/packages/ble-proxy/src/BleProxyConnection.ts:269-281 | after cleanup nothing is pending or waiting and closed was emitted once |
| CommandFates.StepSettles | matterjs-server-main/packages/ble-proxy/src/BleProxyConnection.ts:124-281 | an event settles an open command if and only if it concerns it, and with the success, failure, timeout or disconnect it reports |
| CommandFates.EachFate | matterjs-server-main/packages/ble-proxy/src/BleProxyConnection.ts:124-281 | over all runs without a clash, each command has the outcome of the first event that concerned it after its sending, and is open if there was none |
| CommandFates.DroppedSendsNothing | matterjs-server-main/packages/ble-proxy/src/BleProxyConnection.ts:124-130 | once the socket has dropped no command is ever sent |
| CommandFates.NothingBeforeHello | matterjs-server-main/packages/ble-proxy/src/BleProxyConnection.ts:124-130 | without a hello no command is sent, before the handshake and after a cleanup |
| CommandFates.ClosedOnce | matterjs-server-main/packages/ble-proxy/src/BleProxyConnection.ts:269-281 | over all runs, closed is emitted by the first cleanup and by nothing else |
| BleConnection.CommandsOverRuns | matterjs-server-main/packages/ble-proxy/src/BleProxyConnection.ts:124-281 | over all runs without a clash, sent is settled plus pending, a command answered was answered by its own response, and cleanup settles the rest |
| BleConnection.RecentNeverClash | matterjs-server-main/packages/ble-proxy/src/BleProxyConnection.ts:132-147 | where the client answers each command at most once, no event clashes while no open, unsure or unanswered command is 65536 or more sends old |
| BleConnection.RecentRunsNeverClash | matterjs-server-main/packages/ble-proxy/src/BleProxyConnection.ts:132-147 | nor does any event of a run that stays so |
| BleConnection.FloodClashes | matterjs-server-main/packages/ble-proxy/src/BleProxyConnection.ts:132-147 | a run from the start in which the next command takes the id of a waiting one |
| BleConnection.LateAnswerMisleads | matterjs-server-main/packages/ble-proxy/src/BleProxyConnection.ts:229-242 | a run from the start in which the late answer to command 0 settles command 65536 |
| BleConnection.BleProxyConnection.SendCommand | matterjs-server-main/packages/ble-proxy/src/BleProxyConnection.ts:124-153 | refused unless connected; else pending under the next id |
| BleConnection.BleProxyConnection.HandleHello | matterjs-server-main/packages/ble-proxy/src/BleProxyConnection.ts:195-227 | an accepted hello completes the handshake |
| BleConnection.BleProxyConnection.OnSendDone | matterjs-server-main/packages/ble-proxy/src/BleProxyConnection.ts:143-148 | a failed send forgets the id and rejects the command |
| BleConnection.BleProxyConnection.OnTimeout | matterjs-server-main/packages/ble-proxy/src/BleProxyConnection.ts:150-152 | a timeout forgets the id and rejects the command |
| BleConnection.BleProxyConnection.HandleResponse | matterjs-server-main/packages/ble-proxy/src/BleProxyConnection.ts:229-242 | settles the command pending under the id, or ignores the answer |
| BleConnection.BleProxyConnection.RejectPending | matterjs-server-main/packages/ble-proxy/src/BleProxyConnection.ts:272-275 | the loop rejects and removes every pending command, in any order |
| BleConnection.BleProxyConnection.DoCleanup | matterjs-server-main/packages/ble-proxy/src/BleProxyConnection.ts:269-281 | not ready, nothing pending, closed emitted if it was not |
| BleChannel.SessionIsFed | matterjs-server-main/packages/ble-proxy/src/ProxyBleChannel.ts:211-273 | whenever the session is created, it is given exactly the notifications for its handle since observation began, in order, each once |
| BleChannel.FrameObserver.OnFrame | matterjs-server-main/packages/ble-proxy/src/ProxyBleChannel.ts:226-235 | a frame is forwarded, kept for later or ignored |
| BleChannel.FrameObserver.OnSessionCreated | matterjs-server-main/packages/ble-proxy/src/ProxyBleChannel.ts:268-273 | the kept frames are forwarded in order |
| BleChannel.MessagesDelivered | matterjs-server-main/packages/ble-proxy/src/ProxyBleChannel.ts:343-411 | delivered messages and the queue are the messages pushed before termination; a single consumer is answered call by call |
| ChannelAnswers.CallsGetMessages | matterjs-server-main/packages/ble-proxy/src/ProxyBleChannel.ts:370-402 | while the channel is connected, a single consumer's i-th call gets the i-th message, as soon as there are both |
| ChannelAnswers.NextIsAnswered | matterjs-server-main/packages/ble-proxy/src/ProxyBleChannel.ts:389-402 | what a call is answered: the oldest queued message, the end, or nothing yet |
| ChannelAnswers.WaiterIsAnswered | matterjs-server-main/packages/ble-proxy/src/ProxyBleChannel.ts:370-378 | a waiting call gets the next message, or the end when the channel closes |
| ChannelAnswers.EndsOnlyWhenOver | matterjs-server-main/packages/ble-proxy/src/ProxyBleChannel.ts:389-411 | the end is announced only with an empty queue on a channel that was disconnected or closed |
| ChannelAnswers.ConnectedUntil | matterjs-server-main/packages/ble-proxy/src/ProxyBleChannel.ts:366-411 | over all runs, connected means neither disconnected nor closed, and over means closed |
| BleChannel.StepKeeps | matterjs-server-main/packages/ble-proxy/src/ProxyBleChannel.ts:370-411 | a step keeps the answers in call order if and only if it is not a second waiting call |
| BleChannel.SecondCallForgets | matterjs-server-main/packages/ble-proxy/src/ProxyBleChannel.ts:389-402 | a second call while one waits leaves the first without an answer in every continuation if and only if the channel is connected |
| BleChannel.FirstCallForgotten | matterjs-server-main/packages/ble-proxy/src/ProxyBleChannel.ts:389-402 | two calls on a fresh channel: the first is never answered |
| BleChannel.ProxyBleChannel.PushMessage | matterjs-server-main/packages/ble-proxy/src/ProxyBleChannel.ts:370-378 | answers the waiting call, queues, or drops after termination |
| BleChannel.ProxyBleChannel.AskNext | matterjs-server-main/packages/ble-proxy/src/ProxyBleChannel.ts:389-402 | takes from the queue, ends, or waits |
| BleChannel.ProxyBleChannel.Disconnected | matterjs-server-main/packages/ble-proxy/src/ProxyBleChannel.ts:366-368 | the channel is no longer connected |
| BleChannel.ProxyBleChannel.CloseChannel | matterjs-server-main/packages/ble-proxy/src/ProxyBleChannel.ts:405-439 | ends the iteration and answers a waiting call |
| SnapshotStream.ClampIsGreatest | matterjs-server-main/packages/dashboard/src/components/webrtc-stream-view.ts:130-138 | the clamped resolution is the greatest within both |
| SnapshotStream.FindMatchingSnapshotStream | matterjs-server-main/packages/dashboard/src/components/webrtc-stream-view.ts:874-909 | the first listed stream with an id that covers the wanted parameters, None if there is none |
| SnapshotStream.StepKeeps | matterjs-server-main/packages/dashboard/src/components/webrtc-stream-view.ts:695-1003 | every event, with deallocations at any point, keeps each allocated stream given back once or held |
| SnapshotStream.GivenBackIsOwn | matterjs-server-main/packages/dashboard/src/components/webrtc-stream-view.ts:760-783 | only a stream of the viewer's own is ever deallocated, and it is let go by that |
| SnapshotStream.StreamsConserved | matterjs-server-main/packages/dashboard/src/components/webrtc-stream-view.ts:695-1003 | over all runs, allocated streams are those deallocated and at most one held |
| SnapshotOps.CapturesTheWanted | matterjs-server-main/packages/dashboard/src/components/webrtc-stream-view.ts:911-1003 | a capture starts only with a held stream for the very parameters it asked for |
| SnapshotOps.CaptureCompletes | matterjs-server-main/packages/dashboard/src/components/webrtc-stream-view.ts:695-1003 | a whole capture: a stream with the wanted parameters is kept, any other is let go, then a listed one is reused or the granted one is the viewer's own |
| SnapshotOps.CaptureFails | matterjs-server-main/packages/dashboard/src/components/webrtc-stream-view.ts:994-996 | where none is granted the operation ends without a stream, the old one let go |
| SnapshotOps.ReleaseCompletes | matterjs-server-main/packages/dashboard/src/components/webrtc-stream-view.ts:760-783 | a release ends with no stream, given back if it was the viewer's own |
| SnapshotOps.InRequestOrder | matterjs-server-main/packages/dashboard/src/components/webrtc-stream-view.ts:695-702 | over all runs, operations begin in the order of their requests, one at a time, and none is lost |
| SnapshotStream.UnserializedLeaks | matterjs-server-main/packages/dashboard/src/components/webrtc-stream-view.ts:689-694 | run without the serialized chain, two first captures from the initial state leak a stream, even once the viewer lets go |
| SnapshotStream.SnapshotHolder.DeallocateSnapshot | matterjs-server-main/packages/dashboard/src/components/webrtc-stream-view.ts:760-783 | lets go of the stream, deallocating it only if owned |
| SnapshotStream.SnapshotHolder.RunSerialized | matterjs-server-main/packages/dashboard/src/components/webrtc-stream-view.ts:695-702 | an operation waits its turn behind the others |
| SnapshotStream.SnapshotHolder.AcquireStream | matterjs-server-main/packages/dashboard/src/components/webrtc-stream-view.ts:955-984 | a listed stream is held as another's, or a new one is asked for |
| SnapshotStream.SnapshotHolder.BeginNext | matterjs-server-main/packages/dashboard/src/components/webrtc-stream-view.ts:911-974 | keeps a stream that fits, replaces one that does not, reuses a listed one or asks for a new one |
| SnapshotStream.SnapshotHolder.OnReplaced | matterjs-server-main/packages/dashboard/src/components/webrtc-stream-view.ts:952-974 | once the old stream is let go, another is acquired |
| SnapshotStream.SnapshotHolder.OnAllocateAnswered | matterjs-server-main/packages/dashboard/src/components/webrtc-stream-view.ts:985-1002 | the new stream is held as the viewer's own |
| SnapshotStream.SnapshotHolder.OnOpDone | matterjs-server-main/packages/dashboard/src/components/webrtc-stream-view.ts:708-725 | the operation ends and the next may begin |
| Calendar.OrdinalMonotone | LifeLens_WebApp,Server/server.py:264-269 | earlier dates have smaller ordinals |
| DayWindow.TextOrderIsTimeOrder | LifeLens_WebApp,Server/server.py:260-261 | timestamps compare as text as they do in time, although microseconds are printed only when there are any |
| DayTexts.StampText | LifeLens_WebApp,Server/server.py:260-261 | the text of an instant, character by character |
| DayWindow.BoundsAre | LifeLens_WebApp,Server/server.py:264-269 | a day's bounds are 15:00 UTC the day before and 15:00 UTC, and exist exactly between the first and the last day |
| DayTexts.BoundsText | LifeLens_WebApp,Server/server.py:264-269 | a day's bounds as text: T15:00:00+00:00 of the day before and of the day |
| DayWindow.WindowIsDay | LifeLens_WebApp,Server/server.py:264-287 | a day's window holds exactly the instants of that Korean day |
| DayWindow.WindowsPartition | LifeLens_WebApp,Server/server.py:264-287 | every instant is in its own day's window and in no other |
| DayWindow.WindowsMeet | LifeLens_WebApp,Server/server.py:264-269 | consecutive windows meet |
| LifelogStore.RecordsOfDay | LifeLens_WebApp,Server/server.py:272-287 | the query for a day selects exactly the device's rows whose instant lies on that Korean day |
| LifelogStore.RecordsInOrder | LifeLens_WebApp,Server/server.py:272-287 | and gives them in the order of their instants |
| LifelogStore.RowsAreStamped | LifeLens_WebApp,Server/server.py:552-564 | every row to store is the item's, stamped with the text of its instant |
| LifelogStore.InsertAllKeeps | LifeLens_WebApp,Server/server.py:560-563 | stored records stay as they are, keys stay unique, and every record sent is there |
| LifelogStore.InsertAllTwice | LifeLens_WebApp,Server/server.py:560-563 | sending the same records again changes nothing |
| LifelogSync.StoredAsSent | LifeLens_WebApp,Server/server.py:560-563 | a record with a new key is stored as it was sent, right behind what was stored before it |
| LifelogSync.NothingElseStored | LifeLens_WebApp,Server/server.py:560-563 | nothing is stored but what was there and what was sent under a key not taken |
| LifelogSync.SentIsSelected | LifeLens_WebApp,Server/server.py:272-287 | what a phone sends under a new key is selected for exactly the Korean day of its instant |
| LifelogSync.SelectedOnce | LifeLens_WebApp,Server/server.py:272-287 | a query gives each selected record as often as it is stored |
| LifelogStore.UpsertKeeps | LifeLens_WebApp,Server/server.py:535-538 | a photo replaces the one with its key and no other |
| LifelogStore.Store.SyncLifelog | LifeLens_WebApp,Server/server.py:552-564 | the loop inserts all records, or nothing if a timestamp has no UTC text |
| LifelogStore.Store.SyncPhoto | LifeLens_WebApp,Server/server.py:516-538 | stores or replaces one photo row |
| Subscriptions.KeyInjective | matterjs-server-main/python_client/matter_server/client/client.py:115-126 | different filters have different keys |
| Subscriptions.LookupIsScan | matterjs-server-main/python_client/matter_server/client/client.py:960-979 | the lookup calls what a scan of all registrations calls; twice for the wildcard as attribute path |
| Subscriptions.SignalledOnce | matterjs-server-main/python_client/matter_server/client/client.py:960-979 | each matching registration is called exactly once and no other, if and only if the path is not the wildcard's text or nothing matches |
| Subscriptions.CalledTwice | matterjs-server-main/python_client/matter_server/client/client.py:960-979 | one registration for everything is called twice for the wildcard as attribute path |
| Subscriptions.UnregisterRemoves | matterjs-server-main/python_client/matter_server/client/client.py:128-129 | unsubscribing takes the oldest equal callback of its key and leaves all other keys alone |
| Subscriptions.OldestRemoved | matterjs-server-main/python_client/matter_server/client/client.py:128-129 | of equal callbacks under a key the oldest goes and the others keep their order |
| Subscriptions.MatterClient.SubscribeEvents | matterjs-server-main/python_client/matter_server/client/client.py:95-131 | the lists stay the registrations sorted by key |
| Subscriptions.MatterClient.Unsubscribe | matterjs-server-main/python_client/matter_server/client/client.py:128-129 | undoes one registration, or raises if there is none left |
| Subscriptions.MatterClient.SignalEvent | matterjs-server-main/python_client/matter_server/client/client.py:960-979 | the nested loops call the callbacks of the keys looked up |
| Subscriptions.MatterClient.SignalNodes | matterjs-server-main/python_client/matter_server/client/client.py:971-979 | the middle loop, over node keys |
| Subscriptions.MatterClient.SignalPaths | matterjs-server-main/python_client/matter_server/client/client.py:974-979 | the inner loop, over attribute path keys |
| Tariff.DayEntriesInOrder | matterjs-server-main/packages/dashboard/src/util/commodity-tariff.ts:246-252 | a day's entries are described ones in time order |
| TariffRows.DayEntriesStable | matterjs-server-main/packages/dashboard/src/util/commodity-tariff.ts:246-252 | a day's described entries are all there in time order, those of one start in the order of the ids |
| TariffRows.DescribedAt | matterjs-server-main/packages/dashboard/src/util/commodity-tariff.ts:246-252 | each described id gives its entry, right behind those of the ids before it |
| TariffRows.PeriodsOfAre | matterjs-server-main/packages/dashboard/src/util/commodity-tariff.ts:255-257 | an entry's periods are those that list it, in their order |
| TariffRows.DaySpan | matterjs-server-main/packages/dashboard/src/util/commodity-tariff.ts:278-282 | a day spans 1440 minutes, or 1500 if its last entry starts in the 25th hour |
| TariffRows.TwoDays | matterjs-server-main/packages/dashboard/src/util/commodity-tariff.ts:295-314 | today's entries stand at their own starts, tomorrow's behind all of today's span |
| Tariff.KeyTellsPeriods | matterjs-server-main/packages/dashboard/src/util/commodity-tariff.ts:255-275 | equal period keys mean equal lists of periods |
| Tariff.TimelineInOrder | matterjs-server-main/packages/dashboard/src/util/commodity-tariff.ts:277-314 | with starts below 1500 the axis never runs backwards, over any number of days of 24 or 25 hours |
| Tariff.BuildTimeline | matterjs-server-main/packages/dashboard/src/util/commodity-tariff.ts:295-314 | the loop lays the days one after the other |
| Tariff.TimelineKeyed | matterjs-server-main/packages/dashboard/src/util/commodity-tariff.ts:295-314 | every slot of the axis carries the period key of its entry |
| Tariff.PushSlots | matterjs-server-main/packages/dashboard/src/util/commodity-tariff.ts:303-310 | one day's entries appended with their offset and period key |
| Tariff.FindSlot | matterjs-server-main/packages/dashboard/src/util/commodity-tariff.ts:316-318 | the first later slot of the entry, or -1 |
| Tariff.RangeEnd | matterjs-server-main/packages/dashboard/src/util/commodity-tariff.ts:325-335 | the first later slot that starts strictly later with other periods, None exactly if there is none; on an ordered timeline the earliest such start anywhere |
| Tariff.CurrentRange | matterjs-server-main/packages/dashboard/src/util/commodity-tariff.ts:384-409 | the slot of the current entry among today and tomorrow, and the earliest strictly later start with other periods, None exactly if there is none |
| Tariff.ScheduleInOrder | matterjs-server-main/packages/dashboard/src/util/commodity-tariff.ts:338-361 | rows are ordered and do not overlap, a row ends before it starts exactly if its duration is negative, rows without durations leave no gap |
| Tariff.ScheduleEnds | matterjs-server-main/packages/dashboard/src/util/commodity-tariff.ts:338-361 | the last row ends within the day |
| TariffRows.ScheduleRows | matterjs-server-main/packages/dashboard/src/util/commodity-tariff.ts:338-361 | a row for each entry in order, with its id and start, ending with its duration, but no later than the next entry starts or the day ends |
| StreamBudget.PlanIsOptimal | matterjs-server-main/packages/dashboard/src/util/camera-stream-budget.ts:47-58 | the plan is the greatest rate from 30 to 60 that leaves room for the snapshot; failing that the greatest from 1 to 60 that fits alone, or 1 |
| StreamBudget.PlanPassesReuseTest | matterjs-server-main/packages/dashboard/src/util/camera-stream-budget.ts:47-74 | the reuse test accepts the plan where a rate from 30 to 60 leaves room |
| StreamBudget.FasterIsRefused | matterjs-server-main/packages/dashboard/src/util/camera-stream-budget.ts:60-74 | below the cap, the reuse test accepts exactly the rates up to the plan |
| StreamBudget.NothingToShare | matterjs-server-main/packages/dashboard/src/util/camera-stream-budget.ts:47-74 | without a budget the plan is 60 and every stream passes; without a snapshot every stream passes |

## Left out

- TLV floats and text: payloads are opaque bytes; IEEE encoding and UTF-8 decoding are not modelled, and `putBytes` and `putString` differ by type only.
- The reader's private list of decodings, kept for printing, is not modelled.
- Conversions of foreign kinds in the descriptor layer (a text where a list is expected, `str()` of a number) are one failure case; which of several exceptions comes first is not modelled there.
- TlvWriter.TLVWriter.PutFloat: says that the payload is appended, not how a float is packed into it.
- Schema.PutSingleElement: says that an exception is raised, not which one.
- JSON.parse and JSON.stringify of the platform are modelled by the grammar of RFC 8259: a number is represented by its literal, and what the serializer rounds a big integer to is any function; an object lists its properties in the order of insertion, integer-like names included.
- JsonReader.ParseBigIntAwareJson: of texts that are no JSON, what is accepted is stated for tokens in any order and for integers with leading zeros, not for every string of characters.
- Values that JSON.stringify drops or converts (undefined, functions, dates).
- Acronym rewriting is over ASCII case mapping; names inherited by the override object are not modelled.
- Log rotation with failing I/O, which loses lines by design; a file is its lines under a path, and streams are drained before their file is renamed.
- Bluetooth, WebSockets, BTP sessions, timers and scan results: each completion is an event. The aggregated scan-stopped notification and close listeners are not modelled.
- BleHub.BleProxyHandler.OnHandshakeCompleted: leaves out the command sent to a client that joins a scan, and the notification that a connection is established.
- BleHub.BleProxyHandler.MarkNotScanning: leaves out the aggregated notification that scanning stopped.
- BleHub.BleProxyHandler.StartScan: leaves out the commands sent to the clients; their failure is a later event.
- BleHub.BleProxyHandler.StopScan: leaves out the commands sent to the clients.
- BleChannel.ProxyBleChannel.CloseChannel: leaves out the close listeners, the end of observing and the closing of the session.
- The camera's answers and attribute lists are inputs; a missing client object is not modelled.
- SQL is modelled as tables with text comparison; devices and summaries tables, photos' files and naive timestamps are left out.
- LifelogStore.Store.SyncLifelog: leaves out the devices row of the same transaction.
- LifelogStore.Store.SyncPhoto: leaves out the devices row, the photo's file and the checks of its size.
- Callbacks that subscribe or unsubscribe while being called.
- Tariff decoders, price and label resolution, formatting: they only select and convert.
- Tariff.BuildTimeline: says nothing about order where an entry starts at minute 1500 or later, or before 0.
- Rendering, media negotiation, code generators, command line, discovery helpers and the other easy members of the repository.
