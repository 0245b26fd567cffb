# MonaServer2, verified

A Dafny model of the self-contained byte and state machines of the MonaServer2
media server, and proofs of what they promise. `dafny verify dfyconfig.toml`
checks everything.

What is modelled, hardest first:

- **MPEG-TS** (`TsWriter`, `TsReader`, `TsPackets`, `TsReading`, `TsRoundTrip`,
  `TsSession`, `TsStamps`, `TsExactly`, `TsLoss`, `TsClock`, `TsCounters`, `TsLayout`,
  `TsTables`): the multiplexer and demultiplexer as objects, each
  method proved against a function on its state, and the end-to-end theorem that
  any interleaving of tracks survives multiplexing, any cutting of the byte stream,
  and demultiplexing. The tables are sealed with the modelled checksum. The one
  family of times at which it fails is found, with the exact condition; what missing
  packets do, which clock references a run carries, and how the tables of any other
  multiplexer are read.
- **CRC-32** (`Gf2`, `CrcTable`, `Crc32`): table-driven form against polynomial
  long division.
- **Calendar** (`Calendar`, `Doubles`, `DayFloor`, `Date`): the fixpoint search for the
  year, on both sides of 1970, for every 64-bit instant.
- **XML** (`Xml`, `XmlRuns`, `XmlParser`, `XmlSections`, `XmlTree`): the resumable
  parser; pausing anywhere changes nothing; rendered trees parse to their callbacks.
- **JSON** (`Json`, `JsonReader`, `JsonRoundTrip`, `JsonExactly`, `JsonAnyText`): writer,
  reader and element counter, on values and on any text.
- **FLV** (`FlvReader`, `FlvChunks`, `FlvWriter`, `FlvRoundTrip`, `FlvFormat`,
  `AudioConfig`, `VideoConfig`, `VideoRecords`, `Bitstream`): framing, codec
  configuration records, and the bit reader that skips emulation prevention bytes.
- **Queues and schedulers**: `Segments`, `SegmentRuns`, `Playlist`, `Medias`, `Timer`,
  `SendQueue`, `Buffer` with `Capacity`, `BufferPool`.
- **Smaller text and arithmetic**: `Varint`, `RequestPath`, `RequestSpelling`, `RtpH264`,
  `RtpPackets`.

`Bytes`, `Ascii` and `Options` hold what they share. An object of the source is a
class whose methods are proved against a function on its state; the theorems are
lemmas about that function.

Findings, each proved:

- `TSWriter` leaves a stamp out, but still announces it, when `(time + 200) * 90`
  is 0 modulo 2^32; the frame is then damaged, and no run that sends one comes through whole
  (`TsExactly.RunLosslessExactly`).
- `Date::update` floors a quotient of doubles, which from 2^53 milliseconds on can come
  out at the next midnight (`DayFloor.DayOfIs`), and `Date::time` multiplies days on 32
  bits (`Dates.UpdateAndBack`).
- `JSONReader` takes an object whose first property is named `__type` or `__bin` for
  something else (`JsonExactly.ReadsExactly`), and tells an object of raw bytes that is
  followed by anything as one value too many (`JsonAnyText.BytesMiscounted`).
- `JSONWriter` writes a byte above 0x7F as a character 0x700 higher, and control
  characters without a letter as they are (`Json.EscapeMeans`).
- `XMLParser` drops closing brackets from character data, and does not see its end behind
  one (`XmlSections.CDataExactly`, `XmlSections.CDataReads`).
- `TSReader` notices no loss of a multiple of 16 packets (`TsLoss.GapNoticedExactly`).
- `MPEG4::ReadAudioConfig` takes three bits of a four-bit rate index, so that rates from
  16000 down come out as others, and rates above 96000 are written as 7350
  (`AudioConfig.ConfigReadsExactly`, `AudioConfig.IndexIs`).
- `FLVReader` gives MP3 at 8000 Hz the rate 5512, and after an audio end any sound the
  one before (`FlvRoundTrip.SoundExactly`, `FlvRoundTrip.SoundFrozen`).
- `FLVReader` cannot resume inside a tag of type 0, which `FLVWriter` writes for
  metadata (`FlvChunks.InsensitiveExactly`, `FlvRoundTrip.MetadataNotClean`).
- `FLVWriter` announces one byte too many for a raw video frame of no kind, and wraps the
  size at 2^24 (`FlvWriter.DeclaredExactly`), and `FLVReader` marks audio that is not AAC as
  configuration after an audio end (`FlvRoundTrip.AudioConfigExactly`).
- `Segments::Clear` keeps too little when its duration limit wraps
  (`Playlists.KeepsEnoughExactly`), and the key count of `Segments::Writer` wraps
  at 256 (`Segments.CutAtKey`, `Segments.WrapCuts`).
- `Socket::flush` miscounts from 2^32 bytes on (`SendQueue.Socket.Flush`).
- `String::FromURI` returns a place behind the query mark after a percent sign that
  begins no code (`RequestPath.QueryMarkExactly`).
- `RTP_H264` gathers units without their types (`RtpPackets.GatheredHeader`).
- `BinaryWriter::write7Bit` counts bits on 8 bits, which wrap from 38 bytes on
  (`Varint.VarintExactly`, `Varint.Wraps75`).

## Model

| member | source | states |
|---|---|---|
| CrcTable.EntryDivides | MonaBase/sources/Crypto.cpp:112-160 | each of the 256 table words is its index divided bit by bit by 0x04C11DB7 |
| Crc32.ComputeCRC32 | MonaBase/sources/Crypto.cpp:161-167 | the loop, with its two rotation options, returns the specification function `Compute` |
| Crc32.CrcIsLongDivision | MonaBase/sources/Crypto.cpp:112-167 | for every byte string the table-driven result is the remainder of polynomial long division of the message, complemented at its front, by the generator |
| Crc32.SealedResidue | MonaBase/sources/Crypto.cpp:112-167 | a message followed by four bytes has remainder 0 if and only if those bytes are its checksum in big-endian order |
| Crc32.RotatedIsReflected | MonaBase/sources/Crypto.cpp:37-60 | rotating input and output gives the checksum computed lowest bit first with the reflected polynomial |
| TsWriter.TSWriter.BeginMedia | MonaCore/sources/TSWriter.cpp:94-103 | a new program: clock not started, tables due, nothing half written; counters and table version survive |
| TsWriter.TSWriter.WritePmt | MonaCore/sources/TSWriter.cpp:131-217 | both tables, one packet each; the version moves only after a change; afterwards no table is due |
| TsWriter.TSWriter.WriteProgramMap | MonaCore/sources/TSWriter.cpp:152-214 | the map lists videos then audios in track order, names the first as clock, and is sealed with its checksum |
| TsWriter.TSWriter.EnsureVideo | MonaCore/sources/TSWriter.cpp:271-293 | a new track only for H264 or HEVC and below 33 tracks; a change asks for tables |
| TsWriter.TSWriter.EnsureAudio | MonaCore/sources/TSWriter.cpp:219-249 | the same for audio, which may turn from AAC to another codec and back |
| TsWriter.TSWriter.WriteEs | MonaCore/sources/TSWriter.cpp:311-332 | the loop over one payload produces the state and bytes of the specification function `Es` |
| TsWriter.TSWriter.ContinuePes | MonaCore/sources/TSWriter.cpp:334-344 | a packet without PES header: 184 bytes of room, or stuffing to exactly the rest |
| TsWriter.TSWriter.StartPes | MonaCore/sources/TSWriter.cpp:346-422 | tables if due, stuffing or room for the clock, an urgent clock packet, then header and stamps |
| TsWriter.TSWriter.WritePrelude | MonaCore/sources/TSWriter.cpp:346-388 | which tables and clock packets come first, and how many adaptation bytes the first packet gets |
| TsWriter.TSWriter.WriteAdaptiveHeader | MonaCore/sources/TSWriter.cpp:424-439 | the adaptation field is exactly as long as asked, with the clock only where it fits and moves on |
| TsPackets.StampedExactly | MonaCore/sources/TSWriter.cpp:350-369 | the 32-bit stamp product is 0, and so left out, exactly when time + 200 is a multiple of 2^31 |
| TsPackets.FirstFits | MonaCore/sources/TSWriter.cpp:346-422 | with a stamp, the first packet never has more room than the stream has bytes |
| TsPackets.UnstampedOverruns | MonaCore/sources/TSWriter.cpp:350-421 | without one, a short stream leaves its packet five bytes short: a concrete failing family |
| TsPackets.EsBalanced | MonaCore/sources/TSWriter.cpp:311-332 | `_canWrite <= _toWrite` after every call, and the stream count drops by exactly the payload |
| TsPackets.EsSplit | MonaCore/sources/TSWriter.cpp:311-332 | two calls write what one call with both payloads writes, wherever the cut falls |
| TsPackets.PacketisationExact | MonaCore/sources/TSWriter.cpp:311-422 | any cutting of a stream into calls gives the same whole 188-byte packets, each beginning 0x47, and both counts end at 0 |
| TsReader.TSReader.Receive | MonaCore/sources/TSReader.cpp:43-161 | a chunk, with the kept bytes in front, steps the reader as the function `Feed` |
| TsReader.TSReader.Parse | MonaCore/sources/TSReader.cpp:43-161 | finds exactly the packets of `Split`, in order, and returns exactly the bytes to see again |
| TsReader.TSReader.ParsePacket | MonaCore/sources/TSReader.cpp:71-128 | one packet: adaptation skipped, tables or payload dispatched by pid |
| TsReader.TSReader.ParsePayload | MonaCore/sources/TSReader.cpp:130-156 | the loss rule: a counter jump is reported unless it is the first packet, and the program then waits for a header |
| TsReader.TSReader.ParseAssociation | MonaCore/sources/TSReader.cpp:163-200 | a table with a new checksum replaces the old one; a replaced one resets the source |
| TsReader.TSReader.ParseSection | MonaCore/sources/TSReader.cpp:202-290 | only map tables, only a new version, within their declared length |
| TsReader.TSReader.ParseStreams | MonaCore/sources/TSReader.cpp:219-290 | every listed stream gets the reader of its type; a reader replaced is flushed |
| TsReader.SkipAdaptationSkips | MonaCore/sources/TSReader.cpp:89-107 | however it is walked through, the field skipped is its length byte and that many more |
| TsReader.SplitAnywhere | MonaCore/sources/TSReader.cpp:43-161 | for any bytes at all and any cut, resuming with the kept bytes finds the same packets |
| TsReading.HeadReads | MonaCore/sources/TSReader.cpp:73-107 | the reader takes back pid, start flag, adaptation flag and counter of every packet head |
| TsReading.FieldSkipped | MonaCore/sources/TSWriter.cpp:424-439 | whatever the writer put into an adaptation field, the reader lands right behind it |
| TsReading.PesReads | MonaCore/sources/TSReader.cpp:331-388 | both 33-bit stamps come back whole and the payload begins right behind the header |
| TsReading.PatReads | MonaCore/sources/TSWriter.cpp:142-149 | the association packet is read as one program map at pid 32 with its checksum |
| TsReading.PmtReads | MonaCore/sources/TSWriter.cpp:152-214 | the map packet is read as its version and its list of streams |
| TsReading.EntriesRead | MonaCore/sources/TSReader.cpp:219-290 | every stream of the map gets the reader of its type, and no other program changes |
| TsRoundTrip.PatChecksum | MonaBase/sources/Crypto.cpp:112-167 | the association table sealed by the writer has checksum 0xA2C32941, which the reader does not take for "none" |
| TsRoundTrip.TablesRead | MonaCore/sources/TSReader.cpp:163-290 | whatever version the reader has, the tables bring it to the writer's, quietly |
| TsRoundTrip.ClockRead | MonaCore/sources/TSWriter.cpp:376-386 | an injected clock packet hands over no byte and keeps the counters in step |
| TsRoundTrip.FrameRead | MonaCore/sources/TSWriter.cpp:311-439 | every packet of a stream, tables and clock packets in between, delivers its bytes to its own pid, its stamps once, and leaves writer and reader in step |
| TsSession.Write | MonaCore/sources/TSWriter.cpp:219-309 | one writeAudio or writeVideo call on the object equals the function `WriteFrame` |
| TsSession.FrameIsPackets | MonaCore/sources/TSWriter.cpp:219-332 | between frames the writer is idle and each frame is whole packets |
| TsSession.RegisterSynced | MonaCore/sources/TSWriter.cpp:223-293 | adding or changing a track never puts the reader out of step |
| TsSession.SplitFlat | MonaCore/sources/TSReader.cpp:43-161 | the reader finds each of the writer's packets where it is |
| TsSession.FeedAllSplit | MonaCore/sources/TSReader.cpp:43-161 | chunks of any sizes read as the whole does |
| TsSession.MuxDemuxLossless | MonaCore/sources/TSWriter.cpp:219-439 | any tracks and frames, from any counters and version left over, in any chunks: each pid gets the bytes written to it in order, each stamp comes back, and no loss is reported |
| TsStamps.UnstampedLoses | MonaCore/sources/TSWriter.cpp:416-419 | a frame whose stamp is left out reaches the reader shorter than it was |
| TsStamps.LosslessExactly | MonaCore/sources/TSWriter.cpp:346-422 | a program's first frame comes through whole if and only if time + 200 is no multiple of 2^31 |
| TsExactly.EsCallsAny | MonaCore/sources/TSWriter.cpp:311-332 | any pieces within the size of a stream, whatever its stamp, write what one piece does |
| TsExactly.RunAny | MonaCore/sources/TSWriter.cpp:219-332 | the bytes of a run of any frames are whole packets, but for a last one left unfinished where a stamp was left out; the next frame stuffs it |
| TsExactly.UnstampedFrameRead | MonaCore/sources/TSReader.cpp:331-388 | of a stream without its stamp the reader takes the missing stamp from the five bytes behind the header, hands on the others, filling bytes included, and stays in step |
| TsExactly.RunLosslessExactly | MonaCore/sources/TSWriter.cpp:219-439 | any run of frames, in any chunks, delivers every byte and every stamp, and reports no loss, if and only if (time + 200) mod 2^31 is not 0 for every frame of it that is sent |
| TsLoss.GapNoticedExactly | MonaCore/sources/TSReader.cpp:130-156 | for any packet of a program that waits for nothing and any number k of its packets missing: unless 16 divides k its track reader is flushed, 184 bytes are told for each packet of k mod 16, and nothing is handed on but what follows a PES header found in it; at multiples of 16 nothing is noticed |
| TsLoss.NothingBeforeHeader | MonaCore/sources/TSReader.cpp:71-156 | over any packets at all, tables included, a pid that waits hands nothing on before a PES header of its own is found |
| TsLoss.AnyGapExactly | MonaCore/sources/TSReader.cpp:131-158 | a packet of a known program in any state, with payload or without, when k packets are missing before it: what is flushed, told lost, handed on and awaited |
| TsLoss.GapInFrame | MonaCore/sources/TSReader.cpp:130-156 | a frame of the writer from which any packets behind its first are missing, but not its last: what comes in front is handed on, the loss is told, which below 16 packets is exactly the bytes missing, and nothing more of the frame comes; writer and reader are then in step |
| TsLoss.LossInRun | MonaCore/sources/TSReader.cpp:43-156 | a whole run read with packets of one frame missing, in any chunks: every other frame before and after comes whole, that one up to the gap, every stamp comes, and the loss is told once, or not at all at multiples of 16 packets |
| TsClock.FieldClock | MonaCore/sources/TSWriter.cpp:424-439 | an adaptation field says the clock exactly if it has eight bytes, on the clock's pid, at a later time than the last said, and it then says time * 90 on 32 bits, as a decoder of the standard takes it |
| TsClock.StreamClock | MonaCore/sources/TSWriter.cpp:311-439 | of the packets of any stream at most one says the clock, and one does exactly under a condition on the times, the stream's size and whether it is the clock's pid |
| TsClock.RunClocks | MonaCore/sources/TSWriter.cpp:219-439 | the clock references among all packets of any run are exactly those its frames say, each with the time of its frame, strictly later one after the other |
| TsCounters.RunCounts | MonaCore/sources/TSWriter.cpp:219-439 | among all packets of any run, those of each pid, tables and lone clock packets included, are numbered without a gap from the writer's counter on |
| TsCounters.CountsFromZero | MonaCore/sources/TSWriter.cpp:334-422 | on a new writer the packets of each pid carry the numbers 0, 1, 2 and so on, modulo 16 |
| TsLayout.PatIsStandard | MonaCore/sources/TSWriter.cpp:142-149 | the association packet is the one of any multiplexer that names one program, 1, with its map at pid 32 |
| TsLayout.PmtIsStandard | MonaCore/sources/TSWriter.cpp:152-214 | the map packet is the one of any multiplexer with this version, the first track's pid for the clock, no descriptors, and a stream for each track |
| TsLayout.PesLayout | MonaCore/sources/TSWriter.cpp:395-421 | start code, stream id, length, flags and stamps stand where the standard puts them; a length that does not fit is 0 |
| TsLayout.RunVersions | MonaCore/sources/TSWriter.cpp:131-388 | over any run the tables sent are exactly those due: with the next version in front of the first stream after any change, and else a second after the last |
| TsLayout.TakenExactly | MonaCore/sources/TSWriter.cpp:219-293 | a frame is taken exactly if its pid is known already, or its codec is one of those sent and fewer than 33 tracks are known |
| TsTables.AnyHeadReads | MonaCore/sources/TSReader.cpp:66-107 | whatever its other bits, any packet of any multiplexer goes by its pid, flags and counter, and its adaptation field is passed over whole |
| TsTables.AnyPatReads | MonaCore/sources/TSReader.cpp:163-200 | any association table, of up to 253 programs, behind any pointer field: every map it names is awaited |
| TsTables.StreamChanges | MonaCore/sources/TSReader.cpp:183-200 | another checksum than the one known flushes every reader once, in increasing pid, resets the source and forgets the programs; the first table, or the same, does nothing of it |
| TsTables.AnyPmtReads | MonaCore/sources/TSReader.cpp:202-329 | any program map, with any descriptors: a version known does nothing, a new one gives every stream the reader of its type and flushes exactly those replaced |
| TsTables.HeaderFoundExactly | MonaCore/sources/TSReader.cpp:331-340 | a PES header is taken for one by its third and fourth byte alone: 1 and at least 0xC0 |
| TsTables.HeaderEndsExactly | MonaCore/sources/TSReader.cpp:340-388 | behind a PES header of any fields the payload begins where its length says, if and only if that length has room for the stamps its flags announce |
| Calendar.ClosedForm | MonaBase/sources/Date.cpp:70-78 | `LeapYears` with its truncating divisions and its correction for years up to 0 gives the first day of every year of the Gregorian calendar |
| Calendar.StepUp | MonaBase/sources/Date.cpp:114-121 | from 1970 on an iteration of the year search goes up, never past the year sought, and stays only there |
| Calendar.StepDown | MonaBase/sources/Date.cpp:114-121 | before 1970 it goes down, keeps the year late enough, and can stay only where the correction that follows is right |
| Calendar.CivilUnique | MonaBase/sources/Date.cpp:99-156 | no two valid dates with clock name the same instant |
| DayFloor.NeverLate | MonaBase/sources/Date.cpp:101 | up to 2^53 milliseconds from 1970, on either side, the floored quotient of doubles is never late |
| DayFloor.DayOfIs | MonaBase/sources/Date.cpp:101 | for every 64-bit time, the quotient of two numbers rounded to 53 bits, floored, is the day, or one more exactly when what is left of the day is less than half the spacing of doubles there, or half of it and midnight the even one |
| DayFloor.LateDays | MonaBase/sources/Date.cpp:101 | a time on either side of 1970 where it is one more |
| Dates.FindYear | MonaBase/sources/Date.cpp:110-122 | the year loop terminates at the year of the day, from 1970 on |
| Dates.FindYearBack | MonaBase/sources/Date.cpp:110-133 | the same before 1970, at a year that begins at most one day after |
| Dates.Date.Update | MonaBase/sources/Date.cpp:80-156 | for every 64-bit instant, on both sides of 1970 and of year 1, the one valid year, month, day and clock of it, and the weekday; but of the instant a day later exactly when the floored quotient is late (`DayFloor.Late`) |
| Dates.Date.SetMonthAndDay | MonaBase/sources/Date.cpp:135-143 | the month loop gives a valid day of that day of the year |
| Dates.WeekDayIsEuclidean | MonaBase/sources/Date.cpp:432-440 | the two-branch remainder is (days + 4) mod 7 with a remainder never negative |
| Dates.Date.Time | MonaBase/sources/Date.cpp:160-188 | after a change, the instant of the date if and only if the year lies within 5883516 of 1970, and else off by what the 32-bit day product loses |
| Dates.UpdateAndBack | MonaBase/sources/Date.cpp:80-188 | update, a change and time give the instant back if and only if it is not late and its year near enough |
| Dates.TimeAndBack | MonaBase/sources/Date.cpp:80-188 | time of a changed valid date and update to it give the date back under the same condition, and only then |
| Xml.ScanName | MonaBase/sources/XMLParser.cpp:422-437 | a name stops where no name character follows and must meet an end marker or a blank |
| Xml.ReadInner | MonaBase/sources/XMLParser.cpp:90-120 | text up to the next markup that is no character data, its blank end removed |
| Xml.Next | MonaBase/sources/XMLParser.cpp:87-419 | the next callback from between two markups, with progress: the state it leaves is strictly nearer the end |
| Xml.Step | MonaBase/sources/XMLParser.cpp:65-85 | the same from any state a parser can be left in, a full element closed first |
| XmlRuns.CallIsPrefix | MonaBase/sources/XMLParser.cpp:65-405 | what one call emits, followed by what is left for later, is the uninterrupted parse |
| XmlRuns.PauseTransparent | MonaBase/sources/XMLParser.cpp:48-85 | whichever callbacks ask to stop, repeated calls make the same callbacks in the same order and end the same way as one that never pauses |
| XmlRuns.CallBracketed | MonaBase/sources/XMLParser.cpp:131-167 | wherever a call stops, is done or fails, the elements begun and not ended by then are exactly the tag stack it leaves, whichever callback was asked to pause |
| XmlRuns.TraceBracketed | MonaBase/sources/XMLParser.cpp:131-167 | no callback of a whole parse ends or names a wrong element; a finished parse has ended every element it began |
| XmlRuns.StartsOnce | MonaBase/sources/XMLParser.cpp:93-101 | the document starts once, before anything else |
| XmlSections.CDataReads | MonaBase/sources/XMLParser.cpp:178-205 | character data keeps every character but the brackets passed over: one in front of any other character, two in front of any but the closing one |
| XmlSections.CDataOnly | MonaBase/sources/XMLParser.cpp:178-205 | and whatever character data ends at all is of that form |
| XmlSections.CDataExactly | MonaBase/sources/XMLParser.cpp:178-205 | a text in character data comes back as it is if and only if it holds no closing bracket |
| XmlSections.CommentReads | MonaBase/sources/XMLParser.cpp:206-227 | a comment ends at the first "-->" that is not passed over in the same way, so one dash more in front of it hides it |
| XmlSections.CommentOnly | MonaBase/sources/XMLParser.cpp:206-227 | and whatever comment ends at all is of that form |
| XmlTree.NameReadsExactly | MonaBase/sources/XMLParser.cpp:422-437 | a name is taken if and only if a marker, a blank or a null character stands behind it |
| XmlTree.RenderedTreeParses | MonaBase/sources/XMLParser.cpp:65-437 | a document that is the text of any element trees, with any blanks, either quote, escaped quotes, comments, processing instructions and character data inside or between plain text, parses to exactly their callbacks: names, attributes, text with the blanks at its end removed and its character data decoded |
| XmlParser.XMLParser.ParseXMLName | MonaBase/sources/XMLParser.cpp:422-437 | the cursor loop computes `ScanName` |
| XmlParser.XMLParser.ParseAttributes | MonaBase/sources/XMLParser.cpp:251-350 | the attribute loop computes `ScanAttributes` |
| XmlParser.XMLParser.SkipComment | MonaBase/sources/XMLParser.cpp:206-227 | the comment loop, which never looks back, computes `CommentEnd` |
| XmlParser.XMLParser.ReadCData | MonaBase/sources/XMLParser.cpp:177-204 | the character data loop computes `CData`, dropping brackets that begin no end |
| XmlParser.XMLParser.ParseEnd | MonaBase/sources/XMLParser.cpp:131-167 | an end element must repeat the open element's name |
| XmlParser.XMLParser.ParseStart | MonaBase/sources/XMLParser.cpp:233-376 | a start element or processing instruction with its attributes |
| XmlParser.XMLParser.ParseBang | MonaBase/sources/XMLParser.cpp:169-231 | comment or character data, inside a text or not |
| XmlParser.XMLParser.Run | MonaBase/sources/XMLParser.cpp:65-419 | the whole loop with its local state, left at any callback, equals the function `Call` on the saved state alone |
| XmlParser.XMLParser.Parse | MonaBase/sources/XMLParser.cpp:48-63 | an earlier error is returned again without a callback; the end is told unless the parse is paused |
| Json.JSONWriter.StartValue | MonaCore/sources/JSONWriter.cpp:153-167 | the closing bracket makes way at top level; a comma unless it is the first |
| Json.JSONWriter.EndValue | MonaCore/sources/JSONWriter.cpp:169-184 | the level closes, and at top level the bracket comes back |
| Json.JSONWriter.WriteEscaped | MonaCore/sources/JSONWriter.cpp:86-126 | copying runs and replacing single characters gives the escaped text |
| Json.EscapeMeans | MonaCore/sources/JSONWriter.cpp:86-126 | read by the table of RFC 8259 and by UTF-8, what is written of any text is that text, but for bytes above 0x7F, each of which comes out 0x700 too high; and it is readable if and only if no control character without a letter is in it |
| Json.EscapeKeepsExactly | MonaCore/sources/JSONWriter.cpp:86-126 | a text of bytes comes back if and only if it holds only bytes below 0x80 and only controls with a letter |
| Json.JSONWriter.Write | MonaCore/sources/JSONWriter.cpp:46-151 | every call of the interface steps the writer as `Apply` |
| Json.WritesValue | MonaCore/sources/JSONWriter.cpp:46-184 | whatever the nesting and the level, the calls of a value write its compact text, with commas and brackets exactly where they belong |
| Json.WritesAll | MonaCore/sources/JSONWriter.cpp:30-184 | any values on a fresh writer give one array of them all |
| JsonReader.JSONReader.JumpToString | MonaCore/sources/JSONReader.cpp:302-323 | finds the closing quote, a backslash covering the next character |
| JsonReader.JSONReader.FollowingType | MonaCore/sources/JSONReader.cpp:65-141 | the next value's type and extent; one comma is passed over, two are an end |
| JsonReader.JSONReader.CountArrayElement | MonaCore/sources/JSONReader.cpp:344-401 | the look-ahead loop computes `CountElements` |
| JsonReader.JSONReader.Next | MonaCore/sources/JSONReader.cpp:144-300 | reads one value and makes the calls of the function `ReadNext`, on any text |
| JsonReader.JSONReader.Fields | MonaCore/sources/JSONReader.cpp:194-300 | the property loop, with object types, raw bytes and malformed endings, equals `ReadFields` |
| JsonRoundTrip.CountsValue | MonaCore/sources/JSONReader.cpp:344-401 | whatever a value holds, the counter sees one thing |
| JsonRoundTrip.CountIsExact | MonaCore/sources/JSONReader.cpp:344-401 | the counter returns the true number of elements of every printed array |
| JsonRoundTrip.ReadsValue | MonaCore/sources/JSONReader.cpp:65-300 | the printed text of a value without a misnamed object is replayed as the same calls, strings escaped, and what follows it stays |
| JsonExactly.ReadsExactly | MonaCore/sources/JSONReader.cpp:236-284 | a value whose numbers, dates and texts are taken for what they are is read back as written if and only if no object without type in it, however deep, has a first property named `__type` or `__bin`, in any case of letters, with a quoted value |
| JsonExactly.RoundTripExactly | MonaCore/sources/JSONReader.cpp:29-300 | print then parse is the identity up to escaping for a sequence of values under the same condition, and only then |
| JsonExactly.TypeKeyMisread | MonaCore/sources/JSONReader.cpp:242-252 | one such object: a first property `__type` with a text is read back as the type of the object |
| JsonExactly.ContentExactly | MonaCore/sources/JSONReader.cpp:29-63 | a text between blanks is taken if and only if it stands in brackets or in braces |
| JsonExactly.ObjectAlone | MonaCore/sources/JSONReader.cpp:29-63 | an object that stands alone, behind blanks, is read as written |
| JsonExactly.BlanksPassedOver | MonaCore/sources/JSONReader.cpp:65-142 | blanks in front of a value, a member, an element or an end make no difference to what is read or counted |
| JsonExactly.BlanksAroundColon | MonaCore/sources/JSONReader.cpp:222-236 | nor do blanks around the colon of a member |
| JsonAnyText.AnyTextTold | MonaCore/sources/JSONReader.cpp:65-401 | on any text, well formed or not, the calls are whole values with every bracket closed in order; where no raw bytes are told every array has exactly as many items as announced and every member one value |
| JsonAnyText.BytesMiscounted | MonaCore/sources/JSONReader.cpp:252-264 | a text of an array announced with one item that tells two: an object of raw bytes with anything behind them is refused after it was told |
| JsonAnyText.ArrayLost | MonaCore/sources/JSONReader.cpp:344-401 | values followed by another bracket than their own, or by two commas, are given up, with as many elements as went before |
| JsonAnyText.LostIsNulls | MonaCore/sources/JSONReader.cpp:169-188 | an array given up is told as nulls, one for each element counted, and nothing behind it is read |
| FlvReader.FLVReader.ParseBuffer | MonaCore/sources/FLVReader.cpp:74-169 | signature search three bytes at a time, then tags: the function `Parse` |
| FlvReader.FLVReader.ReadTag | MonaCore/sources/FLVReader.cpp:101-166 | one turn of the tag loop, or a wait for more bytes |
| FlvChunks.ChunksDoNotMatter | MonaCore/sources/FLVReader.cpp:74-169 | a stream without tags of type 0 gives the same media and the same final state in any chunks |
| FlvChunks.CutThatBreaks | MonaCore/sources/FLVReader.cpp:103-116 | where a tag of type 0 begins, a cut right behind its type byte changes the outcome |
| FlvChunks.InsensitiveExactly | MonaCore/sources/FLVReader.cpp:101-169 | cutting a stream, or any beginning of it, never matters if and only if no tag of type 0 is begun with anything behind its type byte |
| FlvWriter.DeclaredExactly | MonaCore/sources/FLVWriter.cpp:72-145 | the size read in the 24-bit field is that of what follows if and only if that is below 2^24 and the tag no raw video frame of no kind |
| FlvWriter.Write | MonaCore/sources/FLVWriter.cpp:72-146 | everything handed on for one call, in order: header, codec bytes, content or record, footer |
| FlvRoundTrip.TagInStream | MonaCore/sources/FLVReader.cpp:101-166 | a written tag, wherever it stands, is read as its media and leaves the reader between tags |
| FlvRoundTrip.JunkSkipped | MonaCore/sources/FLVReader.cpp:78-90 | bytes in front of the signature are passed over three at a time |
| FlvRoundTrip.AnyHeaderRead | MonaCore/sources/FLVReader.cpp:78-100 | any file header is passed over as long as it says it is, with the size 0 behind it |
| FlvRoundTrip.FlvRoundTrip | MonaCore/sources/FLVWriter.cpp:65-146 | the stream of any frames whose announced size is right and whose parameter sets fit their records, metadata aside, gives in any chunks the time, track, codec, kind and payload of each in order |
| FlvRoundTrip.AudioConfigExactly | MonaCore/sources/FLVReader.cpp:30-55 | in any stream and any chunks, the media of an audio frame has the configuration mark of the frame if and only if it is AAC or that mark is the one of the last AAC frame or audio end written before |
| FlvRoundTrip.SoundExactly | MonaCore/sources/FLVReader.cpp:30-55 | with no AAC configuration and no audio end before, rate and channels of a sound come out as they went in if and only if its codec byte can say them: one of four rates, one or two channels as the codec allows, and of AAC 44100 Hz stereo alone |
| FlvRoundTrip.SoundFrozen | MonaCore/sources/FLVReader.cpp:30-55 | behind an audio end every sound comes out with the rate and channels of the one before it, up to the next AAC configuration or audio end |
| FlvFormat.SoundLayout | MonaCore/sources/FLVWriter.cpp:29-64 | the codec byte of a sound, field by field, and what stands behind it |
| FlvFormat.VideoLayout | MonaCore/sources/FLVWriter.cpp:72-133 | the codec bytes of a picture, field by field, and what stands behind them |
| FlvFormat.HeaderLayout | MonaCore/sources/FLVWriter.cpp:115-125 | the ten bytes behind a tag's type: its size, its time with the highest byte last, its track; data has the time 0 and metadata the track 0 |
| FlvFormat.TagsFoundBack | MonaCore/sources/FLVWriter.cpp:142-145 | from the end of any file the sizes behind the tags lead back through every tag to its start |
| AudioConfig.IndexIs | MonaCore/sources/MPEG4.cpp:72-100 | a rate gets the index of the least one in the table that is no smaller, and one beyond the table that of 7350 |
| AudioConfig.ConfigReadsExactly | MonaCore/sources/MPEG4.cpp:33-70 | a written AAC configuration is read with its rate if and only if that is one of the eight greatest of the table, from 22050 up; its channels always come back |
| FlvRoundTrip.MetadataNotClean | MonaCore/include/Mona/FLVWriter.h:38 | the metadata tag that writeProperties emits is such a tag of type 0 |
| VideoConfig.ParseVideoConfig | MonaCore/sources/AVC.cpp:54-74 | the last unit of each parameter set kind, and whether the mandatory ones are there |
| VideoConfig.ReadAvcConfig | MonaCore/sources/AVC.cpp:77-101 | the loop over both counted lists of an avcC record |
| VideoConfig.ReadHevcConfig | MonaCore/sources/HEVC.cpp:148-184 | the loop over the arrays of an hvcC record, ended by the picture sets or a foreign type |
| VideoConfig.AvcReadsExactly | MonaCore/sources/AVC.cpp:77-119 | SPS and PPS come out of the record as they went in if and only if both are shorter than 65536 |
| VideoConfig.HevcReadsExactly | MonaCore/sources/HEVC.cpp:148-200 | VPS, SPS and PPS come out of the record as they went in if and only if each is shorter than 65536 |
| VideoConfig.ConfigSurvives | MonaCore/sources/AVC.cpp:54-119 | for any packet whose sets are each shorter than 65536 bytes, its parameter sets survive into the record and out of it, and the packet read back holds the same sets |
| VideoRecords.CollectsLast | MonaCore/sources/AVC.cpp:54-74 | of a packet of any units, empty ones among them, the last of each kind of parameter set is taken, kinds being the bits the standards have them in |
| VideoRecords.AvcRecordHead | MonaCore/sources/AVC.cpp:103-119 | an avcC record byte by byte: version, profile, compatibility and level of the set, sizes, one set of each kind |
| VideoRecords.HevcRecordHead | MonaCore/sources/HEVC.cpp:186-200 | an hvcC record: version, unit sizes of four bytes, three arrays of one set each |
| VideoRecords.AvcRecordReads | MonaCore/sources/AVC.cpp:77-101 | any avcC record with one to 31 sequence sets and any picture sets gives them all in order, and nothing of what stands behind |
| Bitstream.BitstreamReader.ReadBit | MonaCore/sources/HEVC.cpp:25-38 | each bit is the next of the content without prevention bytes |
| Bitstream.BitstreamReader.ReadBits | MonaBase/include/Mona/BitReader.h:34-45 | the value loop with its saturation computes `ReadValue` |
| Bitstream.BitstreamReader.ReadExpGolomb | MonaCore/sources/MPEG4.cpp:102-112 | the two loops compute `ReadGolomb` |
| Bitstream.ByteBits | MonaCore/sources/HEVC.cpp:25-38 | bits are taken from the highest of each byte down |
| Bitstream.ContentKept | MonaCore/sources/HEVC.cpp:25-55 | for any content, what an encoder puts in to prevent start codes is what the reader leaves out |
| Bitstream.GolombReads | MonaCore/sources/MPEG4.cpp:102-112 | every coded value below 65535 is recovered with the rest untouched; any other reads as 0 while its zeros can be counted on 8 bits |
| Bitstream.GolombExactly | MonaCore/sources/MPEG4.cpp:102-112 | a coded value is recovered if and only if it is below 65535 |
| Segments.Writer.StartSegment | MonaCore/sources/Segments.cpp:77-135 | decides and writes a cut as `NewSegment` |
| Segments.Writer.WriteMedia | MonaCore/sources/Segments.cpp:153-205 | each media call steps state and output as `Step` |
| Segments.Writer.End | MonaCore/sources/Segments.cpp:144-152 | the last segment is told with its time so far, and nothing is kept |
| Segments.Conserved | MonaCore/sources/Segments.cpp:77-205 | with marks, properties and configurations erased, the output is the media given, in order |
| Segments.CutAtKey | MonaCore/sources/Segments.cpp:93-105 | a segment that holds key sequences is cut right before a key frame and nowhere else, the count being taken modulo 256 |
| Segments.WrapCuts | MonaCore/sources/Segments.cpp:93-105 | and the wrap does occur: after any multiple of 256 key sequences at one time, a frame late enough that is no key frame cuts |
| Segments.CutLongEnough | MonaCore/sources/Segments.cpp:88-106 | no segment ends before the duration its kind asks for |
| Segments.ConfigsLive | MonaCore/sources/Segments.cpp:160-184 | the configurations kept are the last of each track, unless an empty one took it away |
| Segments.SegmentOpens | MonaCore/sources/Segments.cpp:111-134 | every later segment opens with the last properties given and exactly the configurations in force, each once and in track order, at the time of the media that follows |
| Segments.DurationsTelescope | MonaCore/sources/Segments.cpp:88-115 | the uncut durations of ended segments add up to the time from the first start to the last one on the 32-bit clock |
| Segments.EndTelescopes | MonaCore/sources/Segments.cpp:144-148 | with the last segment they add up to the latest time |
| SegmentRuns.CutsExactly | MonaCore/sources/Segments.cpp:77-205 | in any run from its beginning, told by the medias alone: a media cuts if and only if it begins a key sequence in a segment whose count of them is no multiple of 256 and that has lasted a third of the longest in whole seconds, or it is another frame or sound in one whose count is and that has lasted the longest |
| SegmentRuns.CutTold | MonaCore/sources/Segments.cpp:108-112 | a cut tells how long the segment lasted from the media it began with, on 16 bits |
| SegmentRuns.UncutWrites | MonaCore/sources/Segments.cpp:176-205 | a media that cuts nothing writes itself alone, a video configuration nothing, and the first of key frames the video configurations in force before itself, at its own time |
| SegmentRuns.EndTold | MonaCore/sources/Segments.cpp:144-152 | the end of a run tells the last segment up to the latest time of any frame or sound |
| Playlists.Playlist.AddItem | MonaCore/sources/Playlist.cpp:53-59 | appends the duration and keeps total and longest exact |
| Playlists.Playlist.RemoveItem | MonaCore/sources/Playlist.cpp:61-69 | takes the front off and moves the sequence number on, or does nothing |
| Playlists.Playlist.Clear | MonaCore/sources/Segments.cpp:59-67 | terminates with the longest allowed end of the list; sequence plus count is unchanged and every duration erased is told |
| Playlists.ShortenedIsLongest | MonaCore/sources/Segments.cpp:59-67 | what is kept is within both limits and no longer end is |
| Playlists.NeverMore | MonaCore/sources/Segments.cpp:59-67 | at most one segment more than wanted is kept |
| Playlists.KeepsEnoughExactly | MonaCore/sources/Segments.cpp:59-67 | the wanted number is kept, whatever the durations, if and only if the 32-bit duration limit does not wrap, or wraps to its greatest value |
| Medias.Buffer.Add | MonaCore/sources/Subscription.cpp:673-682 | a current media is kept behind the others, played at once, or dropped when the switch is done |
| Medias.Buffer.WriteMedia | MonaCore/sources/Subscription.cpp:683-699 | a next media goes behind those not later than it, then the current ones are flushed |
| Medias.Buffer.Flush | MonaCore/sources/Subscription.cpp:715-750 | plays the current part up to the limit, and drops what is left of it once joined |
| Medias.Buffer.SetNext | MonaCore/sources/Subscription.cpp:619-671 | the next part is thrown away or becomes the current one |
| Medias.FirstInFirstOut | MonaCore/sources/Subscription.cpp:673-750 | over every run, what is played and then what is kept come in the order in which they entered the current part, and nothing else is played |
| Medias.Conserved | MonaCore/sources/Subscription.cpp:619-750 | over every run, what was there and all that entered the current part leaves it in that order or is still there, and what is played is what leaves without being dropped by a clearing, a join or a finished switch |
| Medias.AllPlayedExactly | MonaCore/sources/Subscription.cpp:619-750 | what is played and then what is kept is all that was there or entered, in order, if and only if no clearing, join or finished switch of the run found medias to drop |
| Medias.FlushExactly | MonaCore/sources/Subscription.cpp:715-750 | a flush plays exactly the front of the current part before the first timed media at or after the first of the next publication (or the present time of one that has none yet), and the next part joins exactly when such a media is met, or at once where the clocks are not aligned |
| Medias.AfterJoin | MonaCore/sources/Subscription.cpp:673-750 | once the next part has joined, nothing more is played in any run until the next publication is set or done |
| Medias.AfterSwitch | MonaCore/sources/Subscription.cpp:630-644 | when the switch is done its part is the current one, and medias added are kept behind it |
| Medias.SwitchCalledOff | MonaCore/sources/Subscription.cpp:630-650 | a switch called off leaves the current part as it was |
| Medias.ClearUntilDrops | MonaCore/sources/Subscription.cpp:705-713 | clearing drops nothing timed at or after the given time, and stops at the first such |
| Medias.InsertSorted | MonaCore/sources/Subscription.cpp:683-694 | insertion keeps the next part sorted by cyclic time, loses nothing, and is stable |
| Medias.NextSorted | MonaCore/sources/Subscription.cpp:683-699 | over every run within half the clock's circle the next part stays sorted |
| Timers.Timer.Set | MonaBase/sources/Timer.cpp:32-48 | a timer moves to its new deadline's bucket or is removed; one bucket each, none empty, the count exact |
| Timers.Timer.Remove | MonaBase/sources/Timer.cpp:60-78 | out of its bucket; a bucket it was alone in is handed back |
| Timers.Timer.Raise | MonaBase/sources/Timer.cpp:80-97 | at one reading of the clock every due timer is called exactly once, in deadline order, set again as it answers, and the wait returned is for the earliest left |
| Timers.DueAfter | MonaBase/sources/Timer.cpp:80-97 | what is still due in the middle of a raise is what was due and has not been called |
| SendQueue.Socket.Write | MonaBase/sources/Socket.cpp:481-511 | bytes taken by the system followed by the queue are all bytes written, in order, and the count is the queued total |
| SendQueue.Socket.Flush | MonaBase/sources/Socket.cpp:513-549 | the same after a flush; the count stays exact if and only if fewer than 2^32 bytes are sent in that one flush |
| SendQueue.FlushKeepsBytes | MonaBase/sources/Socket.cpp:513-545 | whatever the system answers, no byte is lost, doubled or put out of order |
| Capacity.CapacityIsLeastPower | MonaBase/sources/Buffer.cpp:27-38 | the smeared bits give the least power of two that holds the size, from 16 to 2^31, and past that the size itself |
| Capacity.SmearFills | MonaBase/sources/Buffer.cpp:30-36 | five shifts set every bit below the highest |
| Buffers.Buffer.Append | MonaBase/sources/Buffer.cpp:70-77 | the contents grow by exactly the bytes given |
| Buffers.Buffer.Clip | MonaBase/sources/Buffer.cpp:87-97 | the contents lose a front and no byte moves |
| Buffers.Buffer.Resize | MonaBase/sources/Buffer.cpp:99-147 | what fits stays, in place, moved to the front or copied; a block left is given back with the length it was allocated with |
| Buffers.Buffer.Release | MonaBase/sources/Buffer.cpp:65-68 | the block goes back with its full capacity however it was clipped |
| BufferPool.Buffers.Pop | MonaBase/sources/BufferPool.cpp:25-33 | the last block, or null if there is none |
| BufferPool.Buffers.Push | MonaBase/sources/BufferPool.cpp:34-38 | the block is kept, the bounds still hold |
| BufferPool.Buffers.Manage | MonaBase/sources/BufferPool.cpp:39-50 | the blocks never popped since the last time are handed over, no block is lost or doubled, and no null slot comes up |
| BufferPool.BoundsNeeded | MonaBase/sources/BufferPool.cpp:45-48 | for any list without null the two resizes leave exactly its front if and only if the intermediate size is no smaller: what the bound on the greatest size is for |
| Varint.Write7Bit | MonaBase/sources/BinaryWriter.cpp:86-103 | both loops write the bytes of `Written`, with the bit count on 8 bits as in the code |
| Varint.Read7Bit | MonaBase/sources/BinaryReader.cpp:106-119 | the loop reads as `Read`, eight bits from the last byte |
| Varint.VarintRoundTrip | MonaBase/sources/BinaryWriter.cpp:86-103 | up to 37 bytes, a value below 2^(7 bytes + 1) comes back, any larger one as the greatest that fits; at most `bytes` bytes are written and exactly those read |
| Varint.VarintExactly | MonaBase/sources/BinaryWriter.cpp:86-103 | on 16 to 128 bits, for any `bytes` from 1 to 255: every value comes back with the rest untouched if and only if `bytes` is at most 183 and the bit count 7 (bytes - 1) mod 256, plus 8, reaches the width |
| Varint.Wraps75 | MonaBase/sources/BinaryWriter.cpp:89-95 | 0xFFFF on 16 bits with 75 bytes is written as FF 7F and read as 0x3FFF |
| RequestPath.Collector.Take | MonaBase/sources/URL.cpp:137-172 | the closure takes one decoded character, or refuses the query mark |
| RequestPath.FromUri | MonaBase/sources/String.cpp:208-266 | decodes until a character is refused, with the count it then returns |
| RequestPath.NoCode | MonaBase/sources/String.cpp:242-253 | a percent sign that begins no code is taken literally, with the count the code returns when one of the three characters is refused |
| RequestPath.StepFollows | MonaBase/sources/URL.cpp:137-172 | `slashs` holds the start of each live segment at every character, and the path is their text |
| RequestPath.ParseRequest | MonaBase/sources/URL.cpp:115-191 | the one-pass result is the segment-list normalisation: empty and dot segments dropped, encoded dots ordinary, backslash as slash, up to the query; and the query begins at its mark under the condition of `QueryMarkExactly` only |
| RequestPath.NamesNotEmpty | MonaBase/sources/URL.cpp:157-165 | no live segment is empty |
| RequestPath.QueryMarkExactly | MonaBase/sources/String.cpp:242-253 | for any text the place returned is that of its first query mark, or the end, if and only if that mark is not one of the two characters behind a percent sign that begins no code; else it is one too far |
| RequestPath.PlaceIs | MonaBase/sources/String.cpp:208-266 | the first character the closure refuses stands at the first query mark of the text: one written as a code is not refused, and no decoding hides a plain one |
| RequestPath.QueryMarkLost | MonaBase/sources/String.cpp:242-253 | a request where it is not |
| RequestSpelling.SpelledPath | MonaBase/sources/String.cpp:208-266 | however each character of a path is spelled, as it is or as a code of digits of either case, it is decoded to itself, and the query begins at its mark |
| RequestSpelling.BadCodeDecodes | MonaBase/sources/String.cpp:240-253 | a percent sign that begins no code stands for itself, and the two characters behind it come out as capitals |
| RequestSpelling.NamesComeBack | MonaBase/sources/URL.cpp:115-191 | any names, spelled in any way behind slashes or backslashes, with or without a query, come to the same names behind slashes; dots spelled as codes are names |
| RtpH264.Profile.WriteVideo | MonaCore/sources/RTP_H264.cpp:32-92 | one call reads the next unit if none is under way and writes a part, a whole body or nothing, as `Call` |
| RtpH264.NeverTooMuch | MonaCore/sources/RTP_H264.cpp:37-92 | no call writes more than it may |
| RtpH264.PutKeeps | MonaCore/sources/RTP_H264.cpp:66-91 | whatever a call does with the unit under way, the bodies received, under way and to come stay the same |
| RtpH264.BodiesArrive | MonaCore/sources/RTP_H264.cpp:32-92 | for any packet and any rooms the first and last marks fit together and a receiver gets each body once, whole and in order (section 5.8 of RFC 6184); nothing is left after two calls for each byte of the packet, if every room holds a byte |
| RtpPackets.BodiesArriveInPackets | MonaCore/sources/RTP_H264.cpp:32-92 | the same by the bytes of the packets alone: a receiver that goes by fragment headers and sizes gets the bodies whole, in order, and all of them once nothing is left |
| RtpPackets.KindIs | MonaCore/sources/RTP_H264.cpp:42-61 | a unit's type is that of the byte in front of its body, its importance that of the frame |
| RtpPackets.FragmentHeader | MonaCore/sources/RTP_H264.cpp:66-78 | the two bytes in front of a fragment say importance and type |
| RtpPackets.GatheredHeader | MonaCore/sources/RTP_H264.cpp:80-90 | a packet of whole bodies says the importance of the first; their types are not in it |

## Left out

- TsWriter.TSWriter.EnsureVideo: language and caption descriptors of the map are not written, and video pids are required to stay below the audio ones.
- TsWriter.TSWriter.WriteEs: the stream that a track writer makes of a frame (NAL or ADTS framing) is taken as given, in the pieces it hands over.
- TsReader.TSReader.ParsePayload: stamps are handed on as 90 kHz counts; their conversion to milliseconds in doubles, the start time and the rewriting of track numbers are not modelled, nor is what a track reader does with its bytes.
- TsReader.TSReader.ParseStreams: descriptors are skipped as the code skips them, but the languages they name and the properties made of them are not kept.
- TsReader.TSReader.Parse: the end of a stream (`onFlush`) is not modelled.
- Dates.Date.Update: time zones and offsets other than 0, and the lazy first initialisation of a date.
- Dates.Date.Time: the setters, `yearDay` and `setWeekDay`.
- XmlParser.XMLParser.Run: handlers that call `reset`, and reads past the end of the document in an unterminated comment or character data, which the model takes for the error that the code intends.
- XmlParser.XMLParser.ParseAttributes: attributes are kept as the sequence of settings; the map that later settings overwrite is not modelled.
- Json.JSONWriter.Write: numbers, dates and base64 are carried as the text they are written in; printing and parsing them is not modelled.
- JsonReader.JSONReader.FollowingType: which texts are dates and which tokens numbers is a parameter.
- JsonReader.JSONReader.Fields: raw bytes are handed on before base64 decoding.
- FlvReader.FLVReader.ReadTag: the search for the metadata name beyond a short tag's end; operands of `|` are taken to be read from left to right.
- VideoConfig.ReadHevcConfig: a unit length beyond the record gives what there is, where the code reads on; the four bytes reserved before a foreign type is met are taken as 0.
- Segments.Writer.WriteMedia: tag fields that cutting does not look at are one number; files, the live segment list and its setMaxSegments are left out.
- Medias.Buffer.Flush: handlers that come back to the buffer while it plays, and the timeouts of `synchronizing`; the next publication is given by whether it publishes and its time.
- Timers.Timer.Raise: handlers that set timers themselves, and a clock that moves during a raise; the OnTimer objects are numbered and one answers the same timeout throughout a raise, in which it is called once; the delay passed to it is not modelled.
- SendQueue.Socket.Flush: datagram sockets, hard errors, destruction and locking.
- Buffers.Buffer.Resize: static buffers, the null buffer, and sizes that overflow 32 bits in append; an allocation does not fail.
- BufferPool.Buffers.Manage: the thread that calls it and the index by capacity.
- Varint.Write7Bit: shifts by the width of the type or more, which the language leaves undefined, are taken to give 0.
- RequestPath.ParseRequest: relative and forced-relative requests, drive letters, and requests ended by a null character instead of a length; a one-character request followed in memory by a slash, at which the code looks whatever the length.
- RtpH264.Profile.WriteVideo: the RTP header and the loop that calls it; the network unit type byte of a gathered unit, which the code does not write.
- Parsing of MP4, AMF, XML-RPC, SRT, MP3, ADTS and NAL streams, sockets, threads, encryption, files, services and scripts are not part of this model.
