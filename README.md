# vcu-ui core in Dafny

vcu-ui is the web interface and telemetry daemon of a vehicle communication
unit (VCU Pro). A set of worker threads fills an in-memory key-value store
once a second: system information, the mobile modem (via ModemManager's
`mmcli`), the mobile link's health, the GNSS receiver (via gpsd and u-blox UBX
messages), an Ethernet PHY, an OBD-II CAN client and vnstat traffic counters.
Web pages and a WebSocket feed render that store. A cloud logger queues
telemetry and uploads it to a ThingsBoard server.

This project models the logic of that core and proves properties of it. One
Dafny module stands for each source file:

- `TransmitQueue`: the bounded time-stamped FIFO, as a class over a sequence.
- `Ubx`: the UBX Fletcher checksum and frame builder.
- `GnssTool`: the UBX monitor's flag decoder, payload decoders, frame
  dispatch and byte-at-a-time receive state machine.
- `GnssModel`: the u-blox driver facade, with its caches, read-modify-write
  setters and command sequences. It runs over an abstract transport that
  records what is sent.
- `GnssPos`: the gpsd position state machine.
- `Things`: the cloud logger's enable switch, its schedule, its inline queue
  and the upload rule.
- `Mm` and `LegacyMm`: the two ModemManager output parsers.
- `Tools`: seconds to hours and minutes.
- `ObdClient`: the SAE J1979 service $01 request and response codec.
- `DataModel`: the store and its worker's schedule.
- `WwanModel`: the link watcher.
- `Realtime`: the WebSocket timer and `safeget`.
- `Pages`: the `nice` label joiner and the GNSS page's values.
- `VnStat`: the traffic parser.
- `PhyInfo`: the PHY readings.
- `Common`: the Python primitives the code relies on, such as `split`,
  `strip`, `rfind`, `int()`, `str()`, `&` and `|`.

Objects that the source updates in place are classes with `modifies`
clauses. Pure computations are functions with lemmas. Every loop is a method
proved against a specification function.

Several Python semantics are modelled explicitly:

- Exceptions are a `Raising` result.
- Python's `None` is `Option`.
- `int()` accepts an optional sign and the digits of the base.
- `%` is the floored remainder.

I/O, clocks, sockets and subprocesses become parameters of the operations
that use them.

## Model

| member | source | states |
|---|---|---|
| Common.WordLen | vcuui/mm.py:99 | the first token of `split()` is the longest prefix without whitespace, ending at a whitespace character or at the end |
| Common.SplitWs | vcuui/mm.py:99 | `split()` gives non-empty tokens without whitespace |
| Common.SplitWsKeepsText | vcuui/mm.py:99 | `split()` loses only whitespace: the tokens glued together are the line with its whitespace removed |
| Common.RemoveSpacesAppend | vcuui/mm.py:99 | removing whitespace from two texts in turn equals removing it from the whole |
| Common.RemoveSpacesOfWord | vcuui/mm.py:99 | a text without whitespace is kept |
| Common.RemoveSpaces | vcuui/mm.py:99 | the result holds no whitespace |
| Common.WordLenOfWord | vcuui/mm.py:99 | a word followed by whitespace or nothing is the whole first token |
| Common.SplitWsWord | vcuui/mm.py:99 | a word followed by whitespace or nothing is the first token of `split()` |
| Common.LStrip | vcuui/vnstat.py:36 | the result is a suffix of the text that starts without whitespace |
| Common.RStrip | vcuui/vnstat.py:36 | the result is a prefix of the text that ends without whitespace |
| Common.Split | vcuui/vnstat.py:36 | `split(sep)` gives at least one part and no part holds the separator |
| Common.JoinSplit | vcuui/vnstat.py:36 | joining the parts of `split(sep)` with the separator gives the text back |
| Common.SplitJoin | vcuui/vnstat.py:36 | splitting a join of separator-free parts gives the parts back |
| Common.DropFirstNoSep | vcuui/vnstat.py:36 | dropping a first character keeps the parts free of the separator |
| Common.JoinDropFirst | vcuui/vnstat.py:36 | a join starts with the first part's first character |
| Common.ConsAssoc | vcuui/vnstat.py:36 | regrouping a concatenation keeps it |
| Common.RFind | vcuui/mm.py:38 | `rfind` gives the last index holding the character, or -1 when none does |
| Common.AfterLast | vcuui/mm.py:38 | the text after the last separator is a suffix without the separator, preceded by the separator unless it is the whole text |
| Common.AfterLastOf | vcuui/mm.py:38 | after `p + sep + d` with d free of the separator, the text after the last separator is d |
| Common.AfterLastNone | vcuui/mm.py:38 | without the separator the whole text is kept |
| Common.ContainsAt | mm.py:17 | a text holding the substring at some index contains it |
| Common.DigitValue | vcuui/mm.py:51-68 | a character's digit value is at most 36 |
| Common.AllDigitsPrefix | vcuui/mm.py:51-68 | a prefix of a digit string is a digit string |
| Common.ParseInt | vcuui/mm.py:51-68 | `int()` rejects the empty text and gives no negative number without a '-' |
| Common.DigitsSnoc | vcuui/mm.py:51-68 | one more digit multiplies the value by the base and adds the digit |
| Common.DigitChar | vcuui/data_model.py:185 | the digit character of d has digit value d |
| Common.ShowNat | vcuui/data_model.py:185 | `str(n)` is a non-empty run of decimal digits |
| Common.ShowInt | vcuui/data_model.py:253 | `str(i)` is not empty |
| Common.ShowNatValue | vcuui/data_model.py:185 | the digits of `str(n)` denote n |
| Common.ParseDecimalDigits | vcuui/vnstat.py:46-51 | `int()` of decimal digits, and of '-' and decimal digits, gives their value and its negation |
| Common.DecimalDigits | vcuui/vnstat.py:46-51 | characters '0'..'9' are base-10 digits |
| Common.ParsePositive | vcuui/vnstat.py:46-51 | `int()` of digits starting with a decimal digit is their value |
| Common.ParseNegative | vcuui/mm.py:57 | `int()` of '-' and digits is the negated value |
| Common.ParseShowInt | vcuui/mm.py:51-59 | `int(str(i)) == i` for every integer |
| Common.ParseShowNat | vcuui/mm.py:31-43 | `int(str(n)) == n` for every natural number |
| Common.ParseShowNeg | vcuui/mm.py:57 | `int('-' + str(n)) == -n` |
| Common.BitOrZero | vcuui/gnss_model.py:285 | `a | b` is 0 exactly when both are 0 |
| Common.AndOfDisjointOr | gnss_tool.py:59-62 | bits of e outside k do not change `k & (f | e)`: unknown flag bits cannot affect a key's test |
| Tools.TruncDiv | vcuui/tools.py:6-7 | Python's `int(a / b)` for b > 0 truncates toward zero: for a >= 0 the quotient is non-negative with a remainder in [0, b), for a < 0 it is non-positive with a remainder in (-b, 0] |
| Tools.SecsToHhmmSplits | vcuui/tools.py:5-9 | for seconds >= 0, t is the nearest minute (half a minute rounds up), and (h, m) splits t as 60*h + m with 0 <= m < 60 |
| Tools.MinutesBelowSixty | vcuui/tools.py:8 | the minutes part lies in 0..59 for every input, because Python's `%` is floored |
| Tools.NegativeIsNotSplit | vcuui/tools.py:6-9 | -100 s gives t = -1 and the pair (0, 59): a negative total is not split into hours and minutes |
| Tools.SecsToHhmmMonotone | vcuui/tools.py:5-9 | a longer duration never shows an earlier (h, m) in lexicographic order |
| Tools.SecsToHhmmExamples | tests/test_secs_conversion.py:7-40 | the module's tests: 0, 60, 121, 3600, 86400-31, 29 and 30 seconds give (0,0), (0,1), (0,2), (1,0), (23,59), (0,0) and (0,1) |
| TransmitQueue.SliceBound | vcuui/transmit_queue.py:43 | Python's normalisation of a slice bound: at most the length, a non-negative bound clamped to the length, a negative bound counting from the end and clamped at 0 |
| TransmitQueue.Newest | vcuui/transmit_queue.py:74-78 | the newest n elements: exactly min(n, length) of them, and a suffix of the input |
| TransmitQueue.AddedShape | vcuui/transmit_queue.py:60-78 | one `add` keeps the length within the capacity: grows by one while there is room, keeps its length once full; the new entry is the tail and the older entries keep their order, only the head dropped when full |
| TransmitQueue.NewestOfNewest | vcuui/transmit_queue.py:74-78 | trimming to the newest n before appending more gives the same newest n as trimming once at the end |
| TransmitQueue.AddAllKeepsNewest | vcuui/transmit_queue.py:60-78 | any run of `add` calls leaves exactly the newest `capacity` entries of the old queue followed by everything added |
| TransmitQueue.CapacityTwoEvictsOldest | tests/test_transmit_queue.py:20-34 | capacity 2 with data 1, 2, 3 holds [2, 3]; adding 4 then holds [3, 4] |
| TransmitQueue.TransmitQueue.constructor | vcuui/transmit_queue.py:15-21 | requires the asserted capacity range 1..2999; the queue starts empty with that capacity |
| TransmitQueue.TransmitQueue.NumEntries | vcuui/transmit_queue.py:23-25 | returns the number of queued entries |
| TransmitQueue.TransmitQueue.AllEntries | vcuui/transmit_queue.py:27-29 | returns every entry, oldest first |
| TransmitQueue.TransmitQueue.FirstEntries | vcuui/transmit_queue.py:31-43 | returns a prefix of the queue of min(num, length) entries for num >= 0, never failing when num exceeds the length; a negative num follows Python's slice rule |
| TransmitQueue.TransmitQueue.RemoveFirst | vcuui/transmit_queue.py:45-58 | the queue becomes the old queue without its first min(num, length) entries (Python's slice rule for negative num), and stays within its capacity |
| TransmitQueue.TransmitQueue.Add | vcuui/transmit_queue.py:60-78 | the queue becomes `Added` of the old queue and {time, data}: head dropped when full, new entry at the tail; the capacity bound is kept |
| TransmitQueue.TransmitQueue.DequeueHead | vcuui/transmit_queue.py:80-83 | the returned entries followed by the remaining queue are exactly the old queue, and the returned part is its slice `[0:amount]` |
| Ubx.SumBIsWeighted | vcuui/gnss.py:204-208 | the second running sum (CK_B before truncation) equals Fletcher's closed form, in which byte i of n is counted n - i times |
| Ubx.EightBytes | vcuui/gnss.py:200-210 | for an eight-byte message, CK_A's sum is the plain sum of the bytes and CK_B's sum weights them 8, 7, ..., 1 |
| Ubx.CalcChecksum | vcuui/gnss.py:200-210 | the byte loop that truncates to 8 bits after every addition returns the sum of the bytes mod 256 and the sum of the running sums mod 256; both lie in 0..255 and empty input gives (0, 0) |
| Ubx.CreateUbxMessage | vcuui/gnss.py:192-197 | the message is B5 62, then the data unchanged, then CK_A and CK_B of the data |
| Ubx.FramedLayout | vcuui/gnss.py:192-197 | the frame is 4 bytes longer than its content, starts B5 62, carries the content unchanged, and its checksum covers exactly the content and never the sync bytes |
| Ubx.CommandPayloads | vcuui/gnss.py:113-152 | the fixed stop, start and save-state commands are class, id, little-endian length 4 and their 4-byte payloads |
| Ubx.ChecksumVectors | tests/test_gnss.py:6-23 | 06 04 04 00 00 00 09 00 gives (0x17, 0x76), 09 14 04 00 00 00 00 00 gives (0x21, 0xEC), 06 04 04 00 FF 87 00 00 gives (0x94, 0xF5) |
| Ubx.FrameVector | tests/test_gnss.py:26-30 | framing 06 04 04 00 FF 87 00 00 gives b5 62 06 04 04 00 FF 87 00 00 94 f5 |
| GnssTool.FlagS | gnss_tool.py:55-64 | the loop over the sorted description items returns the stripped concatenation of "description " for every key whose bits are all set in the flag |
| GnssTool.FlagWordsJoin | gnss_tool.py:58-62 | the text the loop accumulates is the selected descriptions joined by single spaces, plus one trailing space, or empty when none is selected |
| GnssTool.FlagTextIsJoin | gnss_tool.py:55-64 | with one-word descriptions, `flag_s` is exactly the selected descriptions in key order joined by single spaces, with no space before the first or after the last |
| GnssTool.SelectedMembers | gnss_tool.py:59-62 | every key with `(key & flag) == key` contributes its description, and no more descriptions are produced than there are keys |
| GnssTool.UnknownBitsIgnored | gnss_tool.py:56-64 | flag bits that belong to no key change neither the selection nor the text |
| GnssTool.NoKeyBitsNoText | gnss_tool.py:55-64 | a flag sharing no bit with any (non-zero) key selects nothing and gives the empty text |
| GnssTool.DescriptionTables | gnss_tool.py:68-77 | the protocol and port-flag tables are sorted by key and hold one-word descriptions |
| GnssTool.ProtoExample | gnss_tool.py:72-77 | the protocol mask 0x23 reads "UBX NMEA RTCM3" |
| GnssTool.ProtoSelected | gnss_tool.py:72-77 | the protocol mask 0x23 selects UBX, NMEA and RTCM3, in key order |
| GnssTool.U16 | gnss_tool.py:105 | a little-endian 16-bit field is below 2^16 |
| GnssTool.U32 | gnss_tool.py:105 | a little-endian 32-bit field is below 2^32 |
| GnssTool.ReadLE16 | gnss_tool.py:105 | reading a 16-bit little-endian field gives back the number written there, whatever surrounds it |
| GnssTool.ReadLE32 | gnss_tool.py:105 | reading a 32-bit little-endian field gives back the number written there, whatever surrounds it |
| GnssTool.CfgPrtCases | gnss_tool.py:87-133 | UBX-CFG-PRT: 0 bytes give " Poll request", 1 byte the port-id poll, 2..19 bytes "Bad Length n"; a decoded block exactly from 20 bytes on, with the port id of byte 0, the I2C address only for port 0, and the flags text only for ports 0, 1, 2 and 4 |
| GnssTool.EncodePortConfig | gnss_tool.py:105 | the `<BBHLLHHHH` block of a port configuration is 20 bytes long |
| GnssTool.CfgPrtDecodesEncoding | gnss_tool.py:105-113 | decoding the 20-byte block of any in-range port configuration gives back every field and the port's id text |
| GnssTool.NavStatusCases | gnss_tool.py:135-146 | UBX-NAV-STATUS: 0 bytes give " Poll request", 1..15 bytes " Bad Length n", and exactly from 16 bytes on the fields read from their `<LBBBBLL` offsets |
| GnssTool.DecodeRoutes | gnss_tool.py:228-245 | only 06 00 (CFG-PRT) and 01 03 (NAV-STATUS) are decoded and printed; only 09 14 (UPD-SOS) is queued, and raises IndexError in `sos_poll` for a payload shorter than 5 bytes; every other frame is ignored |
| GnssTool.RunAppend | gnss_tool.py:171-175 | feeding two chunks one after the other is feeding their concatenation, and the frames found are those of the first chunk followed by those of the second |
| GnssTool.NoSyncStaysInit | gnss_tool.py:179-181 | from `init`, a stream without 0xB5 changes nothing and completes no frame |
| GnssTool.SyncTransitions | gnss_tool.py:182-191 | from `sync`, 0x62 moves to `class` with cleared fields, any other byte (a second 0xB5 included) returns to `init`; no frame is completed |
| GnssTool.DoubleSyncResets | gnss_tool.py:179-191 | B5 B5 62 from `init` leaves the parser in `init`: the second 0xB5 does not count as a sync |
| GnssTool.HeaderRun | gnss_tool.py:179-206 | sync, class, id and the two length bytes leave the parser in `data` with that class and id and the little-endian length low + 256 * high |
| GnssTool.DataRun | gnss_tool.py:207-211 | before the last payload byte the parser stays in `data`, appending every byte and counting it in `ofs` |
| GnssTool.PayloadRun | gnss_tool.py:207-211 | for a length of at least 1, `data` collects exactly that many bytes and then moves to `crc1` |
| GnssTool.ChecksumRun | gnss_tool.py:212-222 | both checksum bytes are consumed without comparison; the second hands (class, id, payload) on exactly once and returns to `init` with cleared fields |
| GnssTool.CommandIsHeader | gnss_tool.py:200-206 | sync bytes followed by class, id, LE length and payload are the header the parser reads, followed by the payload |
| GnssTool.HeaderPayloadRun | gnss_tool.py:179-211 | sync, header and a non-empty payload leave the parser in `crc1` holding the whole payload |
| GnssTool.FrameRoundTrip | gnss_tool.py:179-222 | a frame with a non-empty payload yields exactly that (class, id, payload) once, whatever its checksum bytes, and the parser is back in `init` |
| GnssTool.ReceivesFramed | gnss_tool.py:179-222 | a frame built by the checksum and frame builder is received as sent |
| GnssTool.ZeroLengthTrap | gnss_tool.py:207-211 | once `ofs` has reached the length in `data`, no later byte makes them equal again: the parser stays in `data` forever and completes no frame |
| GnssTool.ZeroLengthFrameSilences | gnss_tool.py:200-211 | a header announcing a zero-length payload silences the parser for good: nothing that follows reaches `process` |
| GnssTool.DecodeAll | gnss_tool.py:215 | one outcome per completed frame |
| GnssTool.DecodeAllAppend | gnss_tool.py:215 | the outcomes of two runs of frames are the outcomes of the first followed by those of the second |
| GnssTool.DecodeAllAt | gnss_tool.py:215 | each outcome is the decoding of the frame at the same position |
| GnssTool.UntilCrashPrefix | gnss_tool.py:163-225 | `listen` handles a prefix of the frames' outcomes; none but the last handled one raised, and when frames are dropped the last handled one raised IndexError |
| GnssTool.UntilCrashNoCrash | gnss_tool.py:171-222 | without an IndexError every frame is handled |
| GnssTool.UntilCrashStops | gnss_tool.py:163-225 | after the first IndexError nothing more is handled, whatever follows |
| GnssTool.CrashIsFinal | gnss_tool.py:163-225 | once a stream prefix has produced the first IndexError, the rest of the stream changes nothing that was handled |
| GnssTool.RunSplit | gnss_tool.py:171-175 | the frames of a stream are those of its first n bytes followed by those of the rest, fed from where the parser stopped |
| GnssTool.ListenFromDispatch | gnss_tool.py:171-222 | the byte loop, from any point, handles exactly the frames of the whole stream up to the first IndexError and queues one item per SOS reply among them |
| GnssTool.ListenSpec | gnss_tool.py:162-225 | `listen` over a whole stream from `init` handles exactly those frames, and the queue gains one (0x09, 0x14) per SOS reply handled |
| GnssTool.Parser.constructor | gnss_tool.py:154-158 | the parser starts with an empty queue |
| GnssTool.Parser.Process | gnss_tool.py:228-245 | the outcome is the decoding of the frame, and the queue gains (cls, id) exactly for a UPD-SOS frame that did not raise |
| GnssTool.Parser.Listen | gnss_tool.py:162-225 | the loop's outcomes are the frames of the stream dispatched up to and including the first IndexError, and the queue is the old queue plus one item per SOS reply |
| GnssModel.BitOfOr | vcuui/gnss_model.py:285 | bit k of `a \| b` is set exactly when bit k of a or of b is set |
| GnssModel.BitOfAndNot | vcuui/gnss_model.py:287 | bit k of `a & ~b` is set exactly when bit k of a is set and bit k of b is clear |
| GnssModel.AndPow2 | vcuui/gnss_model.py:272 | `x & 2**k` is 2**k when bit k of x is set and 0 otherwise |
| GnssModel.BitOfPow2 | vcuui/gnss_model.py:285-287 | 2**j has bit j set and every other bit clear |
| GnssModel.DoAutoMntAlgIsBit8 | vcuui/gnss_model.py:272 | the auto-alignment mask 0x100 is bit 8 |
| GnssModel.AlignOnIsBit8 | vcuui/gnss_model.py:272 | `bool(bitfield & BITFIELD_doAutoMntAlg)` holds exactly when bit 8 of the bitfield is set |
| GnssModel.WithAlignBits | vcuui/gnss_model.py:284-287 | setting (`\|=`) or clearing (`&= ~`) the flag makes bit 8 the requested value, leaves every other bit unchanged, and the flag then reads back as requested |
| GnssModel.Reread | vcuui/gnss_model.py:471-476 | the cache after a read is the old cache or the transport's answer; a forced read always takes the answer; an unforced read never empties a filled cache and keeps it unchanged |
| GnssModel.PollIf | vcuui/gnss_model.py:471-476 | a read issues either no request or exactly one poll of its message |
| GnssModel.FilledCacheStays | vcuui/gnss_model.py:455-483 | once a poll has answered, later reads that are not forced return the cached message and issue no poll, whatever the transport would answer |
| GnssModel.DynModelWriteOnChange | vcuui/gnss_model.py:245-264 | `set_dynamic_model` writes exactly when the receiver answered with a different model, and then exactly one message: the polled one with only the model replaced; the cache then reads back the requested model, -1 on poll failure, and a repeated request is left as is |
| GnssModel.AlignWriteOnChange | vcuui/gnss_model.py:276-298 | `set_auto_align` writes exactly when the flag differs from the request; the written message differs from the polled one in bit 8 of the bitfield only (angles kept); the cache reads back the requested mode, and a repeated request is left as is |
| GnssModel.Sanitize | vcuui/gnss_model.py:129-131 | `rstrip('\0x00')` as written: the result is a prefix of the input that does not end in NUL, 'x' or '0', and everything dropped is one of those three characters |
| GnssModel.SanitizeDropsDigits | vcuui/gnss_model.py:99-131 | as written, the protocol version "19.20" of `version`'s own documentation comes out as "19.2", and "00080000" with NUL padding as "0008", where stripping only NUL keeps both |
| GnssModel.StripNul | vcuui/gnss_model.py:129-131 | the evidently intended `rstrip('\0')`: a prefix of the input not ending in NUL, everything dropped being NUL |
| GnssModel.StripNulPadding | vcuui/gnss_model.py:129-131 | a string not ending in NUL comes back whole from any amount of NUL padding |
| GnssModel.StripNulIdempotent | vcuui/gnss_model.py:129-131 | stripping twice is stripping once |
| GnssModel.NmeaTextRoundTrip | vcuui/gnss_model.py:148-158 | the NMEA version text splits at its only '.' into two decimal numbers that give the version byte back as 16 * high + low, with low below 16 |
| GnssModel.NmeaTextExamples | vcuui/gnss_model.py:148-158 | 0x41 reads "4.1", 0x23 reads "2.3", and a failed poll reads "0.0" |
| GnssModel.VersionFields | vcuui/gnss_model.py:109-119 | firmware and protocol versions are the text after "KEY=" of extension lines 1 and 2, with trailing NUL padding stripped (the corrected strip; the source's `sanitize` also drops trailing '0' and 'x', see Findings) |
| GnssModel.VersionNeedsEquals | vcuui/gnss_model.py:111 | an extension line 1 without '=' raises IndexError |
| GnssModel.AlignStateTextDropsLabel | vcuui/gnss_model.py:346-348 | the alignment state is the flags text after its "flags: " label |
| GnssModel.LeverAsWrittenRaises | vcuui/gnss_model.py:492-506 | as written, a lever-arm read with an empty cache and a failed poll raises AttributeError |
| GnssModel.LeverRead | vcuui/gnss_model.py:368-378 | corrected read: zero lever arms when there is no message, as the callers' default intends |
| GnssModel.LeverReadAgrees | vcuui/gnss_model.py:368-407 | wherever the code as written returns, the corrected read returns the same lever arm; the code raises exactly when both cache and poll are empty |
| GnssModel.Gnss.constructor | vcuui/gnss_model.py:30-50 | every cache starts empty and nothing has been sent |
| GnssModel.Gnss.Invalidate | vcuui/gnss_model.py:95-97 | drops the alignment configuration and the alignment state, nothing else |
| GnssModel.Gnss.ClearCachedValues | vcuui/gnss_model.py:519-522 | drops the NAV5, ESFALG and ESFLA caches and keeps the others |
| GnssModel.Gnss.ReadMonVer | vcuui/gnss_model.py:455-460 | polls MON-VER only while its cache is empty; returns the cached message |
| GnssModel.Gnss.ReadCfgPort | vcuui/gnss_model.py:462-469 | polls CFG-PRT for the UART only while its cache is empty |
| GnssModel.Gnss.ReadCfgNav5 | vcuui/gnss_model.py:471-476 | polls CFG-NAV5 when forced or while empty, overwriting the cache |
| GnssModel.Gnss.ReadCfgNmea | vcuui/gnss_model.py:478-483 | polls CFG-NMEA only while its cache is empty |
| GnssModel.Gnss.ReadCfgEsfalg | vcuui/gnss_model.py:485-490 | polls CFG-ESFALG when forced or while empty, overwriting the cache |
| GnssModel.Gnss.ReadLever | vcuui/gnss_model.py:492-506 | polls CFG-ESFLA only while empty and returns the requested lever arm; zero without a message (the corrected read: the source raises AttributeError there, see Findings) |
| GnssModel.Gnss.Version | vcuui/gnss_model.py:99-127 | the four version strings of the cached MON-VER with trailing NUL padding stripped (the corrected strip: the source's `sanitize` turns '19.20' into '19.2', see Findings), "n/a" without it, IndexError for an extension without '=' |
| GnssModel.Gnss.UartSettings | vcuui/gnss_model.py:133-146 | bit rate and mode of the cached UART configuration, or 0 and "n/a" |
| GnssModel.Gnss.NmeaProtocol | vcuui/gnss_model.py:148-158 | the nibble text of the cached NMEA version, "0.0" on failure |
| GnssModel.Gnss.ColdStart | vcuui/gnss_model.py:160-171 | sends one unacknowledged cold-start reset and clears the configuration caches |
| GnssModel.Gnss.SaveConfig | vcuui/gnss_model.py:176-183 | sets one CFG-CFG saving the navigation configuration, and leaves every cache |
| GnssModel.Gnss.ResetConfig | vcuui/gnss_model.py:185-195 | sets one CFG-CFG clearing and loading the navigation configuration, and clears the configuration caches |
| GnssModel.Gnss.SaveState | vcuui/gnss_model.py:200-224 | issues exactly stop (send), SOS save (set), start (send), in that order, and leaves the caches |
| GnssModel.Gnss.ClearState | vcuui/gnss_model.py:226-233 | sets one SOS clear and leaves the caches |
| GnssModel.Gnss.DynamicModel | vcuui/gnss_model.py:238-243 | the cached platform model, -1 on failure |
| GnssModel.Gnss.SetDynamicModel | vcuui/gnss_model.py:245-264 | requires the asserted 0..7; always one forced poll, then the write and answer of `DynModelWrites`/`DynModelAnswer`, with the polled message as the new cache |
| GnssModel.Gnss.AutoAlign | vcuui/gnss_model.py:269-274 | the cached alignment flag as 1/0, -1 on failure |
| GnssModel.Gnss.SetAutoAlign | vcuui/gnss_model.py:276-298 | one forced poll, then the write and answer of `AlignWrites`/`AlignAnswer`, with the changed message as the new cache |
| GnssModel.Gnss.SetImuCfgAngles | vcuui/gnss_model.py:316-337 | one forced poll; on an answer the three angles are written unconditionally and reported, otherwise "Failed: GNSS not accesible." (the source's spelling) |
| GnssModel.Gnss.VrpAnt | vcuui/gnss_model.py:368-378 | the antenna lever arm of the cache, zero without a message (the corrected read) |
| GnssModel.Gnss.VrpImu | vcuui/gnss_model.py:397-407 | the IMU lever arm of the cache, zero without a message (the corrected read) |
| GnssModel.Gnss.SetVrp | vcuui/gnss_model.py:380-425 | sets one ESFLA message; the answer follows the acknowledgement, and the lever-arm cache is dropped whatever the outcome |
| GnssModel.Gnss.AutoAlignState | vcuui/gnss_model.py:342-351 | polls ESF-ALG only while its cache is empty; the flags text after its label, or "<error>" |
| DataModel.LedFollowsThings | vcuui/data_model.py:88-92 | only a 'things' record drives the indicator: yellow exactly when its state is 'sending', green otherwise; any other origin leaves it |
| DataModel.LookupAfterPublish | vcuui/data_model.py:72-86 | a published value is read back, and publishing one origin changes no other origin's value |
| DataModel.ReadObd2Cases | vcuui/data_model.py:51-60 | a missing Port or Speed is a caught configparser error giving None for both; a numeric Speed is read back by `int()`; a Speed that is no number ('' or 'fast') raises ValueError |
| DataModel.Model.Create | vcuui/data_model.py:37-60 | `Model()` raises the ValueError `ReadObd2` gives; otherwise a fresh empty store with dark LEDs and the port and speed `ReadObd2` read, both None without them |
| DataModel.Model.constructor | vcuui/data_model.py:37-60 | the store starts empty; port and speed are the configuration already read, both None when the configuration had none |
| DataModel.Model.Setup | vcuui/data_model.py:62-64 | both LEDs turn green; the store is unchanged |
| DataModel.Model.GetAll | vcuui/data_model.py:68-70 | returns the whole store (as a value; see "## Left out" for the alias the source returns) |
| DataModel.Model.Get | vcuui/data_model.py:72-75 | the stored value, or None for an unknown origin |
| DataModel.Model.Publish | vcuui/data_model.py:77-92 | stores the value under the origin, replacing any old one and leaving other origins, and sets the indicator as `LedAfter` says |
| DataModel.Model.Remove | vcuui/gnss_pos.py:81 | the method the position reader calls and the class lacks (corrected half of a finding): drops exactly that origin and leaves the LEDs |
| DataModel.ScheduleShape | vcuui/data_model.py:111-133 | the first tick takes every reading; after it the schedule repeats every 20 ticks; sysinfo runs on every tick and OBD-II exactly when a port is configured |
| DataModel.NetworkThenPhy | vcuui/data_model.py:116-120 | after the first tick a network tick is never a PHY tick, the PHY reading follows on the next tick, and the network reading does not |
| DataModel.Obd2Bitrate | vcuui/data_model.py:225-229 | the bit rate is 250000 or 500000: kept exactly when it is one of those, 500000 otherwise |
| DataModel.Obd2Client | vcuui/data_model.py:101-109 | a client is set up exactly when both port and speed are configured and truthy, on that port with the corrected bit rate |
| DataModel.ModemRecordBase | vcuui/data_model.py:181-198 | the modem record holds id, state, access technology and signal quality, and 'location' exactly when the mobile country code is truthy; the id is decimal text of the modem's id |
| DataModel.ModemRecordSignal | vcuui/data_model.py:199-204 | 'signal-lte' is there exactly for LTE and 'signal-umts' exactly for UMTS |
| DataModel.ModemRecordBearer | vcuui/data_model.py:206-221 | 'bearer-id' exactly with a bearer, 'bearer-uptime' and 'bearer-ip' exactly when its uptime is truthy, 'sim-id' exactly with a SIM |
| DataModel.WithSimKeeps | vcuui/data_model.py:215-221 | adding the SIM entries changes no other entry |
| DataModel.WithBearerKeeps | vcuui/data_model.py:206-213 | adding the bearer entries changes no other entry |
| DataModel.WithSignalKeeps | vcuui/data_model.py:199-204 | adding the signal entry changes no other entry |
| DataModel.ModelWorker.constructor | vcuui/data_model.py:96-99 | the worker starts at tick 0 with no OBD-II client |
| DataModel.ModelWorker.Setup | vcuui/data_model.py:101-109 | the OBD-II client is the one `Obd2Client` gives for the configured port and speed |
| DataModel.ModelWorker.Tick | vcuui/data_model.py:111-133 | one pass of `run` takes exactly the readings `Scheduled` gives for the counter, then the counter advances by one |
| DataModel.ModelWorker.Obd2PollStep | vcuui/data_model.py:234-244 | with a client, publishes the speed under 'obd2', 0.0 when the query yields nothing; without one, nothing changes |
| DataModel.ModelWorker.ModemStep | vcuui/data_model.py:181-223 | publishes the assembled modem record under 'modem' (empty without a modem) |
| DataModel.ModelWorker.PhyStep | vcuui/data_model.py:246-254 | publishes the PHY state and `str(quality)` under 'phy-broadr0' |
| GnssPos.FixLadder | vcuui/gnss_pos.py:94-105 | modes 0 and 1 give 'No Fix', 2 '2D', 3 '3D', any other mode keeps the previous fix; status 2 changes '3D' into '3D DGPS' and changes no other fix |
| GnssPos.SkyOnlyPdop | vcuui/gnss_pos.py:88-91 | a SKY report only remembers its PDOP, when it has one, and publishes nothing |
| GnssPos.PublishedIffPosition | vcuui/gnss_pos.py:93-123 | a position is published exactly for a TPV report with mode, lon and lat; it carries those coordinates, the new fix and speed and the last PDOP; otherwise lon and lat keep their old values |
| GnssPos.PdopCarried | vcuui/gnss_pos.py:88-123 | the PDOP of a SKY report reaches the next published position |
| GnssPos.TimeoutAsWrittenRaises | vcuui/gnss_pos.py:79-85 | as written, `_state_timeout` calls `model.remove`, which `Model` does not define, so the first lost connection raises AttributeError and ends the reader |
| GnssPos.GnssPosition.constructor | vcuui/gnss_pos.py:14-28 | starts in 'init' without a gpsd client, with fix, lon, lat, speed and pdop all 0 |
| GnssPos.GnssPosition.StateInit | vcuui/gnss_pos.py:51-63 | creates a client only when none is held (it is reused otherwise), and moves to 'connected' exactly when setup succeeds |
| GnssPos.GnssPosition.HandleReport | vcuui/gnss_pos.py:87-123 | the fields become `Handled` of the report, and the store gains 'gnss-pos' exactly when `Published` says so |
| GnssPos.GnssPosition.StateConnected | vcuui/gnss_pos.py:65-77 | a non-empty report is handled and the state stays; no report (or an empty one) moves to 'timeout'; a KeyError changes nothing |
| GnssPos.GnssPosition.StateTimeout | vcuui/gnss_pos.py:79-85 | corrected: removes 'gnss-pos' from the store, drops the client and returns to 'init' |
| GnssPos.Reconnect | vcuui/gnss_pos.py:51-123 | after a lost connection, reconnecting and one TPV report with a position put that position back into the store |
| Things.TimedIsAdded | vcuui/things.py:217-230 | trimming to `MAX_QUEUE_SIZE` before the append makes `_queue_timed` exactly a transmit queue of capacity 301 whose tail is the new entry |
| Things.TimedAllKeepsNewest | vcuui/things.py:217-230 | after any run of `_queue_timed` calls the queue holds exactly the newest 301 of all entries, in order |
| Things.TimedAllIsAddAll | vcuui/things.py:217-230 | a run of `_queue_timed` calls equals the same run of transmit-queue adds of capacity 301 |
| Things.HttpData | vcuui/things.py:245-249 | one row `{'ts', 'values'}` per queued entry, in queue order |
| Things.BuildHttpData | vcuui/things.py:245-249 | the loop builds exactly `HttpData` of the queue |
| Things.PostRecordLed | vcuui/things.py:281-294 | after a post the indicator LED is green when it went out and stays yellow when it failed |
| Things.JobsShape | vcuui/things.py:112-133 | a connected tick always looks at the position, forces it exactly every 60 ticks, uploads telemetry exactly when the counter is 5 modulo 30 and attributes exactly when it is 7 modulo 120; the schedule repeats every 120 ticks and the first upload is on counter 5 |
| Things.Things.constructor | vcuui/things.py:40-64 | starts in 'init', inactive, with an empty queue; `has_server` says whether the configuration was read |
| Things.Things.Enable | vcuui/things.py:71-92 | each branch's reply text; the logger turns on only with a server configuration and off on request; the flag is published under 'cloud' |
| Things.JobsInSourceOrder | vcuui/things.py:112-133 | a connected tick's work comes in the source's order: the position first (so a position queued on an upload tick goes out in that upload), then the information, the telemetry upload and the attributes |
| Things.Things.Tick | vcuui/things.py:94-142 | nothing while inactive; in 'init' it moves to 'connected' with the counter reset exactly when the modem has an id and a bearer; when connected it does exactly the work `Jobs` gives, in that order |
| Things.Things.QueueTimed | vcuui/things.py:217-230 | the queue becomes `Timed` of the old queue and the new entry, and stays within 301 entries |
| Things.Things.QueueGnss | vcuui/things.py:190-202 | a position is queued exactly when it has lon and lat and is forced or has moved; otherwise the queue is unchanged |
| Things.Things.PostData | vcuui/things.py:261-302 | the result is the post's success; the store ends with 'sent' and the byte count, or 'sending' after a failure |
| Things.Things.UploadTelemetry | vcuui/things.py:233-256 | queues the queue size, posts every queued entry in order, and empties the queue exactly when the post succeeded |
| Things.UploadEndsWithSize | vcuui/things.py:240-249 | the posted rows are the old queue's rows followed by one row holding the size counted before it was queued |
| Realtime.SafeGet | vcuui/realtime.py:83-91 | the loop gives `SafeGetOf`: the value at the end of the key path, the default at the first missing key, and TypeError when a non-dictionary is indexed |
| Realtime.SafeGetEnds | vcuui/realtime.py:83-91 | no keys give the dictionary itself; a missing first key gives the default whatever follows; a present one continues in its value |
| Realtime.SafeGetAppend | vcuui/realtime.py:83-91 | following a path and then more keys equals continuing the lookup from the value the path led to |
| Realtime.Pad3 | vcuui/realtime.py:60-61 | a group is exactly three characters and holds no comma |
| Realtime.GroupedValue | vcuui/realtime.py:60-61 | `f'{n:,}'` read back with its commas ignored is n, and below 1000 it is plain `str(n)` |
| Realtime.GroupedThousands | vcuui/realtime.py:60-61 | 1234 renders as '1,234' |
| Realtime.GroupedExample | vcuui/realtime.py:60-61 | 1234567 renders as '1,234,567' |
| Common.IntOfValueCases | vcuui/realtime.py:60-61 | `int()` keeps an integer, reads `str(i)` back to i and a text of decimal digits to its value, raises ValueError on the empty text and TypeError on None |
| Realtime.RxTxOfCounterTexts | vcuui/realtime.py:59-61 | the store's pair of decimal counter texts is sent as the grouped numbers, each reading back to the counter's value |
| Realtime.RxTxNoCounterFiles | vcuui/realtime.py:59-61 | the (None, None) pair stored without statistics files makes the tick raise TypeError |
| Realtime.RxTxMissing | vcuui/realtime.py:59-61 | a store without the interface's byte counters reports '0' and '0' |
| Realtime.TickPosition | vcuui/realtime.py:65-78 | the record carries the counter, the ESF status, and the store's 'gnss-pos' record or the default position |
| Realtime.Handlers.constructor | vcuui/realtime.py:24-27 | the class attributes start with no connection, counter 0 and no timer |
| Realtime.Handlers.NewHandlerAsWritten | vcuui/realtime.py:29-34 | as written: every handler resets the ESF status and makes `timer_fn` name a new timer, leaving any running one running |
| Realtime.Handlers.NewHandler | vcuui/realtime.py:29-34 | corrected: the timer is made once and later handlers keep it, so the timer runs exactly while a connection is open |
| Realtime.Handlers.Tick | vcuui/realtime.py:54-81 | the ESF status is refreshed exactly on every sixth tick; every open connection gets the same `TickInfo` record and the counter advances; an exception changes nothing |
| Realtime.Handlers.Open | vcuui/realtime.py:36-45 | adds the connection; exactly the first one gets an immediate tick, and the timer starts only when that tick returns; a raising first tick leaves the connection open without a timer; otherwise the invariant is kept |
| Realtime.Handlers.OnClose | vcuui/realtime.py:47-52 | removes the connection; the last one stops the timer `timer_fn` names; the invariant is kept |
| Realtime.OverlapAsWritten | vcuui/realtime.py:29-52 | two overlapping connections with the handler as written leave the first timer running after both closed, breaking the invariant |
| Realtime.OverlapShared | vcuui/realtime.py:29-52 | the same sequence with one shared timer stops the timer with the last connection |
| WwanModel.InitConnectsOnBearer | vcuui/wwan_model.py:52-59 | `init` moves to `connected` exactly when the modem record is truthy and holds 'bearer-ip', and publishes nothing |
| WwanModel.ConnectedFallsBack | vcuui/wwan_model.py:61-88 | `connected` falls back to `init` exactly on a lost bearer address or a ping OSError, and then publishes a delay of 0.0; a missing record keeps the link |
| WwanModel.PublishesOnPingTicks | vcuui/wwan_model.py:61-86 | 'link' is published only while connected, exactly on a lost bearer or a tick with counter 2 modulo 5; a non-zero published delay is the ping's own |
| WwanModel.GsmWorker.constructor | vcuui/wwan_model.py:32-37 | starts in `init` with counter 0 |
| WwanModel.GsmWorker.Start | vcuui/wwan_model.py:44-48 | `run` begins in `init` with counter 0 and empty link data |
| WwanModel.GsmWorker.Tick | vcuui/wwan_model.py:50-90 | one loop pass moves to the state `Step` gives; when it gives a delay, 'delay' is set in the link data and the link data is published under 'link', otherwise the store is unchanged; the counter advances |
| WwanModel.BearerUpAndDown | vcuui/wwan_model.py:50-90 | a bearer that appears and disappears leaves the watcher in `init` with a delay of 0.0 published |
| PhyInfo.PhyIdOfLink | vcuui/phy_info.py:16 | the PHY id lookup raises IndexError exactly when the link target holds no ':', and the id it gives holds no ':' |
| PhyInfo.PhyIdAfterColon | vcuui/phy_info.py:13-18 | a target `dir:id` names PHY `id`, and the sysfs directory is the mdio device of that id |
| PhyInfo.StateTrimmed | vcuui/phy_info.py:24-31 | the state is there exactly with a sysfs directory and has no whitespace at either end |
| PhyInfo.FirstClass | vcuui/phy_info.py:40-53 | finds the first SNR class the line names, scanning the classes in order; None exactly when it names none |
| PhyInfo.QualityByTable | vcuui/phy_info.py:33-55 | the if-ladder scores the first class named by the table A..G = 0, 16, 33, 50, 66, 83, 100, and a line naming none as 0 |
| PhyInfo.QualityOrdered | vcuui/phy_info.py:40-53 | the quality is one of the table's percentages; a better class scores strictly higher; 0 means Class A or no class |
| PhyInfo.NoNodeNoReadings | vcuui/phy_info.py:20-35 | without a sysfs directory (no `phydev` entry) neither state nor quality is read |
| VnStat.TrafficOfNumbers | vcuui/vnstat.py:38-52 | six numeric fields give exactly their numbers as day, month and year rx/tx |
| VnStat.ThirteenFieldsRaise | vcuui/vnstat.py:37-43 | as written, a 13-field line naming the interface raises IndexError at field 13; the corrected guard returns None |
| VnStat.GetSpec | vcuui/vnstat.py:26-56 | corrected: a result comes exactly from a run with exit code 0 whose line has at least 14 fields, names the interface and has numeric counters; it holds fields 3, 4, 8, 9, 12, 13; the only exception is ValueError |
| VnStat.GuardsAgree | vcuui/vnstat.py:37 | the written and corrected guards agree on every output except a 13-field line naming the interface |
| VnStat.IntOfDigits | vcuui/vnstat.py:46-51 | `int()` of a run of decimal digits is their value |
| VnStat.SampleLine | vcuui/vnstat.py:32-53 | the sample line in the source gives rx 34572019 and tx 50154378 for day, month and year |
| Pages.Piece | vcuui/pageinfo.py:31-34 | a piece is the header, ': ', the value, then ' ' and the unit exactly when the unit is not empty |
| Pages.FirstMissing | vcuui/pageinfo.py:22-25 | finds the first item whose key the data lacks: every earlier key is present; None exactly when all are |
| Pages.Pieces | vcuui/pageinfo.py:22-34 | one piece per item |
| Pages.PieceAt | vcuui/pageinfo.py:22-34 | the j-th piece is the j-th item's header, value and unit |
| Pages.JoinSnoc | vcuui/pageinfo.py:26-30 | appending a piece puts exactly one separator before it, and none before the first |
| Pages.NiceStep | vcuui/pageinfo.py:22-34 | one loop pass adds the separator (after the first item only) and the item's piece |
| Pages.NiceText | vcuui/pageinfo.py:21-36 | `nice` gives the pieces joined by '</br>' or ', ', or the KeyError of the first missing key |
| Pages.NiceEmptyOnlyWithoutItems | vcuui/pageinfo.py:21-36 | the text is empty exactly when there are no items |
| Pages.JoinLength | vcuui/pageinfo.py:26-30 | a join is as long as its parts plus one separator between each two, and starts with the first part |
| Pages.JoinLast | vcuui/pageinfo.py:26-34 | a join ends with its last part |
| Pages.NiceLength | vcuui/pageinfo.py:21-36 | the text holds all pieces and exactly len(items) - 1 separators |
| Pages.NiceEnds | vcuui/pageinfo.py:21-36 | the text begins with the first piece and ends with the last: no separator leads or trails |
| Pages.NiceKeyError | vcuui/pageinfo.py:24 | a KeyError happens exactly when some key is missing, and names the first missing one |
| Pages.NiceTwoItems | vcuui/pageinfo.py:21-36 | two items give 'a, b', or 'a</br>b' with `linebreak` |
| Pages.UartTextReadsBack | vcuui/pagegnss.py:84-85 | the UART text begins with the bit rate in decimal, which reads back, followed by ' bps, ' and the mode |
| Pages.AlignTextTruthy | vcuui/pagegnss.py:88-89 | 'On' exactly for a non-zero value, so the -1 of a receiver that did not answer shows 'On' |
| Pages.BuildGnss | vcuui/pagegnss.py:38-133 | the fallback page comes exactly when a lookup fails, and names the first key missing in lookup order; otherwise the title holds the serial, the table the version rows, and the data the dynamic model, NMEA protocol, UART text, alignment flag and state, and the ESF status line |
| Pages.EsfStatusLine | vcuui/pagegnss.py:107-113 | with all four ESF fields the line reads 'Fusion: …, INS: …, IMU: …, IMU Alignment: …' |
| Mm.SplitWsSpaced | vcuui/mm.py:99 | a leading blank does not change the tokens |
| Mm.SplitWsSpacedWord | vcuui/mm.py:99 | a word after a blank is the next token |
| Mm.TokensOfKeyValue | vcuui/mm.py:96-99 | `key : value rest` splits into key, ':', value and the tokens of the rest |
| Mm.ParseLineKeyValue | vcuui/mm.py:91-105 | a line `<key> : <value> …` gives that key and value, only the value's first word |
| Mm.ParseLineWithoutValue | vcuui/mm.py:98-105 | a key followed by ':' alone, or a lone word, gives the key and no value |
| Mm.ParseLineExamples | tests/test_mm_result.py:14-26 | 'key : 1' gives ('key', '1'), 'key :' gives ('key', None), and 'key:1' keeps the colon in the key with no value |
| Mm.ParseLineKeepsOneWord | tests/test_mm_result.py:67-73 | 'key : any text' keeps only 'any' |
| Mm.BuildDict | vcuui/mm.py:82-89 | the loop builds `ToDict` of the lines |
| Mm.ToDictKeys | vcuui/mm.py:82-89 | a key is in the dictionary exactly when some line has it |
| Mm.ToDictLastWins | vcuui/mm.py:82-89 | a key's value is that of the last line with the key |
| Mm.FromStdout | vcuui/mm.py:27-29 | the items are `ToDict` of the output's lines split at '\n' |
| Mm.AbsentIsNone | vcuui/mm.py:31-68 | every lookup of an absent name gives None, without raising |
| Mm.NoSlashInNumber | vcuui/mm.py:38 | a decimal number holds no '/' |
| Mm.IdOfPath | vcuui/mm.py:31-43 | an object path ending in `/<n>` gives n, a path ending in '/' gives None, and a bare number is parsed whole |
| Mm.OneEntry | vcuui/mm.py:51-68 | on a one-name result `dec` and `hex` parse its value in base 10 and 16, and raise TypeError for a name without a value |
| Mm.IdExamples | tests/test_mm_result.py:45-65 | no value, a path ending in '/', and a non-numeric id give None; a path ending in '/1' gives 1 |
| Mm.DecExamples | tests/test_mm_result.py:78-86 | 'abcdef' gives None, '12345' gives 12345 and '-12345' gives -12345 |
| Mm.HexExamples | tests/test_mm_result.py:88-96 | 'gugus' gives None, '-100' gives -256 and '1234abcd' gives 0x1234abcd |
| LegacyMm.ParseLineAgainstNewer | mm.py:21-29 | on three or more tokens the old `parseline` gives the first and third token as the newer one does; it raises IndexError exactly on two tokens and gives ('', '') exactly on fewer |
| LegacyMm.ParseLineExamples | mm.py:21-29 | 'key : value' gives (key, value), 'key :' raises IndexError, and an empty line gives ('', '') |
| LegacyMm.KeyColonTokens | mm.py:23 | 'key :' splits into exactly two tokens |
| LegacyMm.LastIdOfPath | mm.py:31-34 | a path ending in `/<n>`, or the number alone, gives n; a path ending in '/' raises ValueError |
| LegacyMm.LastIdAgainstNewer | mm.py:31-34 | whenever the old `last_id` returns a number, the newer `id` returns the same one |
| LegacyMm.FirstModemLine | mm.py:16-17 | finds the first line containing 'modem-list.value[1]', and only that one; None exactly when no line contains it |
| LegacyMm.ModemId | mm.py:11-19 | the loop returns the id of the first line naming the first modem, None when none does, and the ValueError of a non-numeric id |
| LegacyMm.FirstModemLineAt | mm.py:16-19 | a line containing the key with none before it is the one the search picks |
| LegacyMm.ModemIdOfListing | mm.py:11-19 | a listing line ending in `/<n>` after lines without the key gives modem id n |
| LegacyMm.FirstValueSpec | mm.py:44-56 | the lookup gives None exactly when every line parses without the key, the value of the first line with the key when all lines before it parse, and raises exactly at a line that raises before any line with the key |
| LegacyMm.PassedByShift | mm.py:46-49 | passing the first line then i lines of the rest is passing i + 1 lines |
| LegacyMm.Lookup | mm.py:44-56 | the loops of `state`, `signal` and `ip` give exactly `FirstValue` for their key |
| LegacyMm.UptimeOfNumber | mm.py:97-102 | a duration written as a decimal number reads back as that number |
| LegacyMm.BearerIdOfPath | mm.py:72-79 | a bearer path ending in `/<n>` gives bearer n |
| ObdClient.CodeIsInjective | vcuui/obd_client.py:155-188 | the three PID codes 0x0D, 0x05 and 0x0C are distinct, so a code names one PID |
| ObdClient.DecodedRanges | vcuui/obd_client.py:161-194 | decoding succeeds exactly with one data byte (two for the engine speed); speed is in 0..255, coolant in -40..215, engine speed in 0..16383 and is (256 A + B) / 4 rounded down |
| ObdClient.Pid.constructor | vcuui/obd_client.py:158-159 | a PID object holds -1 until it is decoded |
| ObdClient.Pid.Decode | vcuui/obd_client.py:161-194 | the value becomes the decoded one; an IndexError leaves it as it was |
| ObdClient.Filler | vcuui/obd_client.py:68-69 | n bytes, all 0x55 |
| ObdClient.PayloadLayout | vcuui/obd_client.py:63-69 | the payload is 8 bytes: 2, service 0x01, the PID, then five 0x55 |
| ObdClient.BuildPayload | vcuui/obd_client.py:63-69 | the byte-by-byte build gives exactly that payload |
| ObdClient.Le32 | vcuui/obd_client.py:71 | the CAN id field is 4 bytes |
| ObdClient.Le32RoundTrip | vcuui/obd_client.py:71-87 | reading the 4 little-endian bytes back gives the id |
| ObdClient.UnpackPack | vcuui/obd_client.py:71-87 | a packed `<IB3x8s` frame is 16 bytes and unpacks to the same id, length and data |
| ObdClient.TxFrameLayout | vcuui/obd_client.py:71-74 | the request frame is 16 bytes: DF 07 00 00, length 8, three zero pad bytes, then the payload |
| ObdClient.Answer | vcuui/obd_client.py:93-95 | `decode` gets data[3 .. data[0]]: data[0] - 2 bytes, between 1 and 4 |
| ObdClient.FirstAnswerIsFirstAccepted | vcuui/obd_client.py:81-100 | no answer exactly when every frame before the deadline is skipped; otherwise the answer is that of the first frame that is not skipped, and that frame passes the acceptance test |
| ObdClient.OtherIdIgnored | vcuui/obd_client.py:88-92 | a frame with any other masked CAN id is ignored, whatever it holds |
| ObdClient.EcuResponseAnswered | vcuui/obd_client.py:92-96 | an ECU response on 0x7E8 with n + 2, 0x41, the PID and n data bytes is accepted, and its n bytes are decoded |
| ObdClient.RecvOSErrorEndsWait | vcuui/obd_client.py:81-100 | an OSError from `recv` after any run of skipped frames is not caught: the wait raises OSError, whatever follows |
| ObdClient.WaitEndsOnRecvOSError | vcuui/obd_client.py:81-100 | that OSError leaves the wait with the PID's value unchanged |
| ObdClient.WaitForResponse | vcuui/obd_client.py:81-100 | the loop gives `WaitOutcome`: true with the decoded value at the first accepted frame, false with the value kept at the deadline, or the exception raised (a frame that does not unpack, a short answer, or an OSError from `recv`) |
| ObdClient.Query | vcuui/obd_client.py:57-79 | without all 16 bytes sent the result is false and the value is kept; otherwise the outcome is that of waiting for the response |
| ObdClient.AnswersDecode | vcuui/obd_client.py:155-200 | ECU answers give speed A, coolant A - 40 and engine speed (256 A + B) / 4; with no answer the value stays -1 |
| ObdClient.ShortEngineSpeedRaises | vcuui/obd_client.py:193-194 | a three-byte engine-speed answer carries one data byte, and decoding it raises IndexError out of the query |

## Left out

**I/O, threads and floating point**

- Subprocesses, serial ports, sockets, HTTP (pycurl), files, `os.readlink`, `time.sleep` and clocks. Their results are parameters, and logging is dropped.
- JSON serialisation in vcuui/things.py: the byte count `len(json.dumps(payload).encode())` that `_post_data` records is the parameter `bytesSent` of `Things.Things.PostData` and `Things.Things.UploadTelemetry`, not computed from the payload.
- Locks, threads and daemon start-up (`setup` methods that only start a thread). Each modelled method is one atomic step.
- Floating-point values are carried as opaque `real`s or left out:
  - the ping delay's rounding to three decimals;
  - the latency field of the WebSocket record;
  - the `float()` lookups `MmResult.number` and `Modem.signal_lte`/`signal_umts`;
  - the haversine distance of `Things._distance`, given as the boolean `moved`;
  - angles scaled by 1/100 and rounded (`imu_cfg_angles`, `auto_align_angles`, `set_imu_cfg_angles` beyond its write rule);
  - the position and speed rows of `build_gnss`.

**Parts of the source not modelled**

- vcuui/gnss.py: the serial-port helpers, `GnssWorker` and the ser2net set-up. They are only I/O around the modelled checksum and frame.
- gnss_tool.py: `GnssUBlox` `send`/`wait`/`wait_for` and the script at the end of the file. They are socket I/O.
- vcuui/gnss_model.py: `esf_status`, which extracts text with a regular expression, and the `GnssStatusWorker`/`GnssPositionWorker` threads.
- vcuui/things.py: `_info`, `_attributes` and `_send_attribute`, which copy store fields into records with no rule of their own.
- vcuui/data_model.py: `_sysinfo`, `_network` and `_disc`, which only read sysfs. They appear only as scheduled tasks.
- vcuui/mm.py:
  - the `Modem`, `Bearer` and `SIM` wrappers, which run `mmcli` and call the modelled lookups;
  - `MmResult.number`, which is floating point.
- mm.py:
  - `Modem.signal_lte`, which is floating point;
  - `MM.modem` and `setup_signal_query`, which are subprocess calls.
- vcuui/obd_client.py:
  - `_flush_rx_queue`, interface enabling and `cleanup`, which are socket and subprocess I/O;
  - the `CAN_EFF_MASK` constant, taken as 0x1FFFFFFF (the low 29 bits).
- vcuui/pagegnss.py and vcuui/pageinfo.py: template rendering and `render_page` (system information only).
- vcuui/phy_info.py: modelled as functions of the link target and the first line of each file, not as a class. Only the constructor's FileNotFoundError for a missing `phydev` link is modelled. An error opening `link_status` in `state()` or `snr_class` in `quality()` is not: such an error is uncaught and propagates.
- vcuui/transmit_queue.py: `all_entries` returns the queue's own list, so a caller could mutate it. The model returns a value.
- vcuui/data_model.py: `get_all` returns the store's own dictionary, not a copy, so a caller could mutate it or read it while a worker publishes. The model returns a value.
- Text conversions:
  - `int()` whitespace and underscore rules are not modelled;
  - whitespace is the six ASCII characters space, \t, \n, \r, \v and \f; the separators \x1c to \x1f and the Unicode spaces that `split()` and `strip()` also drop are not modelled;
  - `str()` of values other than integers is taken as given text;
  - `struct.error` and TypeError are named by strings only.

**Weaker contracts**

- DataModel.ModelWorker.Obd2PollStep: with a configured port but a falsy speed, the source raises AttributeError, because the client was never created. The model publishes nothing. Its `speed` parameter is the query's value or None and does not carry the exceptions the query can raise (struct.error, IndexError, the OSError of `recv`), which would end the worker's `run` loop.
- PhyInfo.StateTrimmed: "there exactly with a sysfs directory" assumes `link_status` can be opened; when it cannot, the source raises instead (see the vcuui/phy_info.py line above).
- Things.Things.QueueGnss: the distance test is the parameter `moved`, and the last position it compares against is not tracked.
- WwanModel.GsmWorker.Tick: the published delay is the ping's value, not rounded to three decimals.
- Realtime.Handlers.Tick: the record's latency field is left out.
- Realtime.RxTx: unpacking a text or a dictionary as the byte pair is not modelled; such a value raises TypeError in the model.
- Realtime.Handlers.Open: what tornado does with a connection whose `open` raised is not modelled; the model keeps it in the set.
- GnssModel.Gnss.SetDynamicModel: requires the model number 0..7 that the source asserts; the AssertionError that an out-of-range number from the web form raises is not modelled.
- Pages.BuildGnss:
  - the live position rows and the angle fields are left out;
  - so are the KeyErrors that a position record without 'fix', 'lon', 'lat' or 'speed' would raise.
- ObdClient.Query: the receive-queue flush before the request is left out, and so is the AttributeError `_query` raises when `setup` caught an OSError before the socket was created, leaving `self.sock` None.

## Findings

| source | as written | input that shows it | evidently intended | confidence | as-written member | corrected member |
|---|---|---|---|---|---|---|
| vcuui/vnstat.py:37-43 | the guard admits 13 fields but field 13 is read, raising IndexError | a 13-field vnstat line naming the interface, exit code 0 | require at least 14 fields | high; not executed | VnStat.ThirteenFieldsRaise | VnStat.GetSpec |
| vcuui/gnss_pos.py:79-85 | `_state_timeout` calls `model.remove`, which `Model` does not define, so the first lost gpsd connection ends the reader with AttributeError | gpsd's `next()` returning nothing once | remove 'gnss-pos' from the store and reconnect | high; not executed | GnssPos.TimeoutAsWrittenRaises | GnssPos.GnssPosition.StateTimeout |
| vcuui/realtime.py:29-52 | every handler's constructor replaces the class-level timer, so a timer started for an earlier connection is never stopped | open connection 1, open connection 2, close both | one shared timer that runs exactly while a connection is open | medium; not executed | Realtime.OverlapAsWritten | Realtime.OverlapShared |
| vcuui/gnss_model.py:492-506 | with an empty lever-arm cache and a failed poll, `lever_arm(...)` is called on None and raises AttributeError | a lever-arm read when CFG-ESFLA cannot be polled | return zero lever arms | high; not executed | GnssModel.LeverAsWrittenRaises | GnssModel.LeverReadAgrees |
| vcuui/gnss_model.py:129-131 | `rstrip('\0x00')` strips every trailing '\0', 'x' and '0', so a version text ending in '0' loses digits | protocol version text "19.20" (PROTVER=19.20) becomes "19.2" | strip only the NUL padding | high; not executed | GnssModel.SanitizeDropsDigits | GnssModel.StripNulPadding |
