# DCC signals, refresh, feedback and locks of srcpd

A Dafny model of the parts of the SRCP server that decide what a model railway hears and what its
clients are told, with proofs of what they promise.

- The NMRA DCC compiler: commands become packets, packets become bit strings, and bit strings become
  bytes whose serial waveform is the track signal. All three translation routines are here, and
  on the other side a receiver of the waveform, a packet parser and decoders, written from NMRA
  S-9.1, S-9.2, S-9.2.1 and S-9.2.3 independently of the builders.
- The queue from the command threads to the refresh thread, the packet pools and the round of the refresh.
- The feedback bus with its queue of delayed resets.
- The locomotive cache, its command queue, speed scaling and the lock of a bus.

| file | contents |
|---|---|
| `signal.dfy` | line levels, the receiver of the waveform |
| `translator_v3.dfy` | translation routine 3: bytes that share half bits, with back-ups |
| `patterns.dfy`, `search.dfy` | the pattern table and the depth-first search of routines 1 and 2 |
| `translator_v2.dfy`, `translator_v1.dfy` | routines 2 and 1 |
| `lookahead.dfy`, `stream_length.dfy` | routine 3 without back-ups; how many bytes its streams take |
| `packets.dfy`, `short_packets.dfy`, `command_patterns.dfy` | the packet grammar; which packets, and that all locomotive commands, are made of patterns |
| `builders.dfy`, `loco_command.dfy`, `programming.dfy` | bytes and bit strings of all packets, and what decoders read |
| `decoder.dfy` | the locomotive decoder |
| `stream_fits.dfy` | the streams of a command with all its functions fit |
| `track.dfy`, `accessory.dfy`, `service_mode.dfy`, `service_decoder.dfy` | from command to waveform to decoder, on the main track and on the programming track |
| `ring.dfy`, `ddl_queue.dfy` | ring buffers, the packet queue and its interleavings |
| `packet_pool.dfy`, `refresh.dfy` | pools and refresh |
| `command_station.dfy`, `delivery.dfy` | a command with its effect on pool and queue; what the refresh repeats and decoders hear |
| `feedback.dfy` | feedback |
| `speed.dfy`, `loco_cache.dfy`, `srcp.dfy` | locomotives, lock, server answers |

Routines that change state step by step are methods and classes here, each proved against a function
of its inputs or of the old state; the lemmas are about those functions.

## What the code does that one might not expect

- Routine 3 starts reading at the first of the two 1s it puts in front (line 545 resets the pointer
  that line 529 set to the second). It loops for ever on exactly the bit strings of
  `RunsForeverIffTrapped`, and sends a signal with an error for those that start 1110. The
  preambles in use, 15 and 30 1s, avoid both.
- Routines 1 and 2 count one byte more than they need. What is stated is about the bytes before it; that
  byte can be the remains of an abandoned try.
- The comment at `src/ddl_nmra.c:110` lists packets that routine 1 cannot translate: speed packets for short
  addresses, of three bytes and, with 128 steps, of four. All of them, and all packets of functions, have a translation
  (`CommandTranslatable`), which routine 2 finds for bit strings of less than 80 bits; routine 1 misses them for its limit on detours. A packet without any
  translation comes from writing variables on the main track (`PomWriteCanFail`).
- Step 30 of 29 is accepted and received as stop; the server admits 28 and 128 steps only (`src/ddl.c:1425-1440`), of
  which every one arrives (`AdmittedOrders`). With a maximum of 0 the client's speed is passed on unscaled, and a
  SET beyond the steps is answered with success and then refused by the driver (`SetIsCarriedOutIff`). Variable 1025 is accepted in direct mode and sent as variable 1;
  in paged mode 0 down to -6 are accepted and sent as other variables (`PagedVariableIff`). A verify of variable 1 below 128
  looks at register 1 of whatever page is set (`DirectCvByte`).
- A Maerklin locomotive with address 81, the idle address, drops out of the refresh in exactly the cases of `ShownAreUpdatedIff`.
- The packet queue has no overflow check: packet number 2000 makes the queue look empty.
- A feedback reset that waits is never cancelled, so that a short interruption is reported after all; the
  comment in `check_reset_fb` says otherwise. A reset left over from an earlier opening can cut the waiting
  time of the next one short (`WaitIsCutShortIff`, `LeftoverResetIsReachable`).
- A locomotive that was never initialised is initialised by its first SET for protocol P. A DDL bus registers M and
  N only (`src/ddl.c:1765-1776`), so there the SET succeeds and what is queued has neither protocol nor steps (`FreshLocoStopsIff`).
- The lock of a bus protects exactly the initialised addresses. The state a termination sets before it reports a stop is only
  in a local copy, so that the code that reacts to it is dead (`TerminatingIsDead`).

## Model

| member | source | states |
|---|---|---|
| Signal.HearByteIsTenLevels | src/ddl_nmra.c:68-88 | Listening to a byte is ten steps of the receiver: a start bit, eight data bits with the least significant first, and a stop bit. |
| Signal.WavesAreHeard | src/ddl_nmra.c:80-81 | The receiver, for every line given by the lengths of its half waves and either polarity: short and short is heard as a 1, long and long as a 0, and the line is in order if and only if there is nothing else on it. |
| Signal.HearAppend | src/ddl_nmra.c:561-593 | What is heard of two streams sent one after the other is what is heard of the second after the first: the ground for sending packets back to back. |
| Signal.ClearPacket | src/ddl_nmra.c:559 | Wiping a packet stream leaves only zeros. |
| TranslatorV3.Entry | src/ddl_nmra.c:305-338 | The translation table of routine 3: every entry moves on by one to five bits and no entry is the zero byte. |
| TranslatorV3.CellSound | src/ddl_nmra.c:305-338 | For each of the 32 indices and both tries, in whichever half wave of whichever bit the receiver is: the byte completes the bit in progress, sends the bits the entry stands for and leaves the receiver in the first half wave of the next bit, except for 111110. |
| TranslatorV3.SecondTryAvoidsHit | src/ddl_nmra.c:305-338 | Backing up always finds an alternative: the second try is one bit shorter, still moves on by two bits and enters the run of 1s where it cannot come out at 111110 again. |
| TranslatorV3.StepControl | src/ddl_nmra.c:561-593 | The loop invariant of routine 3 holds through plain steps and back-ups, a back-up never goes to the place of the last one, and every step makes progress: a later choice, a choice with fewer tries left, or a later reading position. |
| TranslatorV3.StepSound | src/ddl_nmra.c:561-593 | At every step, back-ups included, the bytes sent so far are heard without error as the bits read so far and end in the right half bit, so the half bits of neighbouring bytes agree. |
| TranslatorV3.TranslationSends | src/ddl_nmra.c:518-593 | Unless the bit string starts 1110 or traps the routine, the waveform is the signal for a beginning of the buffer; if the packet stream is not full that is the whole input and at most four of the appended 1s. |
| TranslatorV3.TranslationMeaning | src/ddl_nmra.c:518-593 | Meaning is preserved, and exactly when: a packet stream that is not full is heard as 11, the bits and up to four 1s, ending in a half 1, if and only if the bits do not start 1110. |
| TranslatorV3.MisreadIsHeardAsError | src/ddl_nmra.c:561-587 | For bits that start 1110 the routine sends 111111 in place of 111110 and every receiver reports an error. |
| TranslatorV3.RunsForeverIffTrapped | src/ddl_nmra.c:545-593 | The loop runs for ever if and only if the leading run of 1s (a 0 behind it), with the two 1s put in front, is a multiple of five from 10 to 400. |
| TranslatorV3.BacksUpOncePerRun | src/ddl_nmra.c:561-587 | A run of 1s makes the routine back up at most once, over the whole rest of the run of the loop, and the complaint that the restart does not work is never logged. |
| TranslatorV3.TranslationSize | src/ddl_nmra.c:561-593 | n bits give at most (n+1)/2+1 bytes, none of them zero; up to 156 bits are never cut off by the size of the packet stream. |
| TranslatorV3.LeadSize | src/ddl_nmra.c:561-593 | A long preamble costs one byte per five 1s: a sharper bound on the length. |
| TranslatorV3.StreamsJoin | src/ddl_nmra.c:1484-1525 | Two packet streams of routine 3 sent back to back are heard as both bit strings with nothing but 1s between them. |
| TranslatorV3.Translate | src/ddl_nmra.c:518-593 | The routine itself, on its array: it ends, returns the length of the specified packet stream, holds exactly those bytes and zeros behind them; bytes of abandoned tries never remain. |
| Lookahead.TranslationIsAhead | src/ddl_nmra.c:561-593 | Back-ups refine a look ahead: if either is shorter than the packet stream, the routine sends exactly the bytes of a one-pass translation that takes the second try where the first would lead onto 111110. |
| StreamLength.StepWorth | src/ddl_nmra.c:305-338 | Every byte uses up a worth of four, where a 0 is worth two and a 1 one, but two if it begins a run of three or of a multiple of five: a bound on the length that knows of runs of 1s anywhere. |
| StreamLength.SparseTotal | src/ddl_nmra.c:305-338 | A 1 is worth at most four thirds on average. |
| StreamLength.ThroughPacket | src/ddl_nmra.c:561-593 | Bytes for a packet and the 51 1s behind it, by the worth of its bits and by how far before the next packet the run is left. |
| Patterns.PatternPlays | src/ddl_nmra.c:284-300 | From a line at rest, each byte of the table is heard as exactly its bits and leaves the line at rest. |
| Patterns.SpellCarried | src/ddl_nmra.c:284-300 | The bytes of any list of patterns are heard, without error, as the bits the patterns spell. |
| Patterns.Push | src/ddl_nmra.c:501-507 | Taking a pattern leaves fewer steps in the whole search: half of the termination argument of routines 1 and 2. |
| Patterns.Pop | src/ddl_nmra.c:486-493 | Going back takes off exactly the bits of the last pattern and leaves the steps of the other patterns of that level: the other half. |
| Search.Ascend | src/ddl_nmra.c:486-493 | Backtracking is complete: a level is left only when no pattern in it starts a translation of what is left. |
| TranslatorV2.Translate | src/ddl_nmra.c:456-516 | Routine 2 ends and is a sound and complete search: nonzero only if the bits have a translation, and then the bytes before the last one counted are heard as the bits and up to four 1s; zero only if there is no translation or the bits are 80 or more. |
| TranslatorV2.TranslatableIffFlexible | src/ddl_nmra.c:284-300 | Which bit strings have a translation, in closed form: only the lengths of the runs of 1s, modulo five, decide. |
| TranslatorV1.UntranslatableEndsInOne | src/ddl_nmra.c:392-396 | A bit string whose end is no pattern ends in 1, which is what the correction of routine 1 relies on. |
| TranslatorV1.CutOnes | src/ddl_nmra.c:436-447 | Appending 1s never makes a bit string translatable that was not, but for a tail. |
| TranslatorV1.TailPadded | src/ddl_nmra.c:436-447 | A bit string with a translation is made of whole patterns once up to four 1s are appended: restarts with one more 1 are enough. |
| TranslatorV1.Translate | src/ddl_nmra.c:373-454 | Routine 1 ends through all restarts; a nonzero result is heard as the bits followed by 1s, or by 00 after a correction, and the bits have a translation; a forced search of 6 to 74 bits that start with a preamble fails only if there is no translation. |
| ShortPackets.CoverableTranslatable | src/ddl_nmra.c:284-300 | A packet has a translation if the slack for taking 1s along lasts: a byte costs at most one of three, and a byte that starts with a 0 restores it. |
| ShortPackets.ShortPacketTranslatable | src/ddl_nmra.c:284-300 | So every packet of up to three bytes has a translation, whatever its bytes are. |
| CommandPatterns.CommandTranslatable | src/ddl_nmra.c:110-133 | More than the comment hopes of version 2: both bit strings of every accepted command have a translation - 14, 28 or 128 steps, short or long addresses, any groups of functions, whatever the bytes and whatever a packet leaves for the next one to take along. |
| CommandPatterns.FiveBitsFrom | src/ddl_nmra.c:284-300 | A block of five bits behind a 0 that can still take along one 1 costs nothing the next bytes need: what makes every first byte of a long address work. |
| ShortPackets.FourBytesCanFail | src/ddl_nmra.c:284-300 | Of the table alone three bytes are the limit: F7 F7 F7 F7, with a correct error detection byte, has no translation. |
| ShortPackets.PomWriteCanFail | src/ddl_nmra.c:1159-1203 | A command of the program without a translation: writing 247 to variable 1008 of locomotive 1 on the main track, packet 01 EF EF F7 F6. |
| AccessoryCommand.TranslateBitstream | src/ddl_nmra.c:596-616 | The choice of the routine: with each of the three a nonzero result is understood by a receiver, 0 is returned for any other version, and for short bit strings only if there is no translation. Routine 1 alone needs bit strings that fit its buffer. |
| AccessoryCommand.FirstHeard | src/ddl_nmra.c:596-616 | In whichever way a packet is understood - between 1s, before 1s or before 00 - it is the first packet read from the signal. |
| AccessoryCommand.CompNmraAccessory | src/ddl_nmra.c:726-794 | Accessory commands end to end with each of the three routines: status 0 exactly for valid arguments, and the decoder reads from the waveform which output of which number to switch on or off. |
| Packets.ByteRoundTrip | src/ddl_nmra.c:625-638 | Reading the eight characters of a byte gives the byte. |
| Packets.ReadFramed | src/ddl_nmra.c:1098-1109 | Bytes framed by 0s and ended by a 1 are read back, whatever follows. |
| Packets.ParseStream | src/ddl_nmra.c:1098-1109 | The bit string of any list of packets with proper preambles, with any number of 1s behind it, parses back to exactly that list. |
| Packets.SealedChecks | src/ddl_nmra.c:710-722 | The XOR over all bytes of a packet with its error detection byte is 0. |
| Builders.CalcSingleByte | src/ddl_nmra.c:625-638 | The characters are the lower eight bits of the value, most significant first. |
| Builders.XorTwoBytes | src/ddl_nmra.c:710-722 | Characters of the XOR. |
| Builders.XorBytes | src/ddl_nmra.c:710-722 | Character by character it is the XOR of the two bytes. |
| Builders.CalcBaselineSpeedByte | src/ddl_nmra.c:648-654 | The baseline byte, character by character. |
| Builders.Calc28spstSpeedByte | src/ddl_nmra.c:657-671 | The byte for 28 speed steps, character by character. |
| Builders.CalcFunctionGroupOneByte | src/ddl_nmra.c:674-683 | The byte for F0 to F4. |
| Builders.CalcFunctionGroupTwoByte | src/ddl_nmra.c:686-699 | The byte for F5 to F8 or F9 to F12. |
| Builders.Calc128spstAdvOpBytes | src/ddl_nmra.c:701-708 | The two bytes for 128 speed steps. |
| LocoCommand.CalcAddressStream | src/ddl_nmra.c:998-1026 | The beginning of every packet of a locomotive, and the XOR of its address bytes, for every mode. |
| LocoCommand.CalcFunctionStream | src/ddl_nmra.c:807-881 | The two bit strings are those of the function packets of the groups that the number of functions asks for. |
| LocoCommand.LocoBitstreams | src/ddl_nmra.c:1083-1120 | The bit strings of a command are those of its packets. |
| LocoCommand.AddressDecodes | src/ddl_nmra.c:998-1026 | A decoder finds in the address bytes exactly the address, short or long, and behind them the instruction. |
| LocoCommand.SpeedObeyed | src/ddl_nmra.c:1085-1104 | The speed instruction sets exactly the direction and the speed, and F0 with 14 steps, and nothing else. |
| LocoCommand.SpeedArrivesIff | src/ddl_nmra.c:1085-1104 | The speed is received as commanded if and only if it is not step 30 of 29. |
| LocoCommand.Step30Of29Stops | src/ddl_nmra.c:657-671 | The one command the range check accepts that is received as another one: step 30 of 29 is received as stop. |
| LocoCommand.GroupOneObeyed | src/ddl_nmra.c:674-683 | The instruction sets F0 to F4 to their bits of the function word and no other function. |
| LocoCommand.GroupTwoObeyed | src/ddl_nmra.c:686-699 | The same for F5 to F8. |
| LocoCommand.GroupThreeObeyed | src/ddl_nmra.c:686-699 | The same for F9 to F12. |
| LocoCommand.ExpansionObeyed | src/ddl_nmra.c:851-878 | The same for F13 to F20 and F21 to F28. |
| LocoCommand.UpdatesTogether | src/ddl_nmra.c:807-881 | The groups, in the order in which both streams send them, set every function up to the last group sent and keep the others. |
| LocoCommand.CommandExecuted | src/ddl_nmra.c:1042-1145 | A decoder that executes the packets of both streams has exactly the commanded direction, speed and functions, whatever its state was. |
| Track.PreambleIsSafe | src/ddl_nmra.c:340 | Preambles whose length plus two is no multiple of five, as the 15 and 30 in use, keep clear of the trap and the misreading of routine 3. |
| Track.Delivered | src/ddl_nmra.c:518-593 | A packet stream of routine 3 that fits is received as the packets it was made for. |
| Track.PacketsCheckAndWait | src/ddl_nmra.c:807-881 | Every packet of a command has a correct error detection byte, and 50 1s go before each one that is not the first of its stream. |
| StreamFits.SpeedOnes | src/ddl_nmra.c:710-722 | What the error detection byte is worth here: it puts at least eight more 1s into the speed packet of a long address. |
| StreamFits.GroupCells | src/ddl_nmra.c:807-881 | The packet of F5 to F8 costs at most 26 bytes with the 1s behind it, however it is entered; one more from four bits before. |
| StreamFits.ThreeFit | src/ddl_nmra.c:807-881 | Three packets of the kinds of a command with all its functions take at most 79 bytes. |
| StreamFits.ThreePacketsFit | src/ddl_nmra.c:807-881 | So they never fill the packet stream. |
| LocoCommand.StreamsExecuted | src/ddl_nmra.c:1083-1120 | Either stream alone does its part: the first one direction, speed, F5 to F8 and F13 to F20, the second one F0 to F4, F9 to F12 and F21 to F28. |
| LocoCommand.EffectsTogether | src/ddl_nmra.c:807-881 | Heard in either order and any number of times the two streams come to the command: they commute and repeating one changes nothing, which is what a refresh needs that sends them one at a time. |
| Track.StreamsHeard | src/ddl_nmra.c:1042-1145 | The same for the two waveforms. |
| Track.CommandHeard | src/ddl_nmra.c:1042-1145 | End to end: the waveforms of both streams leave the addressed decoder with exactly what was commanded, for every number of functions. |
| Track.CommandNotHeard | src/ddl_nmra.c:1042-1145 | Every other decoder hears both streams without effect. |
| Track.CommandFits | src/ddl_nmra.c:1042-1145 | Both streams of every accepted command fit, with any number of functions. |
| Track.CompNmraMultiFunc | src/ddl_nmra.c:1042-1145 | The command on its arrays: refused exactly for the arguments the code refuses; otherwise what the arrays hold is shorter than the packet stream and has the effect of the command on every state of its decoder and none on any other decoder, for all addresses, both modes, all speeds and functions. |
| CommandStation.KeysFit | src/ddl_nmra.c:1066-1072 | Every accepted command has its place in the pool, within 1..10367 and never the idle address, and two commands share a place exactly if they are for the same decoder. |
| CommandStation.Execute | src/ddl_nmra.c:1042-1145 | The whole command: refused commands change neither pool nor queue; an accepted one replaces exactly its address in the pool and, while there is room, queues one or two entries, the bytes of which do their part of the order in its decoder and nothing in any other. |
| CommandStation.AllowedIffAdmitted | src/ddl.c:2039-2050 | With the 28 or 128 steps of the driver a command is accepted if and only if address and direction are in range and, but for the emergency stop, the step is -1 (a stop) or 0 up to the number of steps; none accepted is the one that arrives as another. |
| CommandStation.AdmittedOrders | src/ddl.c:2039-2050 | The whole decoder after an admitted command: it runs forwards exactly for direction 1, at exactly the step of the command (from 126 on as 127, stop for 0 and -1), an emergency stop is speed 1 backwards, its functions up to the last group sent are the bits of the function word and the others stay; the decoder is the short address for version 1 up to 127 and else the long one. |
| CommandStation.SetIsCarriedOutIff | src/srcp-gl.c:103-165 | From the client to the driver: a SET for an initialised locomotive that the lock lets through and that finds room is answered with success, and the driver then accepts it if and only if address and direction are in range and it is an emergency stop, the maximum is not 0, or the speed is a step already. |
| CommandStation.SetIsHeard | src/srcp-gl.c:103-165 | From the client to the decoder: what the client said is what the decoder does - its direction, its speed scaled to the steps, its functions, and an emergency stop. |
| CommandStation.RefreshRepeatsLastOrder | src/ddl_nmra.c:1131-1142 | Over all runs of commands to any locomotives, refused ones among them, what the pool holds for a decoder is heard by it as the last command accepted for it. |
| Delivery.RunsOrdered | src/ddl_nmra.c:1131-1142 | Over all these runs every known address holds the packets of an order for it. |
| Delivery.LastOrderIsDelivered | src/ddl.c:985-1009 | Refresh and decoders together, with updates in between: wherever the cursor stands, and whatever is ordered for other decoders between the calls, a decoder that hears as many calls as the final list has packets ends with the last command accepted for it, whatever state it was in. |
| Programming.AccessoryBitstream | src/ddl_nmra.c:750-781 | The accessory packet, or refusal, for all arguments. |
| Programming.AccessoryRead | src/ddl_nmra.c:759-768 | The decoder reads number, on or off and output from the two bytes. |
| Programming.CalcByteProgramStream | src/ddl_nmra.c:893-934 | The end of a packet that writes or verifies a variable. |
| Programming.CalcBitProgramStream | src/ddl_nmra.c:946-988 | The end of a packet that writes or verifies a bit. |
| Programming.PomByteBitstream | src/ddl_nmra.c:1159-1203 | The packet for writing a variable on the main track, or refusal, for all arguments. |
| Programming.PomBitBitstream | src/ddl_nmra.c:1217-1262 | The same for a bit; variable 1 is refused. |
| Programming.PomByteIsRead | src/ddl_nmra.c:1159-1203 | The decoder of the address, and no other, reads a write of this variable on the main track with this value. |
| Programming.PomBitIsRead | src/ddl_nmra.c:1217-1262 | The same for a bit. |
| Programming.RegisterBitstream | src/ddl_nmra.c:1411-1448 | The register packet of service mode. |
| Programming.DirectByteBitstream | src/ddl_nmra.c:1700-1709 | The direct mode packet for a variable. |
| Programming.DirectBitBitstream | src/ddl_nmra.c:1805-1817 | The direct mode packet for a bit. |
| Programming.ByteRead | src/ddl_nmra.c:893-934 | A decoder reads variable, value and write or verify from the three bytes, on the main track and in service mode. |
| Programming.BitRead | src/ddl_nmra.c:946-988 | A decoder reads variable, bit, value and write or verify. |
| Programming.RegisterRead | src/ddl_nmra.c:1411-1448 | A decoder reads register, value and write or verify. |
| Programming.DirectByteReadIff | src/ddl_nmra.c:1691-1693 | The range check lets variable 1025 through: the packet is read as meant if and only if the variable is at most 1024, and 1025 is read as variable 1. |
| ServiceMode.BearsJoin | src/ddl_nmra.c:1484-1525 | Bit strings of packets, one after the other, are the bit string of both lists of packets. |
| ServiceMode.DeliversJoin | src/ddl_nmra.c:1484-1525 | The same for packet streams on the line. |
| ServiceMode.OnePacketDelivers | src/ddl_nmra.c:1281-1304 | A packet with the long preamble is translated correctly, to at most 21 bytes, 26 for one of four bytes, none of them zero. |
| ServiceMode.DeliveredIsReceived | src/ddl_nmra.c:1484-1525 | What is delivered is parsed by a receiver as exactly those packets. |
| ServiceMode.AppendTimes | src/ddl_nmra.c:1488-1513 | Appending a packet stream as a C string adds all of its bytes every time, and that many packets are heard. |
| ServiceMode.FixedPackets | src/ddl_nmra.c:1281-1287 | The literal bit strings are the reset, idle and page preset packets. |
| ServiceMode.SmInit | src/ddl_nmra.c:1289-1304 | The three fixed packet streams are delivered as these packets. |
| ServiceMode.Phregister | src/ddl_nmra.c:1460-1541 | For every register, value and direction the length computed is the length of the stream assembled, it fits the buffer, and the line carries exactly the counted idle, reset, page preset and data packets. On a decoder after S-9.2.3, whatever its page and memory, a write leaves exactly the register with the value (register 5 is variable 29, 6 the page, the others the variables of their number) and a verify is acknowledged exactly if the register of the page that is set has the value, and changes nothing. |
| ServiceMode.Page | src/ddl_nmra.c:1552-1622 | The same for paged mode: whatever page was set before, exactly the variable of this page and register has the value afterwards; a verify changes no variable. |
| ServiceMode.PagedVariableIff | src/ddl_nmra.c:1893-1911 | Page and register of a variable: the range check lets 1 to 1020 and 0 down to -6 through, and the variable meant is the one reached if and only if it is 1 to 1020. |
| ServiceMode.PageCv | src/ddl_nmra.c:1906-1926 | So a paged write of variable 1 to 1020 writes exactly that variable. |
| ServiceMode.DirectCvByte | src/ddl_nmra.c:1674-1747 | The same for variables in direct mode: a write leaves exactly that variable with the value, also for variable 1 below 128, which goes to register 1, and 1025 is written to variable 1; a verify is acknowledged exactly if the variable has the value, but for variable 1 below 128, which is looked for on the page that is set. |
| ServiceMode.DirectCvBit | src/ddl_nmra.c:1782-1843 | The same for bits in direct mode. |
| ServiceMode.GetCvByte | src/ddl_nmra.c:1877-1886 | Reading a variable by verifying its eight bits returns its value, for every decoder. |
| ServiceMode.GetPhregister | src/ddl_nmra.c:1654-1664 | Reading a register by trying all values returns the value it has, or 256 exactly if it has none. |
| ServiceDecoder.WriteIsPerformed | src/ddl_nmra.c:1488-1513 | Whatever state a decoder is in, the packets of a write first set its page and then do what the data packet says, once. |
| ServiceDecoder.ShortIsPerformed | src/ddl_nmra.c:1516-1527 | The packets of a verify or of direct mode open service mode and do what the data packet says, once. |
| Ring.PutContents | src/ddl.c:131-158 | Writing a slot appends to the contents, and makes a ring with one free slot look empty. |
| Ring.DropContents | src/ddl.c:160-193 | Reading takes the oldest element. |
| DdlQueue.PacketQueue.Add | src/ddl.c:131-158 | The new contents for every state, overflow included; while there is room the last entry holds the bytes of the packet, zeros up to the packet size, and the type, size and address given. |
| DdlQueue.PacketQueue.Get | src/ddl.c:160-193 | The oldest packet with its type, size and address, or QEMPTY and no change. |
| DdlQueue.GotIsPrefixOfSent | src/ddl.c:126-193 | Over every interleaving of command threads and the refresh thread that does not overflow, what was taken is a prefix of what was added and the rest is still queued, in order. |
| DdlQueue.OverflowEmptiesQueue | src/ddl.c:131-158 | Adding to a full queue makes all 2000 packets invisible: the bound is needed. |
| DdlQueue.FifoIffNoOverflow | src/ddl.c:126-193 | A run behaves as a FIFO all the way if and only if it never adds to a full queue. |
| PacketPool.PoolIsLastWriteMap | src/ddl.c:631-681 | After any updates: known are exactly the updated addresses, each once, each with its latest packets; the idle entry leaves with the first and never returns. |
| PacketPool.KnownHavePackets | src/ddl.c:631-681 | Every known address has packets. |
| PacketPool.KnownAreUpdatedIff | src/ddl.c:501-545 | With a locomotive at the idle address too, over all runs: the list is the set of updated addresses if and only if the idle address was not updated before the first other one, or again after it; while nothing else is updated, if its updates are even in number. |
| PacketPool.ShownAreUpdatedIff | src/ddl.c:501-545 | The same for what the refresh goes through, which falls back on the idle entry when the list is empty: only an idle address updated first and not again is lost. |
| PacketPool.IdleAddressIsForgotten | src/ddl.c:539-544 | The shortest run that loses it. |
| PacketPool.UpdateKeepsPlaces | src/ddl.c:501-545 | What the refresh goes through never gets shorter, and addresses keep their places. |
| PacketPool.DistinctFit | src/ddl.c:631-681 | Pigeonhole: different addresses are no more than there are addresses. |
| PacketPool.PoolFits | src/ddl.c:631-681 | There are at most 10366 known addresses, so that every index stays in its array. |
| PacketPool.NmraPool.constructor | src/ddl.c:582-629 | The pool with its idle packet at address 128. |
| ServiceMode.PoolIdleIsReceived | src/ddl.c:585-621 | The literal bit string the pool starts with fits the packet stream and is received as the idle packet FF 00 FF. |
| PacketPool.NmraPool.Lookup | src/ddl.c:638-642 | The lookup looks at one entry behind the list and still finds exactly the known addresses. |
| PacketPool.NmraPool.Update | src/ddl.c:631-681 | The update on the arrays is the update of the abstract pool. |
| PacketPool.MaerklinPool.constructor | src/ddl.c:442-494 | The pool with its idle packet at address 81. |
| PacketPool.MaerklinPool.Lookup | src/ddl.c:511-514 | The lookup finds exactly the known addresses. |
| PacketPool.MaerklinPool.Update | src/ddl.c:501-545 | The update on the arrays is the update of the abstract pool, for every address, the idle one and an empty list included. |
| PacketPool.MaerklinFits | src/ddl.c:501-545 | A list that does not have an address has room for it. |
| Refresh.Refresher.RefreshLoco | src/ddl.c:947-1012 | Which packet of which locomotive a call sends, how the cursors move and whose turn is next. |
| Refresh.Refresher.RefreshMaerklin | src/ddl.c:952-984 | The call for Maerklin. |
| Refresh.Refresher.RefreshNmra | src/ddl.c:985-1009 | The call for NMRA. |
| Refresh.RoundSendsEachOnce | src/ddl.c:947-1012 | Within one round of calls the cursor is on each packet of each known locomotive exactly once, and then back where it was. |
| Refresh.MaerklinRound | src/ddl.c:952-984 | What goes out: after any updates, and from any cursor, the calls of one round send packet, f1, f2, f3 and f4 of the last update of each address on the list, in order. |
| Refresh.NmraRound | src/ddl.c:985-1009 | The same for the two packets of each NMRA address. |
| Refresh.AlwaysReady | src/ddl.c:947-1012 | Whatever is updated between the calls, the cursor stays on the list and never meets an address without packets. |
| Refresh.KnownAreServed | src/ddl.c:947-1012 | Fairness with updates between the calls: as many calls as the final list has packets send every packet of every locomotive known at the start. |
| Refresh.ProtocolsAlternate | src/ddl.c:1010-1011 | With both protocols enabled the calls alternate, and each protocol goes through its round as if it were alone. |
| Feedback.FeedbackBus.QueueResetFB | src/srcp-fb.c:113-146 | Appends to the waiting resets. |
| Feedback.FeedbackBus.UpdateFB | src/srcp-fb.c:166-244 | One sample on the tables is one step of the abstract bus; a port that does not exist is refused and changes nothing. |
| Feedback.FeedbackBus.SetFBmodul | src/srcp-fb.c:247-283 | A module of 4, 8 or 16 contacts in either bit order is exactly the run of its samples; the answer is that of the last contact. |
| Feedback.FeedbackBus.GetNextFB | src/srcp-fb.c:63-88 | The oldest waiting reset, if there is one. |
| Feedback.FeedbackBus.UnqueueNextFB | src/srcp-fb.c:91-111 | Takes off the oldest waiting reset. |
| Feedback.FeedbackBus.CheckResetFB | src/srcp-fb.c:371-427 | The loop works off the waiting resets as the abstract bus does. |
| Feedback.LogIsFaithful | src/srcp-fb.c:36-42 | In every reachable state the messages sent replay to the contact table, the messages of each contact alternate between 1 and 0, and a reset waits only for a contact reported 1. |
| Feedback.CancelIsDead | src/srcp-fb.c:216-218 | The branch that would take a waiting reset back is never taken. |
| Feedback.RunSorted | src/srcp-fb.c:371-427 | With a clock that does not run backwards the waiting resets are in order of time, none later than the last event. |
| Feedback.SampledZeroIsReported | src/srcp-fb.c:166-244 | Bounded response: a contact sampled 0 at t gets a report of 0 by the first check at t + min_time, whatever is sampled in between. |
| Feedback.OpenContactIsReportedOpen | src/srcp-fb.c:371-427 | If it is not sampled 1 again, the table says 0 after that check. |
| Feedback.CheckOpensIff | src/srcp-fb.c:371-427 | A check reports a waiting contact open if and only if some reset of the contact is due. |
| Feedback.WaitIsCutShortIff | src/srcp-fb.c:371-427 | Over any run within the waiting time of a contact sampled 0 and not 1 again: it is reported 0 too early if and only if some check comes when a reset left over from before is due. |
| Feedback.LeftoverResetIsReachable | src/srcp-fb.c:371-427 | Such a reset is left over in a run from the start: of two contacts that open, the one sampled 0 twice closes, opens again, and is reported open after 1 unit of time instead of 10. |
| Feedback.OpeningIsReportedOnTime | src/srcp-fb.c:166-244 | Without an older reset a contact sampled 0 at t is reported 1 until t + min_time and 0 by the first check from then on, over all runs and whatever it is sampled as in between. |
| Feedback.GlitchIsReported | src/srcp-fb.c:371-377 | So a short interruption is not suppressed: on every bus, a contact that is occupied again within the waiting time is still reported 0. |
| Feedback.NoWaitIsLastSample | src/srcp-fb.c:189-194 | With min_time 0 the table is the array of last samples, and nothing is ever queued. |
| Feedback.SampledOneIsReported | src/srcp-fb.c:212-239 | In every reachable state a contact sampled 1 is reported 1 at once, with any waiting time. |
| Feedback.MessagesTellSampleTimes | src/srcp-fb.c:166-244 | Over every run each message has the time of a sample of that contact with that value, also after a waiting time, and the table has the time of the last message. |
| Feedback.ModuleShows | src/srcp-fb.c:247-283 | Without a waiting time, module m of n contacts shows its bits on the contacts from (m - 1) * n + 1 on, lowest or highest bit first, and no other contact changes. |
| Speed.CalcSpeed | src/srcp-gl.c:61-83 | The statements of the program compute the specified step. |
| Speed.ScaleRounds | src/srcp-gl.c:61-83 | The step is the nearest to vs * n_fs / vmax, halves up, but 1 where that would turn a nonzero speed into 0; 0 exactly for speed 0. |
| Speed.ScaleInRange | src/srcp-gl.c:61-83 | The step is between 0 and n_fs. |
| Speed.NegativeMaximum | src/srcp-gl.c:61-83 | A negative maximum gives full speed, whatever the speed. |
| Speed.ScaleOrPass | src/srcp-gl.c:61-83 | For every speed and every maximum: the step is between 0 and n_fs, but with maximum 0 the speed is passed on as it is. |
| Speed.ScaleMonotone | src/srcp-gl.c:61-83 | A higher speed never gives a lower step. |
| Speed.ScaleUpAndBack | src/srcp-gl.c:61-83 | Scaling to a range at least as fine and back is the identity. |
| LocoCache.Enqueue | src/srcp-gl.c:103-165 | The mutual recursion with the initialisation ends; it keeps all initialised locomotives and the lock and queues at most two commands. |
| LocoCache.Init | src/srcp-gl.c:244-277 | Success exactly if protocol and driver agree; without success nothing changes. |
| LocoCache.LocoBus.EnqueueGL | src/srcp-gl.c:103-165 | Queueing on the tables is queueing on the abstract bus: a FIFO of 49 commands. |
| LocoCache.LocoBus.DequeueNextGL | src/srcp-gl.c:187-197 | Takes the oldest command, or reports that there is none and changes nothing. |
| LocoCache.LocoBus.CacheInitGL | src/srcp-gl.c:244-277 | Initialisation on the tables. |
| LocoCache.LocoBus.CacheSetGL | src/srcp-gl.c:216-242 | A report of the driver on the tables; a terminating locomotive is cleared. |
| LocoCache.LocoBus.CacheTermGL | src/srcp-gl.c:280-312 | Termination on the tables: a moving locomotive is stopped first. |
| LocoCache.LocoBus.CacheLockGL | src/srcp-gl.c:377-399 | Locking on the tables. |
| LocoCache.LocoBus.CacheGetLockGL | src/srcp-gl.c:401-411 | The holder of the lock; unchanged for an address that is not initialised. |
| LocoCache.LocoBus.CacheUnlockGL | src/srcp-gl.c:429-449 | Unlocking on the tables. |
| LocoCache.LocoBus.UnlockGLBySessionid | src/srcp-gl.c:454-469 | The loop over all addresses. |
| LocoCache.LocoBus.HandleSetGL | src/srcp-command.c:60-72 | The guarded SET. |
| LocoCache.LocoBus.HandleInitGL | src/srcp-command.c:705-715 | The guarded INIT. |
| LocoCache.LocoBus.HandleTermGL | src/srcp-command.c:593-606 | The guarded TERM, with the lock variable that is not initialised. |
| LocoCache.FreshLocoStopsFirst | src/srcp-gl.c:107-141 | A command for a fresh locomotive queues a stop and then the scaled command; with room for one entry only the stop is queued and the command refused. |
| LocoCache.FreshLocoStopsIff | src/srcp-gl.c:103-165 | For every driver: a command for a fresh locomotive is answered with success; it initialises the locomotive and is preceded by a stop if and only if the driver takes protocol P. Otherwise an entry without protocol and, for an address never used, without steps is queued. |
| LocoCache.SetIsQueuedIff | src/srcp-command.c:60-72 | A SET for an initialised locomotive queues exactly one entry, with the direction, functions and scaled speed of the client and the protocol, version and numbers of the locomotive, if and only if the bus is free, held by the session or it is an emergency stop, and there is room; otherwise nothing changes. |
| LocoCache.InitTakesEffect | src/srcp-command.c:705-715 | An INIT with any protocol succeeds exactly if lock, bus and driver let it; the locomotive is then what the driver made of it, and its stop is queued if there is room. |
| LocoCache.TermTakesEffect | src/srcp-command.c:593-606 | A TERM that gets through clears exactly that locomotive, stops it first if it was moving, and frees the bus. |
| LocoCache.TermOfNoneIsRefused | src/srcp-command.c:593-606 | For an address that is not initialised it changes nothing, whatever the uninitialised lock variable holds. |
| LocoCache.TerminatingIsDead | src/srcp-gl.c:226-232 | No run stores state 2, so that the branch that clears a locomotive on a report of the driver is never taken. |
| LocoCache.TermStopsFirst | src/srcp-gl.c:280-312 | Termination queues a stop for a moving locomotive, if there is room, clears exactly that locomotive and leaves the others alone. |
| LocoCache.OnlyTargetChanges | src/srcp-gl.c:103-312 | A command changes at most the data of the locomotive it is for. |
| LocoCache.QueueIsFifo | src/srcp-gl.c:103-197 | Over every run: commands taken and commands waiting are those put in, in order, and never more than 49 wait. |
| LocoCache.StepLockBacked | src/srcp-command.c:580-607 | Every command keeps: a locked bus has an initialised locomotive. |
| LocoCache.LockIsTaken | src/srcp-gl.c:377-399 | Locking is answered with success exactly for an initialised locomotive on a bus that is free or held already; then the session holds the lock for the duration given, and nothing else changes. |
| LocoCache.LockIsGivenBack | src/srcp-gl.c:429-449 | The same for unlocking, after which the bus is free. |
| LocoCache.LockKeepsOthersOut | src/srcp-gl.c:377-449 | From any state: once a session was answered that it has the lock, and over every run in which it does nothing, every restricted command of another session for an initialised locomotive is refused and changes nothing. |
| LocoCache.EndedSessionHoldsNoLock | src/srcp-gl.c:454-469 | The end of a session frees its lock and no other, although only initialised addresses can unlock. |
| LocoCache.LockNeverOutlivesSession | src/srcp-gl.c:454-469 | The same in every run of commands of all sessions and the driver. |
| LocoCache.LockStaysWithHolder | src/srcp-gl.c:377-449 | In every run in which the holder does nothing it still holds the lock. |
| LocoCache.OthersAreLockedOut | src/srcp-command.c:60-72 | While another session holds the bus, moving, replacing, terminating, locking or unlocking an initialised locomotive is refused and changes nothing. |
| LocoCache.HolderIsProtected | src/srcp-command.c:60-72 | Over every run in which the holder does nothing: each initialised locomotive stays so, its data are exactly what the driver reports, and the only commands queued for it are stops. |
| LocoCache.SetIsRefusedIffInitialized | src/srcp-command.c:60-72 | Exactly the initialised addresses are protected: a SET for any other valid address gets through the lock. |

## Left out

- Terminal settings, `ioctl`, sockets, sleeping and the timing of `send_packet`, and the scan for acknowledgements: what goes to the line is a value here, the time a parameter. The service mode methods return 0 where the program goes on to return the acknowledgement; whether there is one is said about the decoder, as if the line were always watched. Reading by page is left out, since the decoder also acknowledges the page.
- Hardware drivers other than DDL, the contents of Maerklin packets, dcc-address.c, configuration files: byte plumbing and finite tables.
- Timed expiry of locks and the waiting for service mode: they depend on thread details.
- SRCP text parsing, the CHECK variant of SET, and the texts and time stamps of locomotive messages: commands have parsed arguments; feedback messages are events.
- Overflow of C integers: words that are taken apart into bits are 32-bit vectors, everything else is unbounded.
- Modes other than 1 and 2 of a locomotive command or of writing on the main track: the server admits only these two (`src/ddl.c:1425-1440`, `src/ddl.c:2096-2099`).
- TranslatorV1.Translate: when an unforced search gives up after a long detour is not characterised, nor is a forced search of more than 74 bits; bits are at least 5 and fit the buffer, as those of all callers do.
- TranslatorV2.Translate: for 80 bits or more a result of 0 can mean lack of room.
- Track.CompNmraMultiFunc: with routine 3, the default; of routine 2 it is stated that both bit strings have a translation.
- AccessoryCommand.CompNmraAccessory: the packet is not put into the queue; failing `malloc` is left out of the pools.
- The bytes are appended to a string in place of the caller's character buffer; the blocks of `strcat` that repeat in `calc_function_stream` and `comp_nmra_multi_func` are two methods, `AddOneByte` and `AddTwoBytes`.
- ServiceMode.SmInit: made anew for each command, where the program keeps the three streams; they are the same every time.
- Feedback.FeedbackBus.QueueResetFB: the program waits while the queue is full, here there must be room.
- Feedback.FeedbackBus.SetFBmodul: one clock reading for all contacts of a module, and likewise one for a whole check; samples are 0 or 1.
- Delivery.LastOrderIsDelivered: the decoder hears the calls of the refresh; packets sent from the queue in between are left out.
- PacketPool.NmraPool.constructor: the idle packet is a parameter; what the program puts there is `ServiceMode.PoolIdleIsReceived`. PacketPool.MaerklinPool.constructor: likewise, its bytes are left out.
- CommandStation.SetIsCarriedOutIff: for drivers with 28 or 128 steps, as the DDL bus admits for NMRA; words of the C `int` range.
- Packet sizes in the pools are the lengths of the byte sequences.
- Mutexes are not modelled but for `GotIsPrefixOfSent`, where adding and taking are atomic and the test for emptiness is a step of its own.
