# BrainGenDesktop protocol layer in Dafny

BrainGenDesktop is a desktop application. It drives a signal generator and
plots the EEG power bands that a TGAM1 sensor reports over a second serial
port. This project models the application's protocol layer and proves its
properties. The layer has four parts:

- **Generator command** (`codec.dfy`). The sixteen generator inputs are
  amplitudes and frequencies. Each amplitude is packed as one unsigned byte.
  Each frequency, in tenths, is packed as two little-endian bytes. The 24-byte
  command is built completely before anything is sent, so a value that does
  not fit sends nothing. The generator's one-byte reply is looked up by its hex
  spelling: no reply is a warning, `aa` is success, and anything else is an
  error.
- **Sensor packet** (`extractor.dfy`, `packet.dfy`). One polling cycle makes
  36 one-byte reads. The list of bytes received is reversed in place, and each
  field of the 18-field packet layout pops its width off the end. A poll with
  no bytes does nothing. A short poll dies on popping an exhausted list. A full
  poll yields one value per display channel: the big-endian value of the bytes
  of that channel's field.
- **Channel histories** (`window.dfy`). Each of the ten display channels
  keeps a bounded double-ended queue of 31 values. It starts as 31 zeros, and
  every append drops the oldest value. Each history is modelled as a ring over
  a fixed array of 31 cells.
- **Session** (`session.dfy`). The connection button toggles between CONNECT
  and DISCONNECT. Connecting changes the label, opens the generator port and
  then the sensor port, and starts a polling task. Disconnecting changes the
  label back, closes both ports and cancels the last task. A reset acts only
  while both ports are open, and it cancels the last task before starting a
  new one.

`config.dfy` holds the constant tables: the sixteen input names, the packet
layout, the two channel groups and their colours, and the three outcome pairs.
`bytes.dfy` holds the byte type and the big- and little-endian packings.
`wrappers.dfy` holds `Option`.

The layout's comment cites the MindSet Communications Protocol of June 28,
2010. However, the code does not look for the two 0xAA sync bytes, and it does
not check the payload length or the checksum (BrainGenDesktop.py:286 is a TODO
saying so). The model follows the code: a fixed positional split of whatever
36 bytes arrived. Likewise, a frequency of 3.4 is packed as `22 00`
(34 tenths, 34 = 0x22), as the code's truncating little-endian rule gives.

## Model

| member | source | states |
|---|---|---|
| Bytes.BeValue | BrainGenDesktop.py:306 | reading field bytes as one base-16 number gives a value below 256^n for n bytes |
| Bytes.BeBytes | BrainGenDesktop.py:306 | every value below 256^n has an n-byte big-endian spelling that reads back as that value |
| Bytes.BeBytesOfValue | BrainGenDesktop.py:306 | the big-endian reading is injective: writing a field's value back gives the same bytes |
| Bytes.Le16 | BrainGenDesktop.py:165 | to_bytes(2, 'little') gives two bytes, low then high, whose value is v |
| Bytes.Le16Value | BrainGenDesktop.py:165 | every pair of bytes is the little-endian spelling of a 16-bit value |
| Config.GenEmpty | library/config.py:2-3 | the empty-reply outcome is a warning with a message |
| Config.GenAa | library/config.py:7-8 | the 0xAA-reply outcome is a success with a message |
| Config.GenErr | library/config.py:12-13 | the outcome for any other reply is an error with a message |
| Config.AlphaInputs | library/config.py:21-24 | inputs 0 to 3 are the amplitude and frequency of the low and high alpha bands |
| Config.BetaInputs | library/config.py:25-28 | inputs 4 to 7 are the amplitude and frequency of the low and high beta bands |
| Config.DeltaLowGammaInputs | library/config.py:29-32 | inputs 8 to 11 are the amplitude and frequency of the delta and low gamma bands |
| Config.MidGammaThetaInputs | library/config.py:33-36 | inputs 12 to 15 are the amplitude and frequency of the mid gamma and theta bands |
| Config.BandInputs | library/config.py:20-37 | input 2j is band j's amplitude and input 2j+1 its frequency |
| Config.SignalInputFollowsBands | library/config.py:20-37 | the 16 inputs alternate amplitude and frequency over the 8 EEG bands, in the plot order of eeg_output |
| Config.FieldWidths | library/config.py:40-59 | the layout has 18 fields; the eight band fields are EEG channels, 3 bytes each; the last five fields are 1 byte each, attention at 14 and meditation at 16 |
| Config.ColoursMatchChannels | library/config.py:86-101 | each plot group has exactly one colour per channel, so indexing a colour by channel position stays in range |
| Extractor.IndexFrom | BrainGenDesktop.py:306 | looking a key up from position k gives a position from k to the end of the layout, and a position inside the layout holds a field with that name |
| Extractor.IndexFromFirst | BrainGenDesktop.py:306 | the lookup finds the first field with that name, and reaches the end of the layout exactly when no field has that name |
| Extractor.OffsetMonotone | library/config.py:40-59 | field offsets grow along the layout |
| Extractor.SplitSucceedsIff | BrainGenDesktop.py:294-298 | popping the fields succeeds exactly when the bytes cover the layout's total width |
| Extractor.Split | BrainGenDesktop.py:294-298 | reference split, each field taking the next width bytes in order: a successful split has one entry per layout field |
| Extractor.SplitChunk | BrainGenDesktop.py:294-298 | field k receives exactly the bytes from its offset up to the next field's offset |
| Extractor.FieldBytes | BrainGenDesktop.py:297-298 | field k's bytes are as many as its width |
| Extractor.SplitPositions | BrainGenDesktop.py:294-298 | bytes covering the layout split into one chunk per field, each exactly that field's bytes |
| Extractor.SplitJoin | BrainGenDesktop.py:294-298 | round trip: fields written one after another, followed by anything, split back into the same fields |
| Extractor.Reversed | BrainGenDesktop.py:294 | reversing keeps the length |
| Extractor.Collect | BrainGenDesktop.py:287-290 | 36 reads of at most one byte take min(36, waiting) bytes in arrival order and leave the rest unread |
| Extractor.PopReversed | BrainGenDesktop.py:294-298 | popping from the reversed remainder yields the next byte in arrival order |
| Extractor.PopField | BrainGenDesktop.py:297-298 | popping a field's width succeeds exactly when enough bytes remain, and then yields them in arrival order |
| Extractor.Extract | BrainGenDesktop.py:292-298 | reverse-then-pop over the layout equals the reference split, including the failure on an exhausted list |
| Packet.ProtocolFillsPoll | library/config.py:40-59 | the layout widths add up to 36, the number of reads per poll |
| Packet.ProtocolOffsets | library/config.py:40-59 | where each field from delta to crc starts in the packet |
| Packet.LayoutInOrder | library/config.py:40-59 | the layout lists each field name once, in declaration order |
| Packet.FieldPosition | library/config.py:40-59 | every field name is a key of the layout, at its own position |
| Packet.ChannelPosition | BrainGenDesktop.py:306 | display channel i is looked up at layout position ChannelIndex[i] |
| Packet.ChannelsAreLayoutKeys | BrainGenDesktop.py:306 | every channel of eeg_output and attention_output is a key of the layout, so the lookup never misses |
| Packet.Sample | BrainGenDesktop.py:301-306 | a successful poll yields one value per display channel |
| Packet.PollOutcome | BrainGenDesktop.py:287-306 | one cycle's outcome: nothing happens exactly when no byte arrived; otherwise the split crashes or yields the channel values |
| Packet.PollOutcomeByCount | BrainGenDesktop.py:287-298 | no bytes does nothing, 1 to 35 bytes die on an exhausted list, 36 bytes sample |
| Packet.ChannelOffset | library/config.py:40-59 | channel i's field occupies bytes ChannelStart[i] up to ChannelEnd[i] |
| Packet.FullPollSamples | BrainGenDesktop.py:292-306 | a full poll splits over the whole layout and samples from those chunks |
| Packet.SampleLookup | BrainGenDesktop.py:306 | channel i's value is the big-endian value of the chunk at its layout position |
| Packet.FieldChunk | BrainGenDesktop.py:294-298 | in a full poll, every field holds its own bytes |
| Packet.ChannelIndexInLayout | library/config.py:40-59 | every channel's layout position is inside the layout |
| Packet.ChannelField | BrainGenDesktop.py:306 | in a full poll, channel i's value is the big-endian value of its field's bytes |
| Packet.ChannelBytes | BrainGenDesktop.py:306 | in a full poll, channel i's value is the big-endian value of bytes ChannelStart[i] up to ChannelEnd[i] |
| Packet.PacketSample | BrainGenDesktop.py:294-306 | a full poll gives all ten channels the values of their own bytes |
| Packet.AttentionBytes | BrainGenDesktop.py:306 | attention is byte 32 and meditation is byte 34 |
| Packet.BandWidth | library/config.py:46-53 | each band channel spans three bytes |
| Packet.SampleBounds | BrainGenDesktop.py:306 | band values stay below 2^24; attention and meditation stay below 2^8 |
| Packet.DeltaExample | BrainGenDesktop.py:306 | delta bytes 00 01 2C give the value 300 |
| Window.Zeros | BrainGenDesktop.py:280 | a fresh history is 31 zeros |
| Window.Slide | BrainGenDesktop.py:306 | appending to a deque with maxlen 31 keeps 31 values and puts the new value last |
| Window.SlideShape | BrainGenDesktop.py:306 | an append shifts the other 30 values one place forward, keeping their order |
| Window.SlideAll | BrainGenDesktop.py:306 | any run of appends keeps the history at 31 values |
| Window.SlideAllKeepsLatest | BrainGenDesktop.py:306 | after any run of appends the history holds the last 31 values seen, oldest first |
| Window.FreshHistoryFull | BrainGenDesktop.py:280 | a fresh history that has seen at least 31 values holds exactly the last 31 |
| Window.FreshHistoryFilling | BrainGenDesktop.py:280 | a fresh history that has seen fewer than 31 values is zeros followed by everything seen |
| Window.History.Contents | BrainGenDesktop.py:280 | a history always holds 31 values |
| Window.History.constructor | BrainGenDesktop.py:280 | a new history has a fresh array and holds 31 zeros |
| Window.History.Append | BrainGenDesktop.py:306 | the in-place ring append gives exactly the bounded-queue append of the old contents |
| Codec.EncodeField | BrainGenDesktop.py:164-167 | an in-range value packs into its width, one byte for an amplitude and two for a frequency, and reads back as itself |
| Codec.FieldRoundTrip | BrainGenDesktop.py:164-167 | the bytes of one input, read back and packed again, are the same bytes |
| Codec.FieldsAdjoin | BrainGenDesktop.py:170 | the input fields follow each other without gaps |
| Codec.Encode | BrainGenDesktop.py:160-170 | a successful command has one byte per amplitude and two per frequency |
| Codec.EncodeSnoc | BrainGenDesktop.py:161-167 | one more input either appends its bytes or is the first input that fails; an earlier failure stands |
| Codec.EncodeOutcome | BrainGenDesktop.py:161-167 | encoding succeeds exactly when every input is in range, and otherwise fails at the first input out of range |
| Codec.OverflowPersists | BrainGenDesktop.py:161-167 | once a prefix fails, the whole list fails at the same input |
| Codec.Decode | BrainGenDesktop.py:170 | reading a command back yields one value per input |
| Codec.DecodePrefix | BrainGenDesktop.py:170 | appending an input's bytes does not move the inputs already in the command |
| Codec.DecodeEncode | BrainGenDesktop.py:160-170 | round trip: reading a command back gives the inputs it was built from |
| Codec.EncodeLast | BrainGenDesktop.py:160-170 | a successful command is the command of all inputs but the last, followed by the last input's bytes |
| Codec.EncodeDecode | BrainGenDesktop.py:160-170 | round trip: every byte string of command length is the command of the inputs it decodes to |
| Codec.FullCommandLength | BrainGenDesktop.py:161-170 | the command for all sixteen inputs has 24 bytes |
| Codec.EncodeExample | BrainGenDesktop.py:164-167 | amplitude 12 and frequency 3.4 (34 tenths) encode as 0C 22 00 |
| Codec.BuildCommand | BrainGenDesktop.py:160-167 | the input-by-input loop builds exactly the reference command, stopping at the first input out of range |
| Codec.Hex | BrainGenDesktop.py:172 | the hex spelling has two digits per byte |
| Codec.HexDigitInjective | BrainGenDesktop.py:172 | different hex digits are spelled differently |
| Codec.HexAa | BrainGenDesktop.py:172 | a single byte is spelled "aa" exactly when it is 0xAA |
| Codec.Respond | BrainGenDesktop.py:173 | the lookup in response_switch (line 76) with gen_err as default: the empty spelling gives the warning, "aa" success, and every other spelling the error |
| Codec.ReadOne | BrainGenDesktop.py:172 | a read takes at most one byte, the first one waiting, and is empty exactly when nothing waits |
| Codec.AckOutcome | BrainGenDesktop.py:172-173 | no reply gives the warning, 0xAA gives success and any other single byte gives the error |
| Codec.SignalDefine | BrainGenDesktop.py:158-173 | an input out of range sends nothing and reports nothing; otherwise the 24-byte command is sent and the reply's outcome is reported |
| Session.AtMostOneRunning | BrainGenDesktop.py:203-206 | when only the last task may run, at most one task runs |
| Session.Cancel | BrainGenDesktop.py:273 | cancelling marks the last task cancelled if it runs, leaves a task that has already ended as it is, and touches no other task |
| Session.NewHistories | BrainGenDesktop.py:278-280 | a starting task builds ten fresh, separate histories of 31 zeros |
| Session.Session.constructor | BrainGenDesktop.py:127-133 | the window opens offering to connect, with both ports closed and no polling task |
| Session.Session.OnePollingTask | BrainGenDesktop.py:203-206 | in a valid session at most one polling task runs, and only while both ports are open and the button offers to disconnect |
| Session.Session.StartPolling | BrainGenDesktop.py:259 | starting a task appends one running task, makes it the current one and gives every channel a fresh history of zeros |
| Session.Session.ToggleConnection | BrainGenDesktop.py:245-273 | CONNECT flips the label, opens the ports in order until one fails, and starts a task only when both open; DISCONNECT flips the label back, closes both ports and cancels the last task |
| Session.Session.ResetActivity | BrainGenDesktop.py:203-206 | with both ports open, reset cancels the last task before starting a fresh one; otherwise nothing changes |
| Session.Session.Poll | BrainGenDesktop.py:282-306 | one cycle: no bytes change nothing; a short poll ends the task and leaves the histories alone; a full poll appends each channel's value to its history |
| Session.Session.AppendSample | BrainGenDesktop.py:301-306 | every channel's history receives exactly its own value, by one bounded append |

## Left out

- Qt window setup, plotting, legends, curve colours, checkboxes and the context menu are user interface. The model proves facts only about the colour tables' lengths.
- COM port enumeration, baud selection and `config.ini` parsing are operating-system and file I/O.
- `write_log` formats an HTML line that depends on the wall clock. The model stops at the (severity, message) pair handed to it.
- The serial ports are not modelled as devices. The bytes waiting at a port are an input sequence, and the bytes written are an output sequence. Whether an open succeeds is a boolean parameter of `Session.Session.ToggleConnection`.
- Port failures beyond opening are not modelled: a write to a closed port, a read error, or a reopen triggered by setting the port name.
- asyncio scheduling, `sleep(1)` between cycles and `closeEvent` are not modelled. A cancelled task stops at once. A cycle runs only as a call to `Session.Session.Poll` on the running task, which is what that method's precondition says.
- Session.Session.ToggleConnection: pressing DISCONNECT when no task was ever started (after a first connect whose port failed to open) makes the source call `cancel()` on `None` after the ports are closed. The model leaves the tasks as they are, and ends in the same label and port state.
- Reading the entry texts is left out: `split(' ')`, `locale.atof`, the float product `raw_input * 10` and `int()` truncation. The inputs are taken as integers, amplitudes as they are and frequencies in tenths.
- `hex()` and `unhexlify` are not modelled for the command. Joining hex strings and unhexlifying them gives the concatenation of the bytes, which is what the model builds. `hex()` is kept for the reply, because the reply table is keyed by its spelling.
- The sensor's sync bytes, payload length and checksum are never checked by the code, so the model does not check them either.
- Field names are an enumeration rather than strings. `Config.Key` gives each name's spelling, and the input names are tied to the bands through it.
