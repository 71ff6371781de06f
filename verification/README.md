# Firmware delivery, verified

A model, in Dafny 4.11, of how the serial daemon gets firmware bytes from a client into a file: the checksums, the
upload commands, the framing of the serial line, the session lock between the HTTP thread and the serial reader, and
the background worker that flashes the file afterwards. `dafny verify dfyconfig.toml` checks all of it.

| file | models |
|---|---|
| `Crc16.dfy` | the CRC16 object and the Python client's `crc16` |
| `Gf2.dfy`, `CrcPolynomial.dfy` | polynomials over GF(2) as sets of exponents; the digest as a remainder |
| `CrcOrder.dfy`, `CrcErrors.dfy` | the order of x modulo the generator; which errors the digest detects |
| `Md5Compress.dfy`, `Md5.dfy` | the steps of RFC 1321, the unrolled transform and the streaming object |
| `CrcVectors.dfy`, `Md5Steps.dfy`, `Md5Vectors.dfy` | digests by value, among them three of appendix A.5 of RFC 1321 |
| `AtText.dfy` | hexadecimal, decimal, searching, trimming and command parsing |
| `SerialLine.dfy` | `writeLine`, `readLine` and the lines the reader loop sees |
| `Upload.dfy`, `UploadFormats.dfy` | the upload commands as functions on one upload and a map from paths to bytes; the arguments they accept |
| `UploadMachine.dfy` | the same commands as methods on fields updated in place |
| `UploadSteps.dfy` | the same commands one access to the shared fields at a time |
| `UploadRuns.dfy`, `UploadFiles.dfy` | what every run of commands keeps; what is published and what is left behind |
| `UploadReplies.dfy` | what each command replies and leaves behind, in every state that a run can reach |
| `Delivery.dfy`, `Wire.dfy` | uploads from end to end, on their own and over the serial line |
| `Session.dfy` | one session, from the text of its lines to the file |
| `Names.dfy` | names whose file another upload empties, and names that AT+VERIFY cannot be given |
| `SessionLock.dfy`, `LockRuns.dfy` | the lock, one atomic access per step, and all interleavings of the two threads, for any handlers |
| `LockOverrides.dfy` | taking the lock away by force |
| `LockServes.dfy` | what a side is answered: without interruption, and as the owner in every interleaving |
| `LockedUploads.dfy`, `TornUploads.dfy` | the steps of the upload commands as those handlers, without and with a harmful override |
| `FlashWorker.dfy` | AT+FLASH, its worker and AT+TRYFLASHDONE, one shared access per step |
| `FlashRuns.dfy` | what a poll answers: without interruption, in every interleaving, and at the end of whole runs |

How the pieces fit:

- The stateful objects (`Crc16.Crc16`, `Md5.Md5`, `SerialLine.SerialPort`, `UploadMachine.UploadState`,
  `SessionLock.SessionLock`) are classes whose methods are proved equal to functions on values. Everything that spans
  several calls is proved about those functions.
- File operations, the number of bytes a write takes or the last flush loses, the arrival of bytes, the passing of time
  and the behaviour of the flash script are inputs of the model: every theorem holds for all of them unless it names a
  condition.
- `UploadRuns.Inv` is stated against a log that an observer keeps from the commands, the replies and how many bytes each
  write took, without looking at any field.
- In `SessionLock` each atomic access to the owner is one step, with a program counter per thread. Two threads are
  enough: the HTTP server has one polling thread (src/http_server.cpp:44-50) and only one reader thread can be started
  (src/serial_daemon.cpp:132-137).
- A handler's work on the upload is split into steps as well (`UploadSteps`). An override of the lock is harmful if it takes
  effect while the serial side is inside a handler (`LockOverrides.Harmful`). Without a harmful one, `LockedUploads.WorldIsRun`
  proves that every interleaving of these steps comes to the same as whole commands one after the other, with their
  replies, so that what is proved of all runs of commands holds of the two threads. After a harmful one it need not:
  `TornUploads.HarmfulClosesTwice` gives runs in which both sides close the same handle.

Where the code and its documents differ, the model follows the code:

- docs/architecture.md:138 says that a CRC error deletes the temporary file; the code keeps the file and counts the
  frame (`Delivery.DamagedFrame`).
- docs/at_commands.md:239 says that AT+VERIFY rejects '/'; the code rejects only "..".
- docs/architecture.md:73 explains a 503 by SERIAL holding the lock; the owner is read once more, and may be gone by then
  (`LockRuns.HttpBusyOnFreeLock`; exactly when, `LockRuns.HttpBusyWithoutSerialIff`). What holds is
  `LockRuns.HttpBusyJustified`. The "BUSY" of line 82 is like that (`LockRuns.SerialBusyOnFreeLock`).
- docs/http_endpoints.md:162 says that AT+FORCERESET and AT+RESET bypass the lock check; only their exact spelling does
  (`SessionLock.BypassIff`).

Properties that fail, with the condition under which they hold:

- The published file is what the frames carried exactly if it begins with that and the closing flush lost as many bytes as
  short writes had left behind: without such a loss, exactly if short writes left no bytes behind, and the other way round
  (`UploadFiles.DoneExact`, `UploadFiles.PublishedIffComplete`). `Delivery.RetryAfterShortWrite` is a run that goes wrong.
- A promised MD5 is taken in either case (`Delivery.PromiseTaken`), but with the right size and a successful rename one that
  is right up to case is kept exactly if it has no upper-case letter (`UploadFiles.PromiseKeptIff`).
- Two-bit errors pass exactly at distances that are multiples of 32767 bits (`CrcErrors.TwoBitErrors`); a frame that fits
  a serial line is too short for that (`Wire.TwoBitsNeverPass`).
- AT+RESET and AT+FORCERESET over HTTP skip the session check exactly if they are spelled in capitals with nothing between
  the name and the end of the line or an '=' (`SessionLock.BypassIff`). In any other spelling, such as "AT+forcereset" or
  "AT+FORCERESET " with a blank, they are answered 503 while SERIAL holds the lock (`SessionLock.IdleHttpAnswers`).
- Taking the lock away by force lets the two sides overlap exactly if it takes effect while the serial side is inside a
  handler (`LockOverrides.OverrideIsSafeIff`, `LockOverrides.OverrideOverlaps`), and without that they never do
  (`LockOverrides.NeverBoth`). Shutdown never is harmful: it joins the reader first.
- A line survives reads that end early between lines (`SerialLine.ReaderGetsCommands`); when one ends inside a line,
  the part in front is lost and the part behind is taken for a line (`SerialLine.BrokenLine`).
- AT+RESET is answered OK with the lock free exactly if the other side does not own it by then; without an override it
  always is free (`LockServes.ResetDoneFreesIff`, `LockServes.ResetFrees`).
- AT+FLASH ends the program exactly if it finds `running` false and a worker not joined
  (`FlashWorker.SubmitCrashesIff`, `FlashWorker.CrashingRuns`).
- The file of a valid name changes without an OK for that name exactly if the name is "upload_x.tmp" for an x that
  PREUPLOAD takes (`Names.FinalFileIff`); an upload of x then empties it (`Names.PublishedFileLost`).
- A file can be named to AT+VERIFY exactly if its name does not end in a carriage return, newline or space
  (`Names.VerifiableIff`); "fw " can be published, and AT+VERIFY of it answers for "fw" (`Names.VerifiesAnotherFile`,
  `Names.BlankAtTheEnd`).

## Model

| member | source | states |
|---|---|---|
| Crc16.Crc16.Update | include/checksum.h:21-31 | the bit loop, in place, leaves the register at the fold of the data from its old value, so chunks can be fed one after the other |
| Crc16.Compute | include/checksum.h:212-216 | the digest of a buffer is the fold from 0xFFFF |
| Crc16.ClientCrc | real_test/utils.py:27-37 | the Python form, with one integer register that is masked only after the eight shifts of a byte, returns the digest of the C++ form |
| Crc16.MaskLater | real_test/utils.py:31-36 | a turn of the unmasked integer is a turn of its low sixteen bits, so masking later makes no difference |
| Crc16.TurnFits | real_test/utils.py:31-36 | between two masks the integer stays below 24 bits and no shift of the 32-bit register loses a bit of it |
| Crc16.CrcIsOverBits | include/checksum.h:21-31 | taking in a byte at the top and turning eight times equals taking in its bits one at a time, for every message and start value |
| CrcPolynomial.CrcIsRemainder | include/checksum.h:21-31 | for every register and every bit message of n bits, the final register is the remainder of register times x^n plus message times x^16, modulo x^16+x^12+x^5+1 over GF(2) |
| CrcPolynomial.DigestIsRemainder | include/checksum.h:21-31 | a 16-bit value is the digest if and only if its polynomial is the remainder of 0xFFFF times x^(8n) plus M times x^16 |
| CrcPolynomial.RegisterPolyInjective | include/checksum.h:48-49 | a register is determined by its polynomial, so that equal remainders mean equal digests |
| CrcPolynomial.MessagePolyIs | include/checksum.h:21-31 | the message polynomial has the term x^e exactly if the bit e places from the end is set |
| CrcPolynomial.DigestParity | include/checksum.h:21-31 | the digest has an odd number of ones exactly if the message has |
| CrcPolynomial.OddErrorsDetected | include/checksum.h:21-31 | equally long messages that differ in an odd number of bits have different digests |
| CrcOrder.PowersMultiply | include/checksum.h:24-29 | turning e times and then f times multiplies the two powers of x modulo the generator, which is how the order is found without 32767 single turns |
| CrcOrder.PeriodIffMultiple | include/checksum.h:24-29 | d turns of the register are the identity exactly if 32767 divides d: the order of x modulo the generator |
| CrcErrors.Superpose | include/checksum.h:21-31 | the register after the exclusive or of two bit strings is the exclusive or of the registers, for all start values: the digest is affine in the message |
| CrcErrors.UndetectedPattern | include/checksum.h:21-31 | equally long messages collide exactly if their difference, fed to a zero register, leaves zero |
| CrcErrors.BurstDetected | include/checksum.h:21-31 | messages of any length whose difference is not empty and lies within 16 consecutive bits never collide |
| CrcErrors.TwoBitErrors | include/checksum.h:21-31 | messages that differ in exactly two bits collide if and only if their distance is a multiple of 32767 |
| CrcErrors.CrcFromConcat | include/checksum.h:21-35 | updating with two pieces equals updating with the whole |
| CrcErrors.ResidueIsZero | include/checksum.h:21-44 | feeding a message and then its digest, high byte first, drives the register to zero |
| CrcVectors.CheckValue | test/test_checksum.cpp:53-60 | the digest of "123456789" is 0x29B1 |
| CrcVectors.CrcOfAbc | include/checksum.h:21-31 | the digest of "abc" is 0x514A |
| Md5Compress.FFQuad | include/checksum.h:159-166 | four macro calls of round 1 with their rotated arguments equal four steps of the indexed loop of section 3.4 of RFC 1321 |
| Md5Compress.GGQuad | include/checksum.h:169-176 | the same for round 2, with message index 5i+1 mod 16 |
| Md5Compress.HHQuad | include/checksum.h:179-186 | the same for round 3, with message index 3i+5 mod 16 |
| Md5Compress.IIQuad | include/checksum.h:189-196 | the same for round 4, with message index 7i mod 16 |
| Md5Compress.StepInvertible | include/checksum.h:155-158 | for a fixed block each step is undone, in both orders, by a step backwards |
| Md5Compress.StepsInvertible | include/checksum.h:145-196 | so the steps before the final additions form an invertible map on the four words |
| Md5.Md5.Transform | include/checksum.h:145-205 | the 64 unrolled macro calls leave the state at the uniform indexed compression of the old state and the block |
| Md5.Md5.constructor | include/checksum.h:56-67 | a new object represents the empty message |
| Md5.Md5.Reset | include/checksum.h:60-67 | after a reset the object represents the empty message |
| Md5.Md5.Update | include/checksum.h:69-99 | whatever the chunk size, the object represents the old message with the chunk appended: the state is the fold over all complete blocks, the buffer begins with the rest, the counter is the length modulo 2^64 |
| Md5.Md5.Finalize | include/checksum.h:106-121 | returns the digest of the whole message whatever its chunks were, and leaves the padded message in the object |
| Md5.FoldConcat | include/checksum.h:88-93 | folding over blocks and then over more equals folding over the concatenation |
| Md5.PaddingArithmetic | include/checksum.h:106-114 | for every length, also past 2^64, the padding has 1 to 64 bytes, is that of section 3.1 of RFC 1321, ends on a block with the 8 length bytes, and the bit count is 8 times the length modulo 2^64 |
| Md5.PaddingText | include/checksum.h:106-114 | message, padding bytes and length bytes together are the padded message of sections 3.1 and 3.2 of RFC 1321 |
| Md5Vectors.LengthDenotes | include/checksum.h:111-113 | the eight length bytes of a number are those that denote it, least significant first, each in its place |
| Md5Vectors.EmptyDigest | test/test_checksum.cpp:119-125 | the digest of the empty message, as text, is d41d8cd98f00b204e9800998ecf8427e |
| Md5Vectors.AbcDigest | test/test_checksum.cpp:140-147 | the digest of "abc" is 900150983cd24fb0d6963f7d28e17f72 |
| Md5Vectors.AlnumDigest | test/test_checksum.cpp:173-181 | the digest of the 62 letters and digits, two blocks with words in all places, is d174ab98d277d9f5a5611c2c9f419d9f |
| AtText.UnhexOfHex | src/at_handler/handler_upload.cpp:156-161 | decoding the two-digit encoding of any bytes gives them back, whatever `sscanf` does on other texts |
| AtText.Value4OfHex4 | src/at_handler/handler_upload.cpp:165-169 | the number read from a `%04X` text is the one that was written |
| AtText.DecimalValueOf | src/at_handler/handler_upload.cpp:141-144 | a decimal text is read back as its number |
| AtText.ParseLine | src/at_command.cpp:21-38 | the trimming loop and the tests before dispatch compute the specified parse of every line |
| AtText.ParseAt | src/at_command.cpp:63-83 | splitting at the first '=' and upper-casing in place give the specified parts, and fail on the specified lines |
| AtText.ParseParts | src/at_command.cpp:63-83 | a line that trims to AT+NAME or AT+NAME=arg is parsed into the upper-cased name and everything after the first '=' |
| AtText.NotAtIff | src/at_command.cpp:31-33 | a line is no AT command exactly if, trimmed, it does not begin with "AT" |
| AtText.BadFormatIff | src/at_command.cpp:35-38 | it is malformed exactly if no '+' follows, or an '=' or nothing behind that |
| AtText.CommandIs | src/at_command.cpp:63-83 | any other has the name up to its first '=', in capitals, and everything behind it as its argument |
| AtText.UpperLetters | src/at_command.cpp:81 | each of the 26 letters has its capital, and no other character is changed |
| SerialLine.SerialPort.WriteLine | src/serial_port.cpp:124-147 | the bytes sent are those of the line and its ending that the port took; only an error or a closed port is reported |
| SerialLine.SerialPort.ReadLine | src/serial_port.cpp:149-194 | for every stream of events: success exactly if the first event that ends the read is a newline and the text before it, less one carriage return, has at most 8192 characters; what is returned and what is left of the stream in every case |
| SerialLine.ReadLines | src/serial_daemon.cpp:141-160 | the reader loop collects the lines that the specification finds in the stream |
| SerialLine.StopsAtNewline | src/serial_port.cpp:161-194 | a stream without failures is cut at its first newline byte, however its bytes are spread over the reads |
| SerialLine.FramingRoundTrip | src/serial_port.cpp:124-194 | a written line is read back, or discarded if longer than 8192, and what follows stays in the stream |
| SerialLine.BareNewline | src/serial_port.cpp:173-183 | a line that ends in a newline alone is read as it stands, or discarded if longer than 8192 |
| SerialLine.ReadBackIff | src/serial_port.cpp:124-194 | a line is read back as written if and only if it has no newline and at most 8192 characters |
| SerialLine.ReaderGetsCommands | src/serial_daemon.cpp:141-160 | of any written lines the loop gets exactly those that fit, in order, however often reads end for lack of time or by an error between two lines |
| SerialLine.BrokenLine | src/serial_daemon.cpp:141-160 | a read that ends inside a line loses the part that has come in, and the part behind it arrives as a line of its own |
| UploadFormats.RequestIff | src/at_handler/handler_upload.cpp:65-88 | PREUPLOAD accepts exactly name, digits and 32 hexadecimal characters with a valid comma-free name and a number above zero, and reads them as such |
| UploadFormats.SoundIff | src/at_handler/handler_upload.cpp:126-171 | UPLOAD finds a frame sound exactly if it is data, four hexadecimal digits and a decimal length, with the right number of data pairs and the right CRC of the decoded bytes |
| UploadFormats.LoneCommaIsNotSound | src/at_handler/handler_upload.cpp:126-134 | when the only comma comes first, position 0 minus 1 restarts the search and one text serves as checksum and length; no such frame is sound |
| UploadReplies.FrameReasons | src/at_handler/handler_upload.cpp:132-154 | which of the refusals a frame with two separators gets, exactly when |
| UploadReplies.RequestReasons | src/at_handler/handler_upload.cpp:71-88 | which of the refusals a request with two separators gets, exactly when |
| UploadReplies.TooFewCommas | src/at_handler/handler_upload.cpp:65-130 | what a frame and a request with fewer separators are refused for |
| UploadReplies.SizeIsRead | src/at_handler/handler_upload.cpp:75-79 | a size of 2^64 or more is read as 2^64 - 1, a smaller one as it stands |
| UploadReplies.ValidNameIff | src/at_handler/handler_upload.cpp:86-88 | a name is valid exactly if it has 1 to 255 characters, no slash and no two dots in a row |
| UploadMachine.Decode | src/at_handler/handler_upload.cpp:156-161 | the decoding loop computes the specified bytes |
| UploadMachine.ReadArgument | src/at_handler/handler_upload.cpp:65-88 | the checks of PREUPLOAD, in their order, with their errors |
| UploadMachine.Examine | src/at_handler/handler_upload.cpp:126-171 | the checks of UPLOAD, in their order, with their errors, up to the comparison of checksums |
| UploadMachine.HashFile | src/at_handler/handler_basic.cpp:76-89 | hashing in reads of at most 4096 bytes gives the digest of the whole file and its size |
| UploadMachine.UploadState.Reset | src/at_handler/handler_upload.cpp:33-42 | every field but the handle gets its initial value, and the files stay |
| UploadMachine.UploadState.HandlePreupload | src/at_handler/handler_upload.cpp:54-112 | new fields, files and reply are those of the specification, in every case |
| UploadMachine.UploadState.HandleUploadFrame | src/at_handler/handler_upload.cpp:118-200 | the same for a frame, with wrapping counters, refused checksums and short writes |
| UploadMachine.UploadState.HandleUploadDone | src/at_handler/handler_upload.cpp:206-257 | the same for the end of an upload, with its four outcomes |
| UploadMachine.UploadState.HandleUploadCancel | src/at_handler/handler_upload.cpp:263-281 | the same for the abort |
| UploadMachine.UploadState.HandleVerify | src/at_handler/handler_basic.cpp:60-90 | the reply is the digest and size of the named file, or the specified error |
| UploadMachine.UploadState.ProcessCommand | src/at_command.cpp:21-57 | one line, trimmed, parsed and dispatched, takes the object through one step of the specification |
| UploadMachine.UploadState.ProcessAll | src/at_command.cpp:21-57 | any sequence of lines takes the object through the specified run, so all theorems about runs are about the object |
| UploadRuns.AcceptKeeps | src/at_handler/handler_upload.cpp:182-199 | a frame taken in full extends file, digest context, counters and log alike |
| UploadRuns.ShortWriteKeeps | src/at_handler/handler_upload.cpp:182-186 | a short write leaves bytes in the file that neither `received` nor the digest context knows of; the invariant then says how many |
| UploadRuns.StepKeeps | src/at_command.cpp:21-57 | every command keeps the invariant |
| UploadRuns.RunKeeps | src/at_command.cpp:21-57 | and so does every run, from any state that has it |
| UploadRuns.EveryRun | src/at_handler/handler_upload.cpp:22-43 | over every run: active iff the handle is open; every opening but the current one closed exactly once; while active, hashed bytes are the accepted frames since PREUPLOAD, `received` their length modulo 2^64, `frame_count` accepted plus refused frames modulo 2^32, and the file holds exactly them iff short writes left no bytes behind; otherwise every field has its reset value |
| UploadReplies.PreuploadReplies | src/at_handler/handler_upload.cpp:54-112 | in every reachable state PREUPLOAD is answered READY exactly if no upload is active, the request is well written and the file can be created, and then holds what it says; else nothing changes, and which refusal it is |
| UploadReplies.FrameReplies | src/at_handler/handler_upload.cpp:118-200 | in every reachable state a frame is answered OK exactly if an upload is active, the frame is sound and the write takes it whole, with the number of all accepted bytes; without an upload nothing changes and the reply says so; what a bad frame, a wrong checksum and a short write change and reply |
| UploadReplies.DoneReplies | src/at_handler/handler_upload.cpp:206-257 | in every reachable state, which of its four ends UPLOADDONE comes to, by the accepted bytes, with the fields of each reply; what a failure leaves; without an upload nothing changes |
| UploadReplies.CancelReplies | src/at_handler/handler_upload.cpp:263-281 | in every reachable state a cancel leaves no upload, no open handle and every field reset; the reply tells whether there was an upload; the files are the old ones without the temporary one if it can be removed |
| UploadReplies.CancelThenUpload | src/at_handler/handler_upload.cpp:263-281 | after a cancel every valid request is answered READY |
| UploadReplies.VerifyReplies | src/at_handler/handler_basic.cpp:60-90 | VERIFY changes nothing, refuses two dots in a row wherever they stand, and else reports digest and size of the file of that name, or that there is none |
| UploadReplies.OtherReplies | src/at_command.cpp:31-56 | any other line leaves upload and files alone, and which reply it has |
| UploadFiles.DoneExact | src/at_handler/handler_upload.cpp:206-257 | UPLOADDONE publishes if and only if size and digest of the accepted bytes are the promised ones and the rename succeeds; when exactly the published file then is the accepted bytes, what is left alone and what is removed |
| UploadFiles.PublishedIffComplete | src/at_handler/handler_upload.cpp:182-257 | with nothing lost by `fclose` the published file is right iff short writes left no bytes behind, and with none left behind iff nothing was lost |
| UploadFiles.PromiseKeptIff | src/at_handler/handler_upload.cpp:228-239 | with the right size and a successful rename, a promised digest that is right up to case is kept if and only if it has no upper-case letter |
| UploadFiles.UpperCaseNeverPublishes | src/at_handler/handler_upload.cpp:228-239 | whatever arrives, a promised digest with an upper-case letter is never met |
| UploadFiles.StepLeaves | src/at_handler/handler_upload.cpp:54-281 | a command changes no file but the temporary one it works on or opens and the one it publishes |
| UploadFiles.RunLeaves | src/at_handler/handler_upload.cpp:54-281 | nor does a run, for a path that no upload works on and no step opens or publishes |
| UploadFiles.FinalFileOnlyByDone | src/at_handler/handler_upload.cpp:90-93 | after any history, the file of a name that is not the temporary name of a name PREUPLOAD takes stays as it is until UPLOADDONE replies OK for it |
| Names.FinalFileIff | src/at_handler/handler_upload.cpp:86-93 | for every valid name: some run without an OK for it changes its file if and only if it is the temporary name of a valid comma-free name |
| Names.PublishedFileLost | src/at_handler/handler_upload.cpp:90-93 | content published under "upload_x.tmp" is gone after the next PREUPLOAD of "x", which replies OK READY |
| UploadFiles.RunClean | src/at_handler/handler_upload.cpp:206-281 | while removals succeed, a run keeps: there are no files but the earlier ones, the published ones and the one temporary file of an open upload |
| UploadFiles.NoTemporaryFileLeft | src/at_handler/handler_upload.cpp:206-281 | while removals succeed, no run that has no upload open leaves any file but those there before and those published |
| Delivery.VerdictOn | src/at_handler/handler_upload.cpp:126-180 | what becomes of a client's frame whose data was replaced on the way: refused for its length, refused for its checksum, or taken, exactly when |
| Delivery.FrameIsSound | src/at_handler/handler_upload.cpp:126-171 | a client's frame is taken as its chunk if and only if the chunk is shorter than 2^32 bytes, where the declared length is truncated |
| Delivery.DamagedFrame | src/at_handler/handler_upload.cpp:163-180 | a frame with damaged data is refused exactly if the checksums differ; the reply names the frame and both checksums, and nothing changes but `frame_count` |
| Delivery.BurstRefused | src/at_handler/handler_upload.cpp:163-180 | damage within 16 consecutive bits is always refused, leaving everything but `frame_count` |
| Delivery.TwoBitsRefused | src/at_handler/handler_upload.cpp:163-180 | damage to two bits is refused exactly if their distance is no multiple of 32767 |
| Delivery.OddDamageRefused | src/at_handler/handler_upload.cpp:163-180 | damage to an odd number of bits is always refused |
| Delivery.RunTakesIn | src/at_handler/handler_upload.cpp:118-200 | whatever commands come in between, an open upload takes in the payloads of the sound frames, in order, and nothing else |
| Delivery.FramesCarryChunks | src/at_handler/handler_upload.cpp:126-171 | the frames of any division of the data carry the whole |
| Delivery.Delivered | src/at_handler/handler_upload.cpp:54-257 | every non-empty content below 2^64 bytes, under any valid name, in any frames with any refused commands in between, is published exactly: reply with size and digest, file content, all other files, removal of the temporary one, reset, one opening and one closing |
| Delivery.ChunksDelivered | src/at_handler/handler_upload.cpp:54-257 | in particular, the client's own sequence of PREUPLOAD, one frame per chunk and UPLOADDONE publishes the data, however they are divided |
| Delivery.PromiseTaken | src/at_handler/handler_upload.cpp:54-112 | PREUPLOAD replies OK READY to every valid request, with a digest in either case |
| Delivery.RetryAfterShortWrite | src/at_handler/handler_upload.cpp:182-186 | repeating a frame after "write failed" ends in an OK reply with the right digest for a file with the wrong content |
| Names.VerifyAgrees | src/at_handler/handler_basic.cpp:60-90 | after a complete upload and any commands that leave its file alone, AT+VERIFY of its name reports the digest and size that UPLOADDONE reported, or, for a name that ends in a character that trimming removes, answers for the trimmed name |
| Names.VerifiableIff | src/at_command.cpp:24-27 | a name can be the argument of AT+VERIFY if and only if it does not end in a carriage return, newline or space |
| Names.VerifiesAnotherFile | src/at_command.cpp:24-27 | a name that ends so is published with its content, and its AT+VERIFY line is answered for the trimmed name: its file's digest, or an error |
| Names.BlankAtTheEnd | src/at_command.cpp:24-27 | such a run with the name "fw " |
| Wire.FitsIff | src/serial_port.cpp:163-185 | a frame fits the serial line if and only if its payload has at most 4086 bytes |
| Wire.RoundTrip | src/serial_port.cpp:124-194 | written, read, trimmed, parsed, split, decoded and checked, a chunk arrives as itself if and only if it has at most 4086 bytes; otherwise its line is discarded |
| Wire.TwoBitsNeverPass | src/serial_port.cpp:153-183 | every two-bit error in the data of a frame read from the serial line is refused |
| Wire.SerialDelivery | src/serial_port.cpp:124-194 | the whole script of an upload, written to the line and read back in whatever pieces, also when reads end early between two lines, publishes exactly the data |
| Session.AbcIsPublished | src/at_handler/handler_upload.cpp:54-257 | the three lines "AT+PREUPLOAD=fw,3,900150983cd24fb0d6963f7d28e17f72", "AT+UPLOAD=616263,514A,3" and "AT+UPLOADDONE" publish the bytes of "abc" as "fw", and "upload_fw.tmp" is gone |
| SessionLock.SessionLock.TryAcquire | src/serial_daemon.cpp:56-65 | the compare-and-swap succeeds exactly on a free lock |
| SessionLock.SessionLock.Release | src/serial_daemon.cpp:67-76 | only the owner's release has an effect |
| SessionLock.SessionLock.ForceRelease | src/serial_daemon.cpp:78-84 | the lock is free afterwards, whoever held it |
| SessionLock.BypassIsReset | src/http_handler/handler_command.cpp:43-51 | whatever skips the session check is parsed as AT+RESET or AT+FORCERESET, so no other handler runs unchecked |
| SessionLock.BypassIff | src/http_handler/handler_command.cpp:43-51 | a command that is parsed as AT+RESET or AT+FORCERESET skips the session check if and only if it begins with exactly that name, ended by the line or an '=' |
| SessionLock.IdleHttpAnswers | src/http_handler/handler_command.cpp:53-75 | what an idle HTTP side answers to it while SERIAL holds the lock: freed, refused as not the owner, or, in any other spelling, 503 |
| SessionLock.LowerCaseIsChecked | src/http_handler/handler_command.cpp:43-51 | a lower-case name is checked |
| SessionLock.TrailingBlankIsChecked | src/http_handler/handler_command.cpp:43-51 | and so is an upper-case one with a blank behind it |
| SessionLock.StepKeeps | src/serial_daemon.cpp:162-183 | every step but an override keeps: a side inside a checked handler owns the lock |
| SessionLock.OwnerChanges | src/serial_daemon.cpp:56-76 | without an override ownership changes only by the owner's swap on a free lock or its own AT+RESET or AT+FORCERESET, and never passes straight over |
| LockRuns.OwnershipLasts | src/at_handler/handler_basic.cpp:25-36 | once a side owns the lock it keeps it through every interleaving without an override, whatever the other side sends, AT+RESET included, until its own AT+RESET or AT+FORCERESET acts |
| LockOverrides.SafeAt | src/serial_daemon.cpp:38-50 | from every safe state, in which ownership is in order or only the HTTP side is left, every interleaving without a harmful override leads to safe states |
| LockOverrides.NeverBoth | src/http_handler/handler_command.cpp:53-75 | without a harmful override never are both sides inside checked handlers |
| LockOverrides.OverrideIsSafeIff | src/serial_daemon.cpp:38-50 | from every safe state: after an override some run without another one brings both sides into handlers if and only if it took effect while the serial side was inside a handler |
| LockRuns.InvAt | src/serial_daemon.cpp:56-92 | without an override the ownership invariant holds before every step of every interleaving, whatever the handlers do |
| LockRuns.MutualExclusion | src/http_handler/handler_command.cpp:53-75 | over all interleavings without an override, a side inside a checked handler owns the lock, and never are both |
| LockOverrides.OverrideOverlaps | src/at_handler/handler_basic.cpp:33-36 | from the start one AT+FORCERESET over HTTP is enough for both to be |
| LockRuns.CheckHistory | src/http_handler/handler_command.cpp:55-69 | while HTTP is about to swap, it does not own the lock; while it is about to read the owner, it does, or SERIAL has held the lock during this check |
| LockRuns.HttpBusyJustified | src/http_handler/handler_command.cpp:55-69 | a 503 is sent only if SERIAL held the lock at some instant of that request's check |
| LockRuns.HttpBusyWithoutSerialIff | src/http_handler/handler_command.cpp:55-69 | a 503 is sent while SERIAL does not hold the lock exactly if the owner was read a second time and was NONE by then |
| LockRuns.HttpBusyOnFreeLock | src/http_handler/handler_command.cpp:63-69 | such a run: SERIAL gives the lock back between the two reads |
| LockRuns.SwapHistory | src/serial_daemon.cpp:162-168 | while the serial side is about to read the owner, it owns the lock, or HTTP held it at the failed compare-and-swap |
| LockRuns.SerialBusyJustified | src/serial_daemon.cpp:162-168 | "BUSY" is sent only if HTTP held the lock at the failed compare-and-swap of that line |
| LockRuns.SerialBusyWithoutHttpIff | src/serial_daemon.cpp:162-168 | "BUSY" is sent while HTTP does not hold the lock exactly if the lock is free, HTTP having held it at the failed swap |
| LockRuns.SerialBusyOnFreeLock | src/serial_daemon.cpp:162-168 | such a run |
| LockServes.HttpServes | src/http_handler/handler_command.cpp:43-75 | a request that no other step interrupts, from every state: which spellings pass the check, 503 exactly while SERIAL owns, else served with HTTP as owner, or freed and answered OK by AT+RESET and AT+FORCERESET |
| LockServes.SerialServes | src/serial_daemon.cpp:162-183 | the same for a line: "BUSY" exactly while HTTP owns, else served or freed |
| LockServes.OwnerResetFrees | src/at_handler/handler_basic.cpp:25-36 | AT+RESET by the owner, in any spelling, frees the lock and the next command of the other side is served; `/api/reset` frees it whoever owns it |
| LockServes.ResetDoneFreesIff | src/at_handler/handler_basic.cpp:25-36 | a reset answered OK leaves the lock free exactly if the other side does not own it by then |
| LockServes.ResetFrees | src/serial_daemon.cpp:67-76 | over all interleavings without an override, the lock is free when a reset is answered OK |
| LockServes.HttpOwnerIsServed | src/http_handler/handler_command.cpp:53-75 | over all interleavings without an override, a request of the owner is never refused: AT+RESET and AT+FORCERESET are answered OK with the lock free, any other is handled and the owner stays |
| LockServes.SerialOwnerIsServed | src/serial_daemon.cpp:162-183 | the same for SERIAL |
| LockServes.ShutdownIsFinal | src/serial_daemon.cpp:38-50 | over all interleavings, a shutdown frees the lock and no line is taken after it |
| UploadSteps.FinishIsProcess | src/at_handler/handler_upload.cpp:54-281 | a handler's single accesses to the shared fields, made without interruption, do what is specified for the whole command |
| LockedUploads.WorldIsRun | src/at_command.cpp:21-57 | between any safe state and a later one without a harmful override, every interleaving of the handlers' steps comes to the same as a run of whole commands, in the order in which the handlers were entered, and the replies given and to come are those of that run |
| LockedUploads.UploadInvariantHolds | src/at_handler/handler_upload.cpp:22-43 | without a harmful override, the invariant of all runs holds in every state of the two threads in which no handler is at work, and of any other once that handler has ended |
| TornUploads.HarmfulClosesTwice | src/at_handler/handler_upload.cpp:206-214 | from every safe state in which the serial side has yet to close an open upload, a harmful override, and no further one, leads to two closings of that handle |
| TornUploads.OverrideClosesTwice | src/at_handler/handler_upload.cpp:206-214 | from the start: every upload with an open handle, one AT+FORCERESET over HTTP and two AT+UPLOADDONE lead to two closings of that handle |
| LockedUploads.PeriodCalls | src/serial_daemon.cpp:162-183 | every handler entered within one period of ownership that begins in a safe state is the owner's |
| LockedUploads.NoOwnerNoCalls | src/serial_daemon.cpp:162-183 | while nobody owns the lock and it is not overridden, no handler is entered |
| LockedUploads.PeriodIsolated | src/serial_daemon.cpp:162-183 | within one unbroken period of ownership that begins in a safe state, whatever came before, the upload goes through the owner's commands and nobody else's |
| LockedUploads.DeliveredUnderLock | src/http_handler/handler_command.cpp:53-75 | an upload that one side carries out within one such period is published exactly, and the last reply given in it, or to come, says so, whatever the other side attempts |
| FlashWorker.InvHolds | src/at_handler/handler_flash.cpp:28-93 | what every shared field holds at each point of the worker and of the poll, over all interleavings |
| FlashWorker.ResultIsFinal | src/at_handler/handler_flash.cpp:155-187 | an OK or ERROR result carries the latest submitted command, its final output and its final exit code |
| FlashWorker.ReportedAtMostOnce | src/at_handler/handler_flash.cpp:183-186 | and is reported at most once per submission |
| FlashWorker.TimeoutJoins | src/at_handler/handler_flash.cpp:37-42 | a timeout is answered only after the worker has ended, and leaves its result to be fetched |
| FlashWorker.SubmitCrashesIff | src/at_handler/handler_flash.cpp:135-148 | a submission is refused exactly while `running` is set, goes through exactly without a worker, and ends the program exactly with a worker not yet running or not yet joined |
| FlashWorker.CrashingRuns | src/at_handler/handler_flash.cpp:135-148 | two runs that end so |
| FlashWorker.EarlyPollFindsNothing | src/at_handler/handler_flash.cpp:158-160 | a poll before the worker's first step denies the submission |
| FlashRuns.DoneIffResult | src/at_handler/handler_flash.cpp:28-93 | `done` is set exactly while there is a final result that has not been reported |
| FlashRuns.PollAnswers | src/at_handler/handler_flash.cpp:155-187 | after every run, a poll that the worker does not interrupt: what it answers and leaves, by where the worker stands |
| FlashRuns.WaitsEnd | src/at_handler/handler_flash.cpp:37-42 | when the worker has ended, a waiting poll is answered with the result, or with the timeout, and the next submission is taken |
| FlashRuns.ResultIsReported | src/at_handler/handler_flash.cpp:155-187 | over all interleavings, a poll that begins when there is a result answers with it: latest command, whole output, exit code |
| FlashRuns.NoResultDenied | src/at_handler/handler_flash.cpp:155-171 | over all interleavings, "no pending" and RUNNING are answered only while there is no result, and a timeout only when there is one |
| FlashRuns.RunIsReported | src/at_handler/handler_flash.cpp:60-93 | from the submission over any lines of output to the end of the worker: the poll reports the command, all its output less the line ends behind it, and OK exactly for exit code 0; the next submission is taken |
| FlashRuns.FailureIsReported | src/at_handler/handler_flash.cpp:60-93 | the same when `popen` fails and when reading throws: exit code -1 and what had been read |

## Left out

- Upload.ReadRequest: `strtoull` and `strtoul` are those of a platform with 64-bit `long`; character tests and upper-casing are those of ASCII, and paths have no NUL character.
- Upload.Judge: `sscanf("%2x")` on a pair that is not hexadecimal is a parameter, not specified further.
- Upload.Process: the text of a reply is modelled by its parts; AT+STATUS, AT+VERSION, AT+HELP, AT+EXEC, AT+REBOOT and unknown names only as commands that leave the upload alone.
- Upload.Append: what `fwrite` takes is in the file at once; what the last flush loses is taken off at `fclose`.
- UploadFiles.NoTemporaryFileLeft: not when `unlink` fails; the code ignores that failure.
- SessionLock.Next: atomics are sequentially consistent; the debug endpoint that sets the lock is not a step.
- UploadSteps.Advance: a read and a write of the same field that stand side by side, one assignment of a string and one update of the digest context are one step each, and a handle that has been closed is only counted; what handlers that overlap after an override do beyond that is not described.
- SerialLine.SerialPort.ReadLine: time is an event of the stream; opening, closing and reconnecting the port are not modelled.
- FlashWorker.Next: submission and poll come from one thread at a time, as under the session lock; the trimming loop and the join with what follows it are one step each; parsing the file and mode of AT+FLASH is left out.
- Files written by anybody else, among them the multipart upload over HTTP and AT+EXEC.
- The libmicrohttpd callbacks, JSON, the status pages, logging and configuration.
- Collision resistance of MD5.
