/** Uploads from end to end: what a client sends, what arrives, and what is published. */
module Delivery {
  import opened Common
  import opened AtText
  import opened Upload
  import opened UploadRuns
  import opened UploadFiles
  import opened UploadFormats
  import Md5
  import Crc16
  import CrcErrors
  import CrcOrder
  import CrcPolynomial
  import Gf2

  // ------------------------------------------------------------------ frames

  /** The argument of AT+UPLOAD when the client sends `sent` and the channel turns its data into `arriving`. */
  function FrameArgument(sent: seq<Byte>, arriving: seq<Byte>): string {
    Hex(arriving) + "," + Hex4(Crc16.Crc(sent)) + "," + Decimal(|sent|)
  }

  function FrameLine(sent: seq<Byte>, arriving: seq<Byte>): string {
    "AT+UPLOAD=" + FrameArgument(sent, arriving)
  }

  /** The frame of one chunk. */
  function ClientFrame(chunk: seq<Byte>): string {
    FrameLine(chunk, chunk)
  }

  /** The declared length, as the handler reads it back. */
  function DeclaredLength(n: nat): nat {
    ParseUnsigned(Decimal(n)) % TWO_TO_32
  }

  lemma DeclaredLengthIs(n: nat)
    ensures DeclaredLength(n) == n <==> n < TWO_TO_32
  {
    DecimalValueOf(n);
    hide DecimalValue, Decimal;
  }

  /** What becomes of a frame whose data may have been damaged on the way. */
  lemma VerdictOn(sent: seq<Byte>, arriving: seq<Byte>, other: string -> Byte)
    ensures Judge(FrameArgument(sent, arriving), other) ==
      if |arriving| != DeclaredLength(|sent|) then
        Malformed(FrameLengthMismatch(DeclaredLength(|sent|), |arriving|))
      else if Crc16.Crc(arriving) != Crc16.Crc(sent) then
        BadCrc(Hex4(Crc16.Crc(sent)), Crc16.Crc(arriving))
      else Sound(arriving)
  {
    hide Hex, Hex4, Unhex, Decimal, ParseUnsigned, Crc16.Crc, Value4, Judge;
    SplitFrame(Hex(arriving), Hex4(Crc16.Crc(sent)), Decimal(|sent|), other);
    UnhexOfHex(arriving, other);
    Value4OfHex4(Crc16.Crc(sent));
    SameNumber(Crc16.Crc(arriving), Crc16.Crc(sent));
  }

  function OfNumber(n: nat): bv16
    requires n < 0x1_0000
  {
    n as bv16
  }

  lemma NumberBack(a: bv16)
    ensures OfNumber(a as nat) == a
  {
  }

  lemma SameNumber(a: bv16, b: bv16)
    ensures a as nat == b as nat <==> a == b
  {
    hide OfNumber;
    NumberBack(a);
    NumberBack(b);
  }

  lemma FrameParses(sent: seq<Byte>, arriving: seq<Byte>)
    ensures Parse(FrameLine(sent, arriving)) == Command("UPLOAD", FrameArgument(sent, arriving))
    ensures FrameArgument(sent, arriving) != ""
  {
    hide Hex, Hex4, Decimal, Crc16.Crc, Parse, AllHexDigits;
    var arg := FrameArgument(sent, arriving);
    var digits := Decimal(|sent|);
    assert arg[|arg| - 1] == digits[|digits| - 1];
    assert UpperAll("UPLOAD") == "UPLOAD";
    assert "AT+" + "UPLOAD" + "=" + arg == FrameLine(sent, arriving);
    ParseOf("UPLOAD", arg);
  }

  /** A client's frame is taken exactly if its length fits 32 bits, and then its payload is the chunk. */
  lemma FrameIsSound(chunk: seq<Byte>, out: Outcome, other: string -> Byte)
    ensures Judge(FrameArgument(chunk, chunk), other) == Sound(chunk) <==> |chunk| < TWO_TO_32
    ensures |chunk| < TWO_TO_32 ==> Payload(Call(ClientFrame(chunk), out), other) == chunk
  {
    hide Judge, FrameArgument, Parse, DeclaredLength, Crc16.Crc, FrameLine;
    VerdictOn(chunk, chunk, other);
    DeclaredLengthIs(|chunk|);
    FrameParses(chunk, chunk);
  }

  // ------------------------------------------------------------------ damaged frames

  /** A frame whose data is damaged is refused exactly if the checksums differ, and a refused one changes nothing but
      the frame counter. */
  lemma DamagedFrame(w: World, dir: string, sent: seq<Byte>, arriving: seq<Byte>, out: Outcome, other: string -> Byte)
    requires w.up.active && w.up.file && |arriving| == |sent| < TWO_TO_32
    ensures var s := Process(w, dir, Call(FrameLine(sent, arriving), out), other);
      && (s.reply.CrcMismatch? <==> Crc16.Crc(arriving) != Crc16.Crc(sent))
      && (s.reply.CrcMismatch? ==>
          && s.reply == CrcMismatch(w.up.frameCount, Hex4(Crc16.Crc(sent)), Hex4(Crc16.Crc(arriving)))
          && s.world == w.(up := w.up.(frameCount := (w.up.frameCount + 1) % TWO_TO_32)))
  {
    hide Judge, FrameArgument, FrameLine, Parse, DeclaredLength, Crc16.Crc, Hex4;
    VerdictOn(sent, arriving, other);
    DeclaredLengthIs(|sent|);
    FrameParses(sent, arriving);
  }

  predicate Refuses(w: World, dir: string, sent: seq<Byte>, arriving: seq<Byte>, out: Outcome, other: string -> Byte) {
    var s := Process(w, dir, Call(FrameLine(sent, arriving), out), other);
    s.reply.CrcMismatch? && s.world == w.(up := w.up.(frameCount := (w.up.frameCount + 1) % TWO_TO_32))
  }

  /** Damage within sixteen consecutive bits is always refused. */
  lemma BurstRefused(w: World, dir: string, sent: seq<Byte>, arriving: seq<Byte>, out: Outcome,
                     other: string -> Byte, p: nat)
    requires w.up.active && w.up.file && |arriving| == |sent| < TWO_TO_32 && arriving != sent
    requires forall i :: 0 <= i < 8 * |arriving| && Crc16.Bits(arriving)[i] != Crc16.Bits(sent)[i] ==> p <= i < p + 16
    ensures Refuses(w, dir, sent, arriving, out, other)
  {
    hide Process, Crc16.Crc, Crc16.Bits, FrameLine;
    CrcErrors.BurstDetected(arriving, sent, p);
    DamagedFrame(w, dir, sent, arriving, out, other);
  }

  /** Damage to two bits is refused exactly if their distance is no multiple of 32767. */
  lemma TwoBitsRefused(w: World, dir: string, sent: seq<Byte>, arriving: seq<Byte>, out: Outcome,
                       other: string -> Byte, p: nat, q: nat)
    requires w.up.active && w.up.file && |arriving| == |sent| < TWO_TO_32 && p < q < 8 * |arriving|
    requires forall i :: 0 <= i < 8 * |arriving| ==>
               (Crc16.Bits(arriving)[i] != Crc16.Bits(sent)[i] <==> i == p || i == q)
    ensures Refuses(w, dir, sent, arriving, out, other) <==> (q - p) % CrcOrder.ORDER != 0
  {
    hide Process, Crc16.Crc, Crc16.Bits, FrameLine;
    CrcErrors.TwoBitErrors(arriving, sent, p, q);
    DamagedFrame(w, dir, sent, arriving, out, other);
  }

  /** Damage to an odd number of bits is always refused. */
  lemma OddDamageRefused(w: World, dir: string, sent: seq<Byte>, arriving: seq<Byte>, out: Outcome,
                         other: string -> Byte)
    requires w.up.active && w.up.file && |arriving| == |sent| < TWO_TO_32
    requires Gf2.Odd(|CrcPolynomial.Differing(Crc16.Bits(arriving), Crc16.Bits(sent))|)
    ensures Refuses(w, dir, sent, arriving, out, other)
  {
    hide Process, Crc16.Crc, Crc16.Bits, FrameLine, Gf2.Odd, CrcPolynomial.Differing;
    CrcPolynomial.OddErrorsDetected(arriving, sent);
    DamagedFrame(w, dir, sent, arriving, out, other);
  }

  // ------------------------------------------------------------------ a run of frames

  /** The payloads of a run of commands, in order. */
  function Payloads(cs: seq<Call>, other: string -> Byte): seq<Byte> {
    if cs == [] then [] else Payload(cs[0], other) + Payloads(cs[1..], other)
  }

  /** A command that ends an upload. */
  predicate Ends(c: Call) {
    var p := Parse(c.raw);
    p.Command? && p.action in {"UPLOADDONE", "UPLOADCANCEL"}
  }

  predicate WritesAll(c: Call, other: string -> Byte) {
    c.out.writes >= |Payload(c, other)|
  }

  /** An upload and its file after taking in more data; only the frame counter is left open. */
  predicate TookIn(before: World, after: World, data: seq<Byte>) {
    before.up.active && before.up.file && before.up.tmpPath in before.files
    && after.up == before.up.(received := (before.up.received + |data|) % TWO_TO_64,
                              hashed := before.up.hashed + data, frameCount := after.up.frameCount)
    && after.files == before.files[before.up.tmpPath := before.files[before.up.tmpPath] + data]
    && after.fopens == before.fopens && after.fcloses == before.fcloses
  }

  predicate Taking(w: World) {
    w.up.active && w.up.file && w.up.tmpPath in w.files && w.up.received < TWO_TO_64
  }

  lemma NothingTakenIn(w: World)
    requires Taking(w)
    ensures TookIn(w, w, [])
  {
    assert w.files[w.up.tmpPath] + [] == w.files[w.up.tmpPath];
  }

  lemma StepTakesIn(w: World, dir: string, c: Call, other: string -> Byte)
    requires Taking(w) && !Ends(c) && WritesAll(c, other)
    ensures TookIn(w, Process(w, dir, c, other).world, Payload(c, other))
  {
    hide Parse, Judge, Verify, Payload, UploadFrame, Preupload, UploadDone, UploadCancel, TookIn;
    NothingTakenIn(w);
    match Parse(c.raw)
    case Command(action, arg) =>
      if action == "UPLOAD" {
        FrameTakesIn(w, dir, c, other, arg);
      } else {
        NoPayload(c, other);
        RefusedWhileActive(w, dir, arg, c.out);
      }
    case _ =>
      NoPayload(c, other);
  }

  lemma NoPayload(c: Call, other: string -> Byte)
    requires Parse(c.raw).Command? ==> Parse(c.raw).action != "UPLOAD"
    ensures Payload(c, other) == []
  {
    hide Parse;
  }

  lemma RefusedWhileActive(w: World, dir: string, arg: string, out: Outcome)
    requires w.up.active
    ensures Preupload(w, dir, arg, out).world == w
  {
  }

  lemma FrameTakesIn(w: World, dir: string, c: Call, other: string -> Byte, arg: string)
    requires Taking(w) && WritesAll(c, other) && Parse(c.raw) == Command("UPLOAD", arg)
    ensures TookIn(w, UploadFrame(w, arg, c.out, other).world, Payload(c, other))
  {
    hide Parse, Judge, Hex4;
    assert arg == "" ==> Judge(arg, other).Malformed? by {
      EmptyFrame(other);
    }
    var f := w.files[w.up.tmpPath];
    assert f + [] == f && w.up.hashed + [] == w.up.hashed;
  }

  lemma EmptyFrame(other: string -> Byte)
    ensures Judge("", other).Malformed?
  {
  }

  lemma TookInBoth(a: World, b: World, c: World, x: seq<Byte>, y: seq<Byte>)
    requires TookIn(a, b, x) && TookIn(b, c, y)
    ensures TookIn(a, c, x + y)
  {
    Md5.WrappedCounter(a.up.received + |x|, |y|);
    assert a.up.hashed + x + y == a.up.hashed + (x + y);
    var f := a.files[a.up.tmpPath];
    assert f + x + y == f + (x + y);
  }

  /** Whatever is sent in between, as long as nothing ends the upload and no write falls short, the upload takes in the
      payloads of the sound frames and nothing else. */
  lemma {:induction false} RunTakesIn(w: World, dir: string, cs: seq<Call>, other: string -> Byte)
    requires Taking(w) && forall i :: 0 <= i < |cs| ==> !Ends(cs[i]) && WritesAll(cs[i], other)
    ensures TookIn(w, Run(w, dir, cs, other), Payloads(cs, other))
    decreases |cs|
  {
    hide Process, Payload, Ends, WritesAll;
    if cs == [] {
      NothingTakenIn(w);
    } else {
      var next := Process(w, dir, cs[0], other).world;
      StepTakesIn(w, dir, cs[0], other);
      RunTakesIn(next, dir, cs[1..], other);
      TookInBoth(w, next, Run(next, dir, cs[1..], other), Payload(cs[0], other), Payloads(cs[1..], other));
    }
  }

  // ------------------------------------------------------------------ the opening line

  function PreuploadLine(filename: string, size: nat, md5: string): string {
    "AT+PREUPLOAD=" + filename + "," + Decimal(size) + "," + md5
  }

  /** The opening line of a valid request is read as that request. A comma would end the name early. */
  lemma RequestReadBack(filename: string, size: nat, md5: string)
    requires ValidName(filename) && ',' !in filename && 0 < size < TWO_TO_64 && |md5| == 32 && AllHexDigits(md5)
    ensures ReadRequest(filename + "," + Decimal(size) + "," + md5) == Good(filename, size, md5)
  {
    hide ReadRequest, Decimal, ValidName;
    DecimalValueOf(size);
    WellWrittenIsRead(filename + "," + Decimal(size) + "," + md5, filename, Decimal(size), md5);
    hide DecimalValue;
  }

  lemma PreuploadParses(filename: string, size: nat, md5: string)
    requires |md5| == 32 && AllHexDigits(md5)
    ensures Parse(PreuploadLine(filename, size, md5)) ==
            Command("PREUPLOAD", filename + "," + Decimal(size) + "," + md5)
  {
    hide Decimal, Parse;
    var arg := filename + "," + Decimal(size) + "," + md5;
    assert arg[|arg| - 1] == md5[31];
    assert UpperAll("PREUPLOAD") == "PREUPLOAD";
    assert "AT+" + "PREUPLOAD" + "=" + arg == PreuploadLine(filename, size, md5);
    ParseOf("PREUPLOAD", arg);
  }

  // ------------------------------------------------------------------ delivery

  /** A PREUPLOAD that promises these bytes under this name. */
  predicate Opens(pre: Call, filename: string, data: seq<Byte>) {
    pre.raw == PreuploadLine(filename, |data|, Md5Hex(data)) && pre.out.opens
  }

  predicate IsDone(c: Call) {
    Parse(c.raw).Command? && Parse(c.raw).action == "UPLOADDONE"
  }

  /** An UPLOADDONE whose flush and rename succeed. */
  predicate Closes(done: Call) {
    IsDone(done) && done.out.lost == 0 && done.out.renames
  }

  /** A valid request is taken whatever the case of its digest. */
  lemma PromiseTaken(w: World, dir: string, out: Outcome, filename: string, size: nat, md5: string,
                     other: string -> Byte)
    requires !w.up.active && ValidName(filename) && ',' !in filename && 0 < size < TWO_TO_64
    requires |md5| == 32 && AllHexDigits(md5) && out.opens
    ensures var tmp := PathIn(dir, TmpName(filename));
      Process(w, dir, Call(PreuploadLine(filename, size, md5), out), other) ==
      Step(World(Upload(true, filename, tmp, size, 0, 0, true, md5, []), w.files[tmp := []], w.fopens + 1, w.fcloses),
           Ready)
  {
    hide Parse, ReadRequest, PathIn, TmpName, PreuploadLine, Decimal, ValidName, Contains, AllHexDigits;
    PreuploadParses(filename, size, md5);
    RequestReadBack(filename, size, md5);
  }

  lemma OpeningStep(w: World, dir: string, pre: Call, filename: string, data: seq<Byte>, other: string -> Byte)
    requires !w.up.active && ValidName(filename) && ',' !in filename && 0 < |data| < TWO_TO_64
    requires Opens(pre, filename, data)
    ensures var tmp := PathIn(dir, TmpName(filename));
      Process(w, dir, pre, other) ==
      Step(World(Upload(true, filename, tmp, |data|, 0, 0, true, Md5Hex(data), []), w.files[tmp := []],
                 w.fopens + 1, w.fcloses), Ready)
  {
    hide Process, Md5Hex, PathIn, TmpName, PreuploadLine, ValidName;
    PromiseTaken(w, dir, pre.out, filename, |data|, Md5Hex(data), other);
    assert pre == Call(PreuploadLine(filename, |data|, Md5Hex(data)), pre.out);
  }

  lemma ClosingStep(w: World, full: World, dir: string, filename: string, data: seq<Byte>, done: Call,
                    other: string -> Byte)
    requires Closes(done)
    requires var tmp := PathIn(dir, TmpName(filename));
      full == World(Upload(true, filename, tmp, |data|, |data|, full.up.frameCount, true, Md5Hex(data), data),
                    w.files[tmp := data], w.fopens + 1, w.fcloses)
    ensures Process(full, dir, done, other) ==
      Step(World(IDLE, w.files[PathIn(dir, filename) := data] - {PathIn(dir, TmpName(filename))},
                 w.fopens + 1, w.fcloses + 1),
           Published(filename, |data|, Md5Hex(data)))
  {
    hide Parse, PathIn, TmpName, Md5Hex;
    TmpIsNotFinal(dir, filename);
    var tmp, final := PathIn(dir, TmpName(filename)), PathIn(dir, filename);
    assert Flushed(data, 0) == data;
    assert FlushFile(full.files, tmp, 0) == w.files[tmp := data];
    assert w.files[tmp := data][final := data] - {tmp} == w.files[final := data] - {tmp};
  }

  /** Every non-empty sequence of bytes arrives: after PREUPLOAD with its size and digest, any commands whose sound
      frames carry it in order, and UPLOADDONE, the reply is OK with its size and digest, the file holds exactly these
      bytes, no other file has changed, the temporary one is gone and the upload is reset. */
  lemma Delivered(w: World, dir: string, filename: string, data: seq<Byte>, pre: Call, cs: seq<Call>, done: Call,
                  other: string -> Byte)
    requires !w.up.active && ValidName(filename) && ',' !in filename && 0 < |data| < TWO_TO_64
    requires Opens(pre, filename, data) && Payloads(cs, other) == data
    requires forall i :: 0 <= i < |cs| ==> !Ends(cs[i]) && WritesAll(cs[i], other)
    requires Closes(done)
    ensures var s := Process(Run(w, dir, [pre] + cs, other), dir, done, other);
      && s.reply == Published(filename, |data|, Md5Hex(data))
      && s.world == World(IDLE, w.files[PathIn(dir, filename) := data] - {PathIn(dir, TmpName(filename))},
                          w.fopens + 1, w.fcloses + 1)
  {
    hide Process, Payloads, Ends, WritesAll, PathIn, TmpName, Md5Hex, ValidName, Opens, IsDone;
    OpeningStep(w, dir, pre, filename, data, other);
    var open := Process(w, dir, pre, other).world;
    RunTakesIn(open, dir, cs, other);
    assert ([pre] + cs)[0] == pre && ([pre] + cs)[1..] == cs;
    assert [] + data == data;
    TmpIsNotFinal(dir, filename);
    ClosingStep(w, Run(open, dir, cs, other), dir, filename, data, done, other);
  }

  function Concat(chunks: seq<seq<Byte>>): seq<Byte> {
    if chunks == [] then [] else chunks[0] + Concat(chunks[1..])
  }

  /** One frame per chunk. */
  function FrameCalls(chunks: seq<seq<Byte>>, out: Outcome): (cs: seq<Call>)
    ensures |cs| == |chunks| && forall i :: 0 <= i < |chunks| ==> cs[i] == Call(ClientFrame(chunks[i]), out)
  {
    seq(|chunks|, i requires 0 <= i < |chunks| => Call(ClientFrame(chunks[i]), out))
  }

  /** The frames of any division into chunks carry the whole. */
  lemma {:induction false} FramesCarryChunks(chunks: seq<seq<Byte>>, out: Outcome, other: string -> Byte)
    requires forall i :: 0 <= i < |chunks| ==> |chunks[i]| < TWO_TO_32
    ensures Payloads(FrameCalls(chunks, out), other) == Concat(chunks)
    decreases |chunks|
  {
    hide Payload, ClientFrame;
    if chunks != [] {
      FrameIsSound(chunks[0], out, other);
      FramesCarryChunks(chunks[1..], out, other);
      assert FrameCalls(chunks, out)[1..] == FrameCalls(chunks[1..], out);
    }
  }

  lemma FrameCallBehaves(chunk: seq<Byte>, out: Outcome, other: string -> Byte)
    requires |chunk| < TWO_TO_32 && out.writes >= |chunk|
    ensures var c := Call(ClientFrame(chunk), out); !Ends(c) && WritesAll(c, other)
  {
    FrameParses(chunk, chunk);
    FrameIsSound(chunk, out, other);
    hide Parse, FrameArgument, FrameLine, Judge, Payload, Crc16.Crc;
  }

  lemma DoneParses()
    ensures Parse("AT+UPLOADDONE") == AtText.Command("UPLOADDONE", "")
  {
    hide Parse;
    assert UpperAll("UPLOADDONE") == "UPLOADDONE";
    assert "AT+" + "UPLOADDONE" == "AT+UPLOADDONE";
    ParseOfBare("UPLOADDONE");
  }

  /** What a client does: PREUPLOAD, one frame per chunk, UPLOADDONE. However the data are divided, they arrive. */
  lemma ChunksDelivered(w: World, dir: string, filename: string, chunks: seq<seq<Byte>>, opening: Outcome, out: Outcome,
                        closing: Outcome, other: string -> Byte)
    requires !w.up.active && ValidName(filename) && ',' !in filename && 0 < |Concat(chunks)| < TWO_TO_64
    requires forall i :: 0 <= i < |chunks| ==> |chunks[i]| < TWO_TO_32 && |chunks[i]| <= out.writes
    requires opening.opens && closing.renames && closing.lost == 0
    ensures var data := Concat(chunks);
      var pre := Call(PreuploadLine(filename, |data|, Md5Hex(data)), opening);
      var s := Process(Run(w, dir, [pre] + FrameCalls(chunks, out), other), dir, Call("AT+UPLOADDONE", closing), other);
      && s.reply == Published(filename, |data|, Md5Hex(data))
      && s.world == World(IDLE, w.files[PathIn(dir, filename) := data] - {PathIn(dir, TmpName(filename))},
                          w.fopens + 1, w.fcloses + 1)
  {
    hide Process, Run, Concat, Md5Hex, PathIn, TmpName, ValidName, PreuploadLine, Payloads, Ends, WritesAll,
      ClientFrame, Parse;
    var data, cs := Concat(chunks), FrameCalls(chunks, out);
    var pre := Call(PreuploadLine(filename, |data|, Md5Hex(data)), opening);
    FramesCarryChunks(chunks, out, other);
    forall i | 0 <= i < |cs| ensures !Ends(cs[i]) && WritesAll(cs[i], other) {
      FrameCallBehaves(chunks[i], out, other);
    }
    DoneParses();
    Delivered(w, dir, filename, data, pre, cs, Call("AT+UPLOADDONE", closing), other);
  }

  // ------------------------------------------------------------------ why a short write matters

  /** The client repeats a frame whose write fell short, as "write failed" invites it to. UPLOADDONE then replies OK
      with the right size and digest, but the published file has the part that was written the first time in front. */
  lemma RetryAfterShortWrite(w: World, dir: string, filename: string, data: seq<Byte>, k: nat, pre: Call, done: Call,
                             other: string -> Byte)
    requires !w.up.active && ValidName(filename) && ',' !in filename && 0 < k < |data| < TWO_TO_32
    requires Opens(pre, filename, data) && Closes(done)
    ensures var first := Call(ClientFrame(data), Outcome(true, k, 0, true, true));
      var second := Call(ClientFrame(data), Outcome(true, |data|, 0, true, true));
      var s := Process(Run(w, dir, [pre, first, second], other), dir, done, other);
      && s.reply == Published(filename, |data|, Md5Hex(data))
      && PathIn(dir, filename) in s.world.files
      && s.world.files[PathIn(dir, filename)] == data[..k] + data != data
  {
    hide Process, PathIn, TmpName, Md5Hex, ValidName, Opens, IsDone, ClientFrame;
    var first := Call(ClientFrame(data), Outcome(true, k, 0, true, true));
    var second := Call(ClientFrame(data), Outcome(true, |data|, 0, true, true));
    OpeningStep(w, dir, pre, filename, data, other);
    var a := Process(w, dir, pre, other).world;
    ShortStep(a, dir, data, k, other);
    var b := Process(a, dir, first, other).world;
    FullStep(b, dir, data, other);
    var c := Process(b, dir, second, other).world;
    assert [pre, first, second][1..] == [first, second] && [first, second][1..] == [second] && [second][1..] == [];
    assert Run(a, dir, [first, second], other) == Run(b, dir, [second], other) == c;
    assert [] + data[..k] == data[..k] && [] + data == data;
    TornClosing(c, dir, filename, data, data[..k] + data, done, other);
  }

  lemma ShortStep(w: World, dir: string, data: seq<Byte>, k: nat, other: string -> Byte)
    requires w.up.active && w.up.file && w.up.tmpPath in w.files && k < |data| < TWO_TO_32
    ensures Process(w, dir, Call(ClientFrame(data), Outcome(true, k, 0, true, true)), other) ==
      Step(w.(files := w.files[w.up.tmpPath := w.files[w.up.tmpPath] + data[..k]]), Refused(WriteFailed))
  {
    hide Parse, Judge, FrameArgument, FrameLine;
    FrameParses(data, data);
    FrameIsSound(data, Outcome(true, k, 0, true, true), other);
  }

  lemma FullStep(w: World, dir: string, data: seq<Byte>, other: string -> Byte)
    requires w.up.active && w.up.file && w.up.tmpPath in w.files && |data| < TWO_TO_32
    ensures var received := (w.up.received + |data|) % TWO_TO_64;
      Process(w, dir, Call(ClientFrame(data), Outcome(true, |data|, 0, true, true)), other) ==
      Step(w.(files := w.files[w.up.tmpPath := w.files[w.up.tmpPath] + data],
              up := w.up.(received := received, hashed := w.up.hashed + data,
                          frameCount := (w.up.frameCount + 1) % TWO_TO_32)),
           Received(received))
  {
    hide Parse, Judge, FrameArgument, FrameLine;
    FrameParses(data, data);
    FrameIsSound(data, Outcome(true, |data|, 0, true, true), other);
  }

  lemma TornClosing(w: World, dir: string, filename: string, data: seq<Byte>, stored: seq<Byte>, done: Call,
                    other: string -> Byte)
    requires Closes(done) && w.up.active && w.up.file
    requires w.up.filename == filename && w.up.tmpPath == PathIn(dir, TmpName(filename)) && w.up.tmpPath in w.files
    requires w.up.received == w.up.expectedSize == |data| && w.up.hashed == data && w.up.expectedMd5 == Md5Hex(data)
    requires w.files[w.up.tmpPath] == stored
    ensures var s := Process(w, dir, done, other);
      && s.reply == Published(filename, |data|, Md5Hex(data))
      && PathIn(dir, filename) in s.world.files && s.world.files[PathIn(dir, filename)] == stored
  {
    hide Parse, PathIn, TmpName, Md5Hex;
    TmpIsNotFinal(dir, filename);
  }
}
