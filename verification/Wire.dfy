/** The whole way over the serial line: written line, bytes, read line, command, decoded and checked data. */
module Wire {
  import opened Common
  import opened AtText
  import opened SerialLine
  import opened Upload
  import opened UploadRuns
  import opened UploadFiles
  import opened Delivery
  import Crc16
  import CrcOrder

  /** The most payload that a frame on the serial line can carry. */
  const MAX_PAYLOAD := 4086

  lemma FrameLength(sent: seq<Byte>, arriving: seq<Byte>)
    ensures |FrameLine(sent, arriving)| == 16 + 2 * |arriving| + |Decimal(|sent|)|
    ensures '\n' !in FrameLine(sent, arriving)
  {
    hide Decimal, Crc16.Crc, Hex, Hex4;
    NoNewlineInDigits(Hex(arriving));
    NoNewlineInDigits(Hex4(Crc16.Crc(sent)));
    NoNewlineInDigits(Decimal(|sent|));
    hide AllHexDigits, AllDigits;
  }

  lemma NoNewlineInDigits(s: string)
    requires AllHexDigits(s) || AllDigits(s)
    ensures '\n' !in s
  {
  }

  lemma FitsIff(sent: seq<Byte>, arriving: seq<Byte>)
    requires |sent| == |arriving|
    ensures |FrameLine(sent, arriving)| <= MAX_LINE_LEN <==> |sent| <= MAX_PAYLOAD
  {
    FrameLength(sent, arriving);
    DecimalLength(|sent|);
    hide FrameLine, Decimal;
  }

  /** A chunk's frame, written, read without a gap in the data, trimmed, parsed, split, decoded and checked, yields the
      chunk exactly if the chunk has at most 4086 bytes; a longer frame is thrown away. */
  lemma RoundTrip(chunk: seq<Byte>, events: seq<ReadEvent>, out: Outcome, other: string -> Byte)
    requires Steady(events) && BytesOf(events) == Frame(ClientFrame(chunk))
    ensures var r := ReadOf(events);
      && (r.Line? <==> |chunk| <= MAX_PAYLOAD)
      && (r.Line? ==>
          && Parse(r.text) == AtText.Command("UPLOAD", FrameArgument(chunk, chunk))
          && Judge(FrameArgument(chunk, chunk), other) == Sound(chunk)
          && Payload(Call(r.text, out), other) == chunk)
      && (!r.Line? ==> r == Discarded)
  {
    FrameReadBack(chunk, chunk, events);
    FrameParses(chunk, chunk);
    FrameIsSound(chunk, out, other);
    hide FrameLine, FrameArgument, Judge, Parse, Payload, ReadOf, BytesOf, Frame, Crc16.Crc;
  }

  /** On the serial line every two-bit error in the data of a frame is refused: a frame that fits is too short for the
      one distance that would go unnoticed. */
  lemma TwoBitsNeverPass(w: World, dir: string, sent: seq<Byte>, arriving: seq<Byte>, events: seq<ReadEvent>,
                         out: Outcome, other: string -> Byte, p: nat, q: nat)
    requires w.up.active && w.up.file && |arriving| == |sent| && p < q < 8 * |arriving|
    requires forall i :: 0 <= i < 8 * |arriving| ==>
               (Crc16.Bits(arriving)[i] != Crc16.Bits(sent)[i] <==> i == p || i == q)
    requires Steady(events) && BytesOf(events) == Frame(FrameLine(sent, arriving)) && ReadOf(events).Line?
    ensures ReadOf(events).text == FrameLine(sent, arriving) && Refuses(w, dir, sent, arriving, out, other)
  {
    hide FrameLine, ReadOf, BytesOf, Frame, Refuses, Crc16.Bits;
    FrameReadBack(sent, arriving, events);
    ShortDistance(q - p);
    TwoBitsRefused(w, dir, sent, arriving, out, other, p, q);
  }

  lemma FrameReadBack(sent: seq<Byte>, arriving: seq<Byte>, events: seq<ReadEvent>)
    requires |arriving| == |sent| && Steady(events) && BytesOf(events) == Frame(FrameLine(sent, arriving))
    ensures ReadOf(events) == if |sent| <= MAX_PAYLOAD then Line(FrameLine(sent, arriving)) else Discarded
  {
    FrameLength(sent, arriving);
    FitsIff(sent, arriving);
    hide FrameLine, ReadOf, BytesOf, Frame;
    assert Frame(FrameLine(sent, arriving)) + "" == Frame(FrameLine(sent, arriving));
    FramingRoundTrip(FrameLine(sent, arriving), events, "");
  }

  lemma ShortDistance(d: nat)
    requires 0 < d < 8 * MAX_PAYLOAD
    ensures d % CrcOrder.ORDER != 0
  {
  }

  // ------------------------------------------------------------------ a whole upload

  function Pow10(k: nat): nat {
    if k == 0 then 1 else 10 * Pow10(k - 1)
  }

  lemma {:induction false} DecimalAtMost(n: nat, k: nat)
    requires k >= 1 && n < Pow10(k)
    ensures |Decimal(n)| <= k
  {
    if n >= 10 {
      assert k > 1 by { assert Pow10(1) == 10; }
      DecimalAtMost(n / 10, k - 1);
    }
  }

  lemma SizeDigits(n: nat)
    requires n < TWO_TO_64
    ensures |Decimal(n)| <= 20
  {
    assert Pow10(5) == 100000;
    assert Pow10(10) == 100000 * Pow10(5);
    assert Pow10(15) == 100000 * Pow10(10);
    assert Pow10(20) == 100000 * Pow10(15);
    DecimalAtMost(n, 20);
  }

  /** Every file operation succeeds, and a write takes a whole frame. */
  const ALL_WELL := Outcome(true, MAX_PAYLOAD, 0, true, true)

  /** The commands that `process` gets for the lines of the reader loop. */
  function CallsOf(lines: seq<string>): (cs: seq<Call>)
    ensures |cs| == |lines| && forall i :: 0 <= i < |lines| ==> cs[i] == Call(lines[i], ALL_WELL)
  {
    seq(|lines|, i requires 0 <= i < |lines| => Call(lines[i], ALL_WELL))
  }

  function ClientFrames(chunks: seq<seq<Byte>>): (lines: seq<string>)
    ensures |lines| == |chunks| && forall i :: 0 <= i < |chunks| ==> lines[i] == ClientFrame(chunks[i])
  {
    seq(|chunks|, i requires 0 <= i < |chunks| => ClientFrame(chunks[i]))
  }

  /** Everything the client writes for one upload. */
  function ClientScript(filename: string, chunks: seq<seq<Byte>>): seq<string> {
    var data := Concat(chunks);
    [PreuploadLine(filename, |data|, Md5Hex(data))] + ClientFrames(chunks) + ["AT+UPLOADDONE"]
  }

  predicate FitsLine(line: string) {
    '\n' !in line && |line| <= MAX_LINE_LEN
  }

  lemma {:induction false} AllFit(cmds: seq<string>)
    requires forall i :: 0 <= i < |cmds| ==> FitsLine(cmds[i])
    ensures NewlineFree(cmds) && Fitting(cmds) == cmds
    decreases |cmds|
  {
    if cmds != [] {
      AllFit(cmds[1..]);
    }
  }

  lemma OpeningFits(filename: string, size: nat, md5: string)
    requires |filename| <= 255 && '\n' !in filename && size < TWO_TO_64 && |md5| == 32 && AllHexDigits(md5)
    ensures FitsLine(PreuploadLine(filename, size, md5))
  {
    hide Decimal;
    SizeDigits(size);
    NoNewlineInDigits(md5);
    NoNewlineInDigits(Decimal(size));
    hide AllHexDigits, AllDigits;
  }

  lemma FrameFits(chunk: seq<Byte>)
    requires |chunk| <= MAX_PAYLOAD
    ensures FitsLine(ClientFrame(chunk))
  {
    hide FrameLine;
    FrameLength(chunk, chunk);
    FitsIff(chunk, chunk);
  }

  lemma ScriptFits(filename: string, chunks: seq<seq<Byte>>)
    requires ValidName(filename) && '\n' !in filename && 0 < |Concat(chunks)| < TWO_TO_64
    requires forall i :: 0 <= i < |chunks| ==> |chunks[i]| <= MAX_PAYLOAD
    ensures forall i :: 0 <= i < |ClientScript(filename, chunks)| ==> FitsLine(ClientScript(filename, chunks)[i])
  {
    hide FitsLine, Concat, Md5Hex, PreuploadLine, ClientFrame;
    var script, data := ClientScript(filename, chunks), Concat(chunks);
    OpeningFits(filename, |data|, Md5Hex(data));
    ShortLineFits();
    forall i | 0 <= i < |script| ensures FitsLine(script[i]) {
      if 0 < i <= |chunks| {
        FrameFits(chunks[i - 1]);
      }
    }
  }

  lemma ShortLineFits()
    ensures FitsLine("AT+UPLOADDONE")
  {
  }

  /** Over the serial line: any non-empty content, in any chunks of at most 4086 bytes, however its bytes are spread
      over the reads, ends up as exactly that file, and the last reply says so. */
  lemma SerialDelivery(w: World, dir: string, filename: string, chunks: seq<seq<Byte>>, events: seq<ReadEvent>,
                       other: string -> Byte)
    requires !w.up.active && ValidName(filename) && ',' !in filename && '\n' !in filename
    requires 0 < |Concat(chunks)| < TWO_TO_64
    requires forall i :: 0 <= i < |chunks| ==> |chunks[i]| <= MAX_PAYLOAD
    requires Intact(events, false) && BytesOf(events) == Frames(ClientScript(filename, chunks))
    ensures var data, calls := Concat(chunks), CallsOf(Lines(events));
      && |calls| == |chunks| + 2
      && var s := Process(Run(w, dir, calls[..|chunks| + 1], other), dir, calls[|chunks| + 1], other);
      && s.reply == Published(filename, |data|, Md5Hex(data))
      && s.world == World(IDLE, w.files[PathIn(dir, filename) := data] - {PathIn(dir, TmpName(filename))},
                          w.fopens + 1, w.fcloses + 1)
  {
    hide Process, Run, Lines, BytesOf, Frames, Concat, Md5Hex, PathIn, TmpName, ValidName, PreuploadLine, ClientFrame;
    var data, script := Concat(chunks), ClientScript(filename, chunks);
    ScriptFits(filename, chunks);
    AllFit(script);
    ReaderGetsCommands(script, events);
    var calls, pre := CallsOf(script), Call(PreuploadLine(filename, |data|, Md5Hex(data)), ALL_WELL);
    assert calls[..|chunks| + 1] == [pre] + FrameCalls(chunks, ALL_WELL);
    ChunksDelivered(w, dir, filename, chunks, ALL_WELL, ALL_WELL, ALL_WELL, other);
  }
}
