/** What each command replies and leaves behind, for every state that a run can reach and every argument. */
module UploadReplies {
  import opened Common
  import opened AtText
  import opened Upload
  import opened UploadRuns
  import opened UploadFormats
  import Crc16
  import Delivery
  import Md5

  // ------------------------------------------------------------------ AT+UPLOAD

  /** A frame is answered OK exactly if an upload is active, the frame is sound and the write takes it whole; the number
      is that of all accepted bytes. Without an upload nothing changes, and the reply says so. A frame that fails the
      checks is answered with what they found; a wrong checksum counts the frame; a short write leaves its bytes. */
  lemma FrameReplies(o: Watched, dir: string, c: Call, arg: string, other: string -> Byte)
    requires Inv(o, dir) && Parse(c.raw) == Command("UPLOAD", arg)
    ensures var s, u, v := Process(o.world, dir, c, other), o.world.up, Judge(arg, other);
      && (s.reply.Received? <==> u.active && v.Sound? && |v.data| <= c.out.writes)
      && (s.reply.Received? ==> s.reply == Received(|o.log.accepted + v.data| % TWO_TO_64))
      && (arg == "" ==> s == Step(o.world, Refused(UploadNeedsArgument)))
      && (arg != "" && !u.active ==> s == Step(o.world, Refused(NoActiveUpload)))
      && (arg != "" && u.active ==>
          match v
          case Malformed(reply) => s == Step(o.world, reply)
          case BadCrc(expected, got) =>
            s.reply == CrcMismatch(o.log.frames % TWO_TO_32, expected, Hex4(got))
            && s.world == o.world.(up := u.(frameCount := (o.log.frames + 1) % TWO_TO_32))
          case Sound(data) =>
            c.out.writes < |data| ==>
              s.reply == Refused(WriteFailed)
              && s.world == o.world.(files := o.world.files[u.tmpPath := o.world.files[u.tmpPath]
                                                                        + data[..c.out.writes]]))
  {
    hide Parse, Judge, ValidName, AllHexDigits, PathIn, TmpName, Hex4;
    NoArgumentNotSound(other);
    JudgeReply(arg, other);
    WrapsAtFrames(o.log.frames);
    if Judge(arg, other).Sound? {
      Md5.WrappedCounter(|o.log.accepted|, |Judge(arg, other).data|);
    }
  }

  lemma NoArgumentNotSound(other: string -> Byte)
    ensures !Judge("", other).Sound?
  {
  }

  lemma WrapsAtFrames(n: nat)
    ensures (n % TWO_TO_32 + 1) % TWO_TO_32 == (n + 1) % TWO_TO_32
  {
  }

  // ------------------------------------------------------------------ AT+UPLOADCANCEL

  predicate IsCommand(c: Call, action: string) {
    Parse(c.raw).Command? && Parse(c.raw).action == action
  }

  /** A cancel ends the upload, whatever its argument: the handle is closed, every field is reset, and the temporary
      file is gone if it can be removed; no other file changes. Without an upload nothing changes. */
  lemma CancelReplies(o: Watched, dir: string, c: Call, other: string -> Byte)
    requires Inv(o, dir) && IsCommand(c, "UPLOADCANCEL")
    ensures var s, u := Process(o.world, dir, c, other), o.world.up;
      && s.world.up == IDLE && s.world.fopens == s.world.fcloses == o.world.fopens
      && s.reply == (if u.active then Cancelled else NothingToCancel)
      && (!u.active ==> s.world == o.world)
      && (u.active && c.out.unlinks ==> s.world.files == o.world.files - {u.tmpPath})
      && (u.active && !c.out.unlinks ==>
          s.world.files == o.world.files[u.tmpPath := Flushed(o.world.files[u.tmpPath], c.out.lost)])
  {
    hide Parse, ValidName, AllHexDigits, PathIn, TmpName, Flushed;
  }

  /** After a cancel every valid request is taken. */
  lemma CancelThenUpload(o: Watched, dir: string, c: Call, out: Outcome, filename: string, size: nat, md5: string,
                         other: string -> Byte)
    requires Inv(o, dir) && IsCommand(c, "UPLOADCANCEL")
    requires ValidName(filename) && ',' !in filename && 0 < size < TWO_TO_64
    requires |md5| == 32 && AllHexDigits(md5) && out.opens
    ensures var w := Process(o.world, dir, c, other).world;
      Process(w, dir, Call(Delivery.PreuploadLine(filename, size, md5), out), other).reply == Ready
  {
    hide Process, IsCommand, ValidName, AllHexDigits, Delivery.PreuploadLine, PathIn, TmpName, Inv;
    CancelReplies(o, dir, c, other);
    Delivery.PromiseTaken(Process(o.world, dir, c, other).world, dir, out, filename, size, md5, other);
  }

  // ------------------------------------------------------------------ AT+PREUPLOAD

  ghost predicate IsWellWritten(arg: string) {
    exists filename, digits, md5 :: WellWritten(arg, filename, digits, md5)
  }

  lemma GoodIff(arg: string)
    ensures ReadRequest(arg).Good? <==> IsWellWritten(arg)
  {
    hide ReadRequest, WellWritten, ParseUnsigned;
    if ReadRequest(arg).Good? {
      GoodIsWellWritten(arg);
    }
    forall filename, digits, md5 | WellWritten(arg, filename, digits, md5) ensures ReadRequest(arg).Good? {
      WellWrittenIsRead(arg, filename, digits, md5);
    }
  }

  /** A request is answered READY exactly if no upload is active, it is well written and the file can be created. The
      upload then holds what the request says, and its temporary file is empty. Anything else changes nothing and is
      refused, while an upload is active for that reason. */
  lemma PreuploadReplies(o: Watched, dir: string, c: Call, arg: string, other: string -> Byte)
    requires Inv(o, dir) && Parse(c.raw) == Command("PREUPLOAD", arg)
    ensures var s, w, r := Process(o.world, dir, c, other), o.world, ReadRequest(arg);
      && (s.reply == Ready <==> !w.up.active && IsWellWritten(arg) && c.out.opens)
      && (s.reply == Ready ==>
          var tmp := dir + "/upload_" + r.filename + ".tmp";
          r.Good?
          && s.world == World(Upload(true, r.filename, tmp, r.size, 0, 0, true, r.md5, []), w.files[tmp := []],
                              w.fopens + 1, w.fcloses))
      && (s.reply != Ready ==>
          && s.world == w
          && s.reply == Refused(if arg == "" then PreuploadNeedsArgument
                                else if w.up.active then AlreadyInProgress
                                else if r.Bad? then r.reason
                                else CannotCreateFile))
  {
    hide Parse, ValidName, AllHexDigits, ReadRequest, IsWellWritten;
    NoArgumentNotGood();
    GoodIff(arg);
    if ReadRequest(arg).Good? {
      TmpPathIs(dir, ReadRequest(arg).filename);
    }
    hide PathIn, TmpName;
  }

  lemma NoArgumentNotGood()
    ensures !ReadRequest("").Good?
  {
  }

  lemma TmpPathIs(dir: string, filename: string)
    ensures PathIn(dir, TmpName(filename)) == dir + "/upload_" + filename + ".tmp"
  {
  }

  // ------------------------------------------------------------------ AT+UPLOADDONE

  /** Which of its four ends an upload comes to, told by the accepted bytes, and what is left after a failure: no
      upload, no open handle, and no temporary file if it can be removed. */
  lemma DoneReplies(o: Watched, dir: string, c: Call, other: string -> Byte)
    requires Inv(o, dir) && IsCommand(c, "UPLOADDONE")
    ensures var s, u, bytes := Process(o.world, dir, c, other), o.world.up, o.log.accepted;
      && (!u.active ==> s == Step(o.world, Refused(NoActiveUpload)))
      && (u.active ==>
          && s.reply == (if |bytes| % TWO_TO_64 != u.expectedSize then
                           SizeMismatch(u.expectedSize, |bytes| % TWO_TO_64)
                         else if Md5Hex(bytes) != u.expectedMd5 then Md5Mismatch(u.expectedMd5, Md5Hex(bytes))
                         else if !c.out.renames then Refused(CannotSave)
                         else Published(u.filename, u.expectedSize, Md5Hex(bytes)))
          && s.world.up == IDLE && s.world.fopens == s.world.fcloses == o.world.fopens
          && (!s.reply.Published? && c.out.unlinks ==> s.world.files == o.world.files - {u.tmpPath}))
  {
    hide Parse, ValidName, AllHexDigits, PathIn, TmpName, Flushed, Md5Hex;
  }

  // ------------------------------------------------------------------ AT+VERIFY and the rest

  predicate HasTwoDots(s: string) {
    exists i :: 0 <= i < |s| - 1 && s[i] == '.' && s[i + 1] == '.'
  }

  lemma TwoDotsAt(s: string, i: nat)
    ensures OccursAt(s, "..", i) <==> i + 2 <= |s| && s[i] == '.' && s[i + 1] == '.'
  {
    if i + 2 <= |s| {
      var t := s[i..i + 2];
      assert t[0] == s[i] && t[1] == s[i + 1];
      assert |".."| == 2 && ".."[0] == '.' && ".."[1] == '.';
      assert t == ".." <==> t[0] == '.' && t[1] == '.';
    }
  }

  lemma ContainsTwoDots(s: string)
    ensures Contains(s, "..") <==> HasTwoDots(s)
  {
    if HasTwoDots(s) {
      var i :| 0 <= i < |s| - 1 && s[i] == '.' && s[i + 1] == '.';
      TwoDotsAt(s, i);
    }
    if Contains(s, "..") {
      var i :| 0 <= i <= |s| && OccursAt(s, "..", i);
      TwoDotsAt(s, i);
      hide OccursAt;
      assert s[i] == '.' && s[i + 1] == '.';
    }
  }

  /** A name is valid exactly if it has 1 to 255 characters and neither a slash nor two dots in a row. */
  lemma ValidNameIff(filename: string)
    ensures ValidName(filename) <==> 1 <= |filename| <= 255 && '/' !in filename && !HasTwoDots(filename)
  {
    ContainsTwoDots(filename);
    hide Contains, HasTwoDots;
  }

  /** VERIFY changes nothing, refuses two dots in a row wherever they stand, and else reports the digest and the size of
      the file of that name. */
  lemma VerifyReplies(w: World, dir: string, c: Call, arg: string, other: string -> Byte)
    requires Parse(c.raw) == Command("VERIFY", arg)
    ensures var s, path := Process(w, dir, c, other), dir + "/" + arg;
      && s.world == w
      && s.reply == (if arg == "" then Refused(VerifyNeedsArgument)
                     else if HasTwoDots(arg) then Refused(InvalidFilename)
                     else if path in w.files then Digested(Md5Hex(w.files[path]), |w.files[path]| % TWO_TO_64)
                     else Refused(CannotOpenFile(arg)))
  {
    hide Parse, Contains, HasTwoDots, Md5Hex;
    ContainsTwoDots(arg);
  }

  /** No other line touches the upload or a file. */
  lemma OtherReplies(w: World, dir: string, c: Call, other: string -> Byte)
    ensures var s := Process(w, dir, c, other);
      match Parse(c.raw)
      case NotAt => s == Step(w, Refused(NotAnAtCommand))
      case BadFormat => s == Step(w, Refused(Reason.BadFormat))
      case Command(action, _) =>
        action !in {"VERIFY", "PREUPLOAD", "UPLOAD", "UPLOADDONE", "UPLOADCANCEL"} ==> s == Step(w, Elsewhere(action))
  {
    hide Parse, Verify, Preupload, UploadFrame, UploadDone, UploadCancel;
  }

  // ------------------------------------------------------------------ what is wrong with an argument

  lemma {:induction false} FindLastNone(s: string, c: char, end: nat)
    requires end <= |s| && c !in s
    ensures FindLast(s, c, end) == None
    decreases end
  {
    if end > 0 {
      FindLastNone(s, c, end - 1);
    }
  }

  /** Too few separators in a frame, and in a request. */
  lemma TooFewCommas(a: string, b: string, other: string -> Byte)
    requires ',' !in a && ',' !in b
    ensures Judge(a, other) == Malformed(Refused(MissingCrcAndLength))
    ensures a != "" ==> Judge(a + "," + b, other) == Malformed(Refused(MissingData))
    ensures ReadRequest(a) == Bad(MissingSizeAndMd5) && ReadRequest(a + "," + b) == Bad(MissingMd5)
  {
    hide FindLast, Find;
    FindLastNone(a, ',', |a|);
    NotFound(a, ',', 0);
    var s := a + "," + b;
    FindLastBefore(a, ',', b, |s|);
    FindLastLocal(s, ',', |a|);
    assert s[..|a|] == a;
    FindAfter(a, ',', b, 0);
    assert s[|a| + 1..] == b;
    NotFoundAfter(s, ',', |a| + 1);
  }

  lemma {:induction false} NotFoundAfter(s: string, c: char, from: nat)
    requires from <= |s| && c !in s[from..]
    ensures Find(s, c, from) == None
    decreases |s| - from
  {
    if from < |s| {
      assert s[from] == s[from..][0] && s[from + 1..] == s[from..][1..];
      NotFoundAfter(s, c, from + 1);
    }
  }

  /** What is wrong with the parts of a frame: the first of these that is. */
  lemma FrameReasons(hex: string, crc: string, len: string, other: string -> Byte)
    requires ',' !in crc && ',' !in len
    ensures var v := Judge(hex + "," + crc + "," + len, other);
      && (v == Malformed(Refused(WrongCrcLength)) <==> |crc| != 4)
      && (|crc| == 4 ==>
          && (v == Malformed(Refused(InvalidCrc)) <==> !AllHexDigits(crc))
          && (v == Malformed(Refused(InvalidFrameLength)) <==> AllHexDigits(crc) && !AllDigits(len))
          && (v == Malformed(Refused(OddDataLength)) <==> AllHexDigits(crc) && AllDigits(len) && |hex| % 2 == 1)
          && (v.Malformed? && v.reply.FrameLengthMismatch? ==>
              v.reply == FrameLengthMismatch(ParseUnsigned(len) % TWO_TO_32, |hex| / 2)))
  {
    hide Judge, AllHexDigits, AllDigits, Unhex, Value4, Crc16.Crc, ParseUnsigned;
    SplitFrame(hex, crc, len, other);
  }

  /** What is wrong with the parts of a request: the first of these that is. */
  lemma RequestReasons(filename: string, digits: string, md5: string)
    requires ',' !in filename && ',' !in digits
    ensures var r := ReadRequest(filename + "," + digits + "," + md5);
      && (r == Bad(InvalidSize) <==> !AllDigits(digits))
      && (AllDigits(digits) ==> (r == Bad(ZeroSize) <==> ParseUnsigned(digits) == 0))
      && (AllDigits(digits) && ParseUnsigned(digits) > 0 ==>
          && (r == Bad(WrongMd5Length) <==> |md5| != 32)
          && (|md5| == 32 ==> (r == Bad(InvalidMd5) <==> !AllHexDigits(md5)))
          && (|md5| == 32 && AllHexDigits(md5) ==>
              && (r == Good(filename, ParseUnsigned(digits), md5) <==> ValidName(filename))
              && (r == Bad(FilenameHasSlash) <==> 1 <= |filename| <= 255 && '/' in filename)
              && (!ValidName(filename) && r != Bad(FilenameHasSlash) ==> r == Bad(InvalidFilename))))
  {
    hide Find, AllDigits, AllHexDigits, Contains, ParseUnsigned;
    var front := filename + "," + digits;
    var arg := front + "," + md5;
    assert arg == filename + [','] + (digits + "," + md5);
    FindAfter(filename, ',', digits + "," + md5, 0);
    assert front[|filename| + 1..] == digits;
    FindAfter(front, ',', md5, |filename| + 1);
    assert arg[..|filename|] == filename && arg[|filename| + 1..|front|] == digits && arg[|front| + 1..] == md5;
  }

  /** A size of 2^64 or more is read as 2^64 - 1, a smaller one as it stands. */
  lemma SizeIsRead(filename: string, digits: string, md5: string)
    requires ValidName(filename) && ',' !in filename && AllDigits(digits) && DecimalValue(digits) > 0
    requires |md5| == 32 && AllHexDigits(md5)
    ensures ReadRequest(filename + "," + digits + "," + md5) ==
            Good(filename, if DecimalValue(digits) < TWO_TO_64 then DecimalValue(digits) else TWO_TO_64 - 1, md5)
  {
    hide ValidName, DecimalValue, ReadRequest, AllDigits, AllHexDigits;
    WellWrittenIsRead(filename + "," + digits + "," + md5, filename, digits, md5);
  }
}
