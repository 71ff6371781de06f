/** The upload handlers as the program runs them, on fields updated in place; each is proved against its
    specification in `Upload`. */
module UploadMachine {
  import opened Common
  import opened AtText
  import opened Upload
  import Crc16
  import Md5

  /** The decoding loop of AT+UPLOAD. */
  method Decode(hex: string, other: string -> Byte) returns (data: seq<Byte>)
    requires |hex| % 2 == 0
    ensures data == Unhex(hex, other)
  {
    data := [];
    for i := 0 to |hex| / 2
      invariant data + Unhex(hex[2 * i..], other) == Unhex(hex, other)
    {
      assert hex[2 * i..][2..] == hex[2 * i + 2..];
      data := data + [ScanPair(hex[2 * i..], other)];
    }
    assert hex[2 * (|hex| / 2)..] == "";
  }

  /** The loops that check a size and a digest character by character. */
  method OnlyDigits(s: string) returns (ok: bool)
    ensures ok == AllDigits(s)
  {
    for i := 0 to |s|
      invariant AllDigits(s[..i])
    {
      if !IsDigit(s[i]) {
        return false;
      }
    }
    ok := true;
  }

  method OnlyHexDigits(s: string) returns (ok: bool)
    ensures ok == AllHexDigits(s)
  {
    for i := 0 to |s|
      invariant AllHexDigits(s[..i])
    {
      if !IsHexDigit(s[i]) {
        return false;
      }
    }
    ok := true;
  }

  /** Hashes a file in reads of at most 4096 bytes, as AT+VERIFY does. */
  method HashFile(data: seq<Byte>) returns (md5hex: string, total: nat)
    ensures md5hex == Md5Hex(data) && total == |data| % TWO_TO_64
  {
    hide Md5.Digest, Hex, Md5.Md5.Valid;
    var md5 := new Md5.Md5();
    total := 0;
    var at := 0;
    while at < |data|
      invariant 0 <= at <= |data| && md5.Valid() && fresh(md5) && fresh(md5.buffer)
      invariant md5.msg == data[..at] && total == at % TWO_TO_64
    {
      var n := if |data| - at < 4096 then |data| - at else 4096;
      md5.Update(data[at..at + n]);
      assert data[..at] + data[at..at + n] == data[..at + n];
      Md5.WrappedCounter(at, n);
      total := (total + n) % TWO_TO_64;
      at := at + n;
    }
    assert data[..at] == data;
    var digest := md5.Finalize();
    md5hex := Hex(digest);
  }

  /** The checks of AT+PREUPLOAD on its argument. */
  method ReadArgument(arg: string) returns (r: Request)
    ensures r == ReadRequest(arg)
  {
    hide AllDigits, AllHexDigits, Contains, ParseUnsigned;
    var comma1 := Find(arg, ',', 0);
    if comma1.None? {
      return Bad(MissingSizeAndMd5);
    }
    var comma2 := Find(arg, ',', comma1.value + 1);
    if comma2.None? {
      return Bad(MissingMd5);
    }
    var filename := arg[0..comma1.value];
    var sizeText := arg[comma1.value + 1..comma2.value];
    var md5Text := arg[comma2.value + 1..];
    var ok := OnlyDigits(sizeText);
    if !ok {
      return Bad(InvalidSize);
    }
    var totalSize := ParseUnsigned(sizeText);
    if totalSize == 0 {
      return Bad(ZeroSize);
    }
    if |md5Text| != 32 {
      return Bad(WrongMd5Length);
    }
    ok := OnlyHexDigits(md5Text);
    if !ok {
      return Bad(InvalidMd5);
    }
    if filename == "" || |filename| > 255 {
      return Bad(InvalidFilename);
    }
    if '/' in filename {
      return Bad(FilenameHasSlash);
    }
    if Contains(filename, "..") {
      return Bad(InvalidFilename);
    }
    r := Good(filename, totalSize, md5Text);
  }

  /** The splitting, checking and decoding of AT+UPLOAD, up to the comparison of the two checksums. */
  method Examine(arg: string, other: string -> Byte) returns (v: Verdict)
    ensures v == Judge(arg, other)
  {
    hide AllDigits, AllHexDigits, ParseUnsigned, Value4, Unhex, Crc16.Crc;
    var last := FindLast(arg, ',', |arg|);
    if last.None? {
      return Malformed(Refused(MissingCrcAndLength));
    }
    var prev := FindLast(arg, ',', if last.value == 0 then |arg| else last.value);
    if prev.None? {
      return Malformed(Refused(MissingData));
    }
    var hexData := arg[..prev.value];
    var crcText := if prev == last then arg[prev.value + 1..] else arg[prev.value + 1..last.value];
    var lenText := arg[last.value + 1..];
    if |crcText| != 4 {
      return Malformed(Refused(WrongCrcLength));
    }
    var ok := OnlyHexDigits(crcText);
    if !ok {
      return Malformed(Refused(InvalidCrc));
    }
    ok := OnlyDigits(lenText);
    if !ok {
      return Malformed(Refused(InvalidFrameLength));
    }
    var frameLen := ParseUnsigned(lenText) % TWO_TO_32;
    if |hexData| % 2 != 0 {
      return Malformed(Refused(OddDataLength));
    }
    var binLen := |hexData| / 2;
    if binLen != frameLen {
      return Malformed(FrameLengthMismatch(frameLen, binLen));
    }
    var binData := Decode(hexData, other);
    var computedCrc := Crc16.Compute(binData);
    v := if computedCrc as nat != Value4(crcText) then BadCrc(crcText, computedCrc) else Sound(binData);
  }

  class UploadState {
    var active: bool
    var filename: string
    var tmpPath: string
    var expectedSize: nat
    var received: nat
    var frameCount: nat
    var file: bool
    var expectedMd5: string
    const md5: Md5.Md5
    /** The file system, and how often `fopen` and `fclose` have been called. */
    var files: Files
    var fopens: nat
    var fcloses: nat
    /** `upload_dir` of the configuration. */
    const dir: string

    ghost predicate Valid()
      reads this, md5, md5.buffer
    {
      md5.Valid()
    }

    ghost function Abs(): World
      reads this, md5
    {
      World(Upload(active, filename, tmpPath, expectedSize, received, frameCount, file, expectedMd5, md5.msg),
            files, fopens, fcloses)
    }

    constructor (dir: string, files: Files)
      ensures Valid() && fresh(md5) && fresh(md5.buffer) && this.dir == dir
      ensures Abs() == World(IDLE, files, 0, 0)
    {
      active, filename, tmpPath, expectedSize, received := false, "", "", 0, 0;
      frameCount, file, expectedMd5 := 0, false, "";
      md5 := new Md5.Md5();
      this.dir, this.files, fopens, fcloses := dir, files, 0, 0;
    }

    method Reset()
      requires Valid()
      modifies this, md5, md5.buffer
      ensures Valid() && Abs() == old(Abs()).(up := IDLE.(file := old(file)))
    {
      hide Md5.Md5.Valid;
      md5.Reset();
      active := false;
      filename := "";
      tmpPath := "";
      expectedSize := 0;
      received := 0;
      frameCount := 0;
      expectedMd5 := "";
    }

    /** The assignments of AT+PREUPLOAD, after `fopen`. */
    method Begin(name: string, tmp: string, size: nat, digest: string)
      requires Valid()
      modifies this, md5, md5.buffer
      ensures Valid()
      ensures Abs() == World(Upload(true, name, tmp, size, 0, 0, true, digest, []), old(files)[tmp := []],
                             old(fopens) + 1, old(fcloses))
    {
      hide Md5.Md5.Valid;
      md5.Reset();
      files := files[tmp := []];
      fopens := fopens + 1;
      active := true;
      filename := name;
      tmpPath := tmp;
      expectedSize := size;
      received := 0;
      frameCount := 0;
      file := true;
      expectedMd5 := digest;
    }

    method HandlePreupload(arg: string, out: Outcome) returns (reply: Reply)
      requires Valid()
      modifies this, md5, md5.buffer
      ensures Valid() && Step(Abs(), reply) == Preupload(old(Abs()), dir, arg, out)
    {
      hide ReadRequest, ValidName, AllHexDigits, PathIn, TmpName, Md5.Md5.Valid;
      if arg == "" {
        return Refused(PreuploadNeedsArgument);
      }
      if active {
        return Refused(AlreadyInProgress);
      }
      var request := ReadArgument(arg);
      if request.Bad? {
        return Refused(request.reason);
      }
      var tmp := PathIn(dir, TmpName(request.filename));
      if !out.opens {
        return Refused(CannotCreateFile);
      }
      Begin(request.filename, tmp, request.size, request.md5);
      reply := Ready;
    }

    method HandleUploadFrame(arg: string, out: Outcome, other: string -> Byte) returns (reply: Reply)
      requires Valid()
      modifies this, md5, md5.buffer
      ensures Valid() && Step(Abs(), reply) == UploadFrame(old(Abs()), arg, out, other)
    {
      hide Judge, Hex4, Md5.Md5.Valid;
      if arg == "" {
        return Refused(UploadNeedsArgument);
      }
      if !active || !file {
        return Refused(NoActiveUpload);
      }
      var verdict := Examine(arg, other);
      match verdict {
        case Malformed(answer) =>
          reply := answer;
        case BadCrc(expected, got) =>
          reply := CrcMismatch(frameCount, expected, Hex4(got));
          frameCount := (frameCount + 1) % TWO_TO_32;
        case Sound(binData) =>
          var written := if out.writes < |binData| then out.writes else |binData|;
          files := Append(files, tmpPath, binData[..written]);
          if written != |binData| {
            return Refused(WriteFailed);
          }
          md5.Update(binData);
          received := (received + |binData|) % TWO_TO_64;
          frameCount := (frameCount + 1) % TWO_TO_32;
          assert binData[..written] == binData;
          reply := Received(received);
      }
    }

    method HandleUploadDone(out: Outcome) returns (reply: Reply)
      requires Valid()
      modifies this, md5, md5.buffer
      ensures Valid() && Step(Abs(), reply) == UploadDone(old(Abs()), dir, out)
    {
      hide Md5.Digest, Hex, PathIn, Unlink, FlushFile, Md5.Md5.Valid;
      if !active || !file {
        return Refused(NoActiveUpload);
      }
      files := FlushFile(files, tmpPath, out.lost);
      file := false;
      fcloses := fcloses + 1;
      if received != expectedSize {
        reply := SizeMismatch(expectedSize, received);
        files := Unlink(files, tmpPath, out.unlinks);
        Reset();
        return;
      }
      var digest := md5.Finalize();
      var actualMd5 := Hex(digest);
      if actualMd5 != expectedMd5 {
        reply := Md5Mismatch(expectedMd5, actualMd5);
        files := Unlink(files, tmpPath, out.unlinks);
        Reset();
        return;
      }
      var finalPath := PathIn(dir, filename);
      if !out.renames || tmpPath !in files {
        files := Unlink(files, tmpPath, out.unlinks);
        Reset();
        return Refused(CannotSave);
      }
      files := files[finalPath := files[tmpPath]] - {tmpPath};
      reply := Published(filename, received, actualMd5);
      Reset();
    }

    method HandleUploadCancel(out: Outcome) returns (reply: Reply)
      requires Valid()
      modifies this, md5, md5.buffer
      ensures Valid() && Step(Abs(), reply) == UploadCancel(old(Abs()), out)
    {
      if !active {
        return NothingToCancel;
      }
      if file {
        files := FlushFile(files, tmpPath, out.lost);
        file := false;
        fcloses := fcloses + 1;
      }
      files := Unlink(files, tmpPath, out.unlinks);
      Reset();
      reply := Cancelled;
    }

    method HandleVerify(arg: string) returns (reply: Reply)
      ensures reply == Verify(files, dir, arg)
    {
      if arg == "" {
        return Refused(VerifyNeedsArgument);
      }
      if Contains(arg, "..") {
        return Refused(InvalidFilename);
      }
      var path := PathIn(dir, arg);
      if path !in files {
        return Refused(CannotOpenFile(arg));
      }
      var md5hex, total := HashFile(files[path]);
      reply := Digested(md5hex, total);
    }

    /** `process`, as far as the upload is concerned. */
    method ProcessCommand(c: Call, other: string -> Byte) returns (reply: Reply)
      requires Valid()
      modifies this, md5, md5.buffer
      ensures Valid() && Step(Abs(), reply) == Process(old(Abs()), dir, c, other)
    {
      hide Parse, Preupload, UploadFrame, UploadDone, UploadCancel, Verify;
      var parsed := ParseLine(c.raw);
      match parsed {
        case NotAt => return Refused(NotAnAtCommand);
        case BadFormat => return Refused(Reason.BadFormat);
        case Command(action, arg) =>
          if action == "VERIFY" {
            reply := HandleVerify(arg);
          } else if action == "PREUPLOAD" {
            reply := HandlePreupload(arg, c.out);
          } else if action == "UPLOAD" {
            reply := HandleUploadFrame(arg, c.out, other);
          } else if action == "UPLOADDONE" {
            reply := HandleUploadDone(c.out);
          } else if action == "UPLOADCANCEL" {
            reply := HandleUploadCancel(c.out);
          } else {
            reply := Elsewhere(action);
          }
      }
    }

    /** A sequence of commands. */
    method ProcessAll(cs: seq<Call>, other: string -> Byte)
      requires Valid()
      modifies this, md5, md5.buffer
      ensures Valid() && Abs() == Run(old(Abs()), dir, cs, other)
    {
      hide Process;
      var i := 0;
      assert cs[0..] == cs;
      while i < |cs|
        invariant 0 <= i <= |cs| && Valid()
        invariant Run(Abs(), dir, cs[i..], other) == Run(old(Abs()), dir, cs, other)
      {
        ghost var before := Abs();
        var _ := ProcessCommand(cs[i], other);
        assert cs[i..][0] == cs[i] && cs[i..][1..] == cs[i + 1..];
        i := i + 1;
      }
    }
  }
}
