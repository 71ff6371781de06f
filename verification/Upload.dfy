/** The upload commands as a state machine over one upload and a store of files. */
module Upload {
  import opened Common
  import opened AtText
  import Crc16
  import Md5

  /** `MD5::hex`. */
  function Md5Hex(m: seq<Byte>): (s: string)
    ensures |s| == 32 && AllHexDigits(s)
  {
    Hex(Md5.Digest(m))
  }

  // ------------------------------------------------------------------ state

  /** `UploadState`; `file` says whether its handle is set, `hashed` is what its MD5 context has taken in. */
  datatype Upload = Upload(
    active: bool,
    filename: string,
    tmpPath: string,
    expectedSize: nat,
    received: nat,
    frameCount: nat,
    file: bool,
    expectedMd5: string,
    hashed: seq<Byte>)

  /** The values that a fresh or reset `UploadState` holds. */
  const IDLE := Upload(false, "", "", 0, 0, 0, false, "", [])

  type Files = map<string, seq<Byte>>

  /** The upload, the files, and how often a handle has been opened and closed. */
  datatype World = World(up: Upload, files: Files, fopens: nat, fcloses: nat)

  /** How the file operations of one command turn out: whether `fopen`, `unlink` and `rename` succeed, how many bytes
      `fwrite` takes at most, and how many buffered bytes `fclose` fails to write, which the code does not notice. */
  datatype Outcome = Outcome(opens: bool, writes: nat, lost: nat, unlinks: bool, renames: bool)

  datatype Reason =
    | NotAnAtCommand | BadFormat
    | PreuploadNeedsArgument | AlreadyInProgress | MissingSizeAndMd5 | MissingMd5 | InvalidSize | ZeroSize
    | WrongMd5Length | InvalidMd5 | InvalidFilename | FilenameHasSlash | CannotCreateFile
    | UploadNeedsArgument | NoActiveUpload | MissingCrcAndLength | MissingData | WrongCrcLength | InvalidCrc
    | InvalidFrameLength | OddDataLength | WriteFailed | CannotSave
    | VerifyNeedsArgument | CannotOpenFile(name: string)

  /** The text of a reply, by its parts. */
  datatype Reply =
    | Ready
    | Received(total: nat)
    | Published(filename: string, size: nat, md5: string)
    | Cancelled
    | NothingToCancel
    | Digested(md5: string, size: nat)
    | FrameLengthMismatch(declared: nat, actual: nat)
    | CrcMismatch(frame: nat, given: string, computed: string)
    | SizeMismatch(promised: nat, arrived: nat)
    | Md5Mismatch(expected: string, found: string)
    | Refused(reason: Reason)
    | Elsewhere(action: string)

  datatype Step = Step(world: World, reply: Reply)

  function TmpName(filename: string): string {
    "upload_" + filename + ".tmp"
  }

  function PathIn(dir: string, name: string): string {
    dir + "/" + name
  }

  function Unlink(files: Files, path: string, succeeds: bool): Files {
    if succeeds then files - {path} else files
  }

  function Append(files: Files, path: string, data: seq<Byte>): Files {
    if path in files then files[path := files[path] + data] else files
  }

  /** A file without the last `lost` bytes. */
  function Flushed(data: seq<Byte>, lost: nat): (r: seq<Byte>)
    ensures r <= data && |r| == if lost <= |data| then |data| - lost else 0
  {
    if lost <= |data| then data[..|data| - lost] else []
  }

  // ------------------------------------------------------------------ AT+PREUPLOAD

  predicate ValidName(filename: string) {
    0 < |filename| <= 255 && '/' !in filename && !Contains(filename, "..")
  }

  datatype Request = Bad(reason: Reason) | Good(filename: string, size: nat, md5: string)

  /** The checks on the argument, in order. */
  function ReadRequest(arg: string): (r: Request)
    ensures r.Good? ==> ValidName(r.filename) && ',' !in r.filename && 0 < r.size < TWO_TO_64
                         && |r.md5| == 32 && AllHexDigits(r.md5)
  {
    var comma1 := Find(arg, ',', 0);
    if comma1.None? then Bad(MissingSizeAndMd5) else
    var comma2 := Find(arg, ',', comma1.value + 1);
    if comma2.None? then Bad(MissingMd5) else
    var filename := arg[0..comma1.value];
    var size := arg[comma1.value + 1..comma2.value];
    var md5 := arg[comma2.value + 1..];
    if !AllDigits(size) then Bad(InvalidSize)
    else if ParseUnsigned(size) == 0 then Bad(ZeroSize)
    else if |md5| != 32 then Bad(WrongMd5Length)
    else if !AllHexDigits(md5) then Bad(InvalidMd5)
    else if filename == "" || |filename| > 255 then Bad(InvalidFilename)
    else if '/' in filename then Bad(FilenameHasSlash)
    else if Contains(filename, "..") then Bad(InvalidFilename)
    else Good(filename, ParseUnsigned(size), md5)
  }

  function Preupload(w: World, dir: string, arg: string, out: Outcome): Step {
    if arg == "" then Step(w, Refused(PreuploadNeedsArgument))
    else if w.up.active then Step(w, Refused(AlreadyInProgress))
    else
      var r := ReadRequest(arg);
      if r.Bad? then Step(w, Refused(r.reason))
      else if !out.opens then Step(w, Refused(CannotCreateFile))
      else
        var tmp := PathIn(dir, TmpName(r.filename));
        Step(World(Upload(true, r.filename, tmp, r.size, 0, 0, true, r.md5, []), w.files[tmp := []],
                   w.fopens + 1, w.fcloses),
             Ready)
  }

  // ------------------------------------------------------------------ AT+UPLOAD

  datatype Verdict = Malformed(reply: Reply) | BadCrc(expected: string, got: bv16) | Sound(data: seq<Byte>)

  /** What the checks make of a frame. `other` is what `sscanf` leaves for a pair that is not hexadecimal. */
  function Judge(arg: string, other: string -> Byte): Verdict {
    var last := FindLast(arg, ',', |arg|);
    if last.None? then Malformed(Refused(MissingCrcAndLength)) else
    // A comma in front of everything makes `last - 1` the largest position, so the search starts over from the end.
    var prev := FindLast(arg, ',', if last.value == 0 then |arg| else last.value);
    if prev.None? then Malformed(Refused(MissingData)) else
    var crc := if prev == last then arg[prev.value + 1..] else arg[prev.value + 1..last.value];
    JudgeParts(arg[..prev.value], crc, arg[last.value + 1..], other)
  }

  function JudgeParts(hex: string, crc: string, len: string, other: string -> Byte): Verdict {
    if |crc| != 4 then Malformed(Refused(WrongCrcLength))
    else if !AllHexDigits(crc) then Malformed(Refused(InvalidCrc))
    else if !AllDigits(len) then Malformed(Refused(InvalidFrameLength))
    else if |hex| % 2 != 0 then Malformed(Refused(OddDataLength))
    else
      var declared := ParseUnsigned(len) % TWO_TO_32;
      if |hex| / 2 != declared then Malformed(FrameLengthMismatch(declared, |hex| / 2))
      else
        var data := Unhex(hex, other);
        if Crc16.Crc(data) as nat != Value4(crc) then BadCrc(crc, Crc16.Crc(data)) else Sound(data)
  }

  function UploadFrame(w: World, arg: string, out: Outcome, other: string -> Byte): Step {
    if arg == "" then Step(w, Refused(UploadNeedsArgument))
    else if !w.up.active || !w.up.file then Step(w, Refused(NoActiveUpload))
    else TakeVerdict(w, Judge(arg, other), out)
  }

  function TakeVerdict(w: World, v: Verdict, out: Outcome): Step {
    var counted := w.up.(frameCount := (w.up.frameCount + 1) % TWO_TO_32);
    match v
    case Malformed(reply) => Step(w, reply)
    case BadCrc(expected, got) =>
      Step(w.(up := counted), CrcMismatch(w.up.frameCount, expected, Hex4(got)))
    case Sound(data) =>
      if out.writes < |data| then
        Step(w.(files := Append(w.files, w.up.tmpPath, data[..out.writes])), Refused(WriteFailed))
      else
        var received := (w.up.received + |data|) % TWO_TO_64;
        Step(w.(up := counted.(received := received, hashed := w.up.hashed + data),
                files := Append(w.files, w.up.tmpPath, data)),
             Received(received))
  }

  // ------------------------------------------------------------------ AT+UPLOADDONE, AT+UPLOADCANCEL

  /** `fclose` on a file that may have unwritten bytes in its buffer. */
  function FlushFile(files: Files, path: string, lost: nat): Files {
    if path in files then files[path := Flushed(files[path], lost)] else files
  }

  function Close(w: World, out: Outcome): World {
    w.(up := w.up.(file := false), files := FlushFile(w.files, w.up.tmpPath, out.lost), fcloses := w.fcloses + 1)
  }

  /** Removes the temporary file and resets. */
  function Drop(w: World, out: Outcome): World {
    w.(files := Unlink(w.files, w.up.tmpPath, out.unlinks), up := IDLE.(file := w.up.file))
  }

  function UploadDone(w: World, dir: string, out: Outcome): Step {
    if !w.up.active || !w.up.file then Step(w, Refused(NoActiveUpload))
    else
      var c := Close(w, out);
      var final := PathIn(dir, w.up.filename);
      if w.up.received != w.up.expectedSize then
        Step(Drop(c, out), SizeMismatch(w.up.expectedSize, w.up.received))
      else if Md5Hex(w.up.hashed) != w.up.expectedMd5 then
        Step(Drop(c, out), Md5Mismatch(w.up.expectedMd5, Md5Hex(w.up.hashed)))
      else if !out.renames || w.up.tmpPath !in c.files then
        Step(Drop(c, out), Refused(CannotSave))
      else
        Step(c.(files := c.files[final := c.files[w.up.tmpPath]] - {w.up.tmpPath}, up := IDLE),
             Published(w.up.filename, w.up.received, Md5Hex(w.up.hashed)))
  }

  function UploadCancel(w: World, out: Outcome): Step {
    if !w.up.active then Step(w, NothingToCancel)
    else Step(Drop(if w.up.file then Close(w, out) else w, out), Cancelled)
  }

  // ------------------------------------------------------------------ AT+VERIFY

  function Verify(files: Files, dir: string, arg: string): Reply {
    if arg == "" then Refused(VerifyNeedsArgument)
    else if Contains(arg, "..") then Refused(InvalidFilename)
    else if PathIn(dir, arg) !in files then Refused(CannotOpenFile(arg))
    else
      var data := files[PathIn(dir, arg)];
      Digested(Md5Hex(data), |data| % TWO_TO_64)
  }

  // ------------------------------------------------------------------ dispatch

  datatype Call = Call(raw: string, out: Outcome)

  /** One command as it reaches `process`, whichever side sent it. */
  function Process(w: World, dir: string, c: Call, other: string -> Byte): Step {
    match Parse(c.raw)
    case NotAt => Step(w, Refused(NotAnAtCommand))
    case BadFormat => Step(w, Refused(Reason.BadFormat))
    case Command(action, arg) =>
      if action == "VERIFY" then Step(w, Verify(w.files, dir, arg))
      else if action == "PREUPLOAD" then Preupload(w, dir, arg, c.out)
      else if action == "UPLOAD" then UploadFrame(w, arg, c.out, other)
      else if action == "UPLOADDONE" then UploadDone(w, dir, c.out)
      else if action == "UPLOADCANCEL" then UploadCancel(w, c.out)
      else Step(w, Elsewhere(action))
  }

  function Run(w: World, dir: string, cs: seq<Call>, other: string -> Byte): World
    decreases |cs|
  {
    if cs == [] then w else Run(Process(w, dir, cs[0], other).world, dir, cs[1..], other)
  }
}
