/** What holds of every run of commands, told by an observer who sees the commands, the replies and how many bytes each
    write took, but none of the fields. */
module UploadRuns {
  import opened Common
  import opened AtText
  import opened Upload
  import Md5

  /** What the observer notes: the bytes of the accepted frames since the last PREUPLOAD, the frames counted since
      then, the bytes that short writes have left behind, and the paths published so far. */
  datatype Log = Log(accepted: seq<Byte>, frames: nat, stray: nat, published: set<string>)

  datatype Watched = Watched(world: World, log: Log)

  /** The bytes of a sound frame; none for any other command. */
  function Payload(c: Call, other: string -> Byte): seq<Byte> {
    match Parse(c.raw)
    case Command(action, arg) =>
      if action == "UPLOAD" then (match Judge(arg, other) case Sound(data) => data case _ => []) else []
    case _ => []
  }

  function Note(log: Log, dir: string, c: Call, reply: Reply, other: string -> Byte): Log {
    match reply
    case Ready => Log([], 0, 0, log.published)
    case Received(_) => log.(accepted := log.accepted + Payload(c, other), frames := log.frames + 1)
    case CrcMismatch(_, _, _) => log.(frames := log.frames + 1)
    case Published(filename, _, _) => Log([], 0, 0, log.published + {PathIn(dir, filename)})
    case SizeMismatch(_, _) => Log([], 0, 0, log.published)
    case Md5Mismatch(_, _) => Log([], 0, 0, log.published)
    case Cancelled => Log([], 0, 0, log.published)
    case Refused(reason) =>
      if reason == WriteFailed then log.(stray := log.stray + c.out.writes)
      else if reason == CannotSave then Log([], 0, 0, log.published)
      else log
    case _ => log
  }

  function WatchOne(o: Watched, dir: string, c: Call, other: string -> Byte): Watched {
    var s := Process(o.world, dir, c, other);
    Watched(s.world, Note(o.log, dir, c, s.reply, other))
  }

  function Watch(o: Watched, dir: string, cs: seq<Call>, other: string -> Byte): Watched
    decreases |cs|
  {
    if cs == [] then o else Watch(WatchOne(o, dir, cs[0], other), dir, cs[1..], other)
  }

  lemma {:induction false} WatchIsRun(o: Watched, dir: string, cs: seq<Call>, other: string -> Byte)
    ensures Watch(o, dir, cs, other).world == Run(o.world, dir, cs, other)
    decreases |cs|
  {
    hide Process, Note;
    if cs != [] {
      WatchIsRun(WatchOne(o, dir, cs[0], other), dir, cs[1..], other);
    }
  }

  // ------------------------------------------------------------------ the invariant

  /** An upload in progress tells the same story as the log. The file holds the accepted bytes, in order, exactly if
      no short write has left any behind. */
  predicate InProgress(w: World, dir: string, log: Log) {
    var u := w.up;
    ValidName(u.filename) && ',' !in u.filename
    && u.tmpPath == PathIn(dir, TmpName(u.filename)) && 0 < u.expectedSize < TWO_TO_64
    && |u.expectedMd5| == 32 && AllHexDigits(u.expectedMd5)
    && u.hashed == log.accepted
    && u.received == |log.accepted| % TWO_TO_64
    && u.frameCount == log.frames % TWO_TO_32
    && u.tmpPath in w.files
    && |w.files[u.tmpPath]| == |log.accepted| + log.stray
    && (log.stray == 0 <==> w.files[u.tmpPath] == log.accepted)
  }

  /** At every command boundary an upload is active iff its handle is open, every opening but that one has been
      closed once, and without an upload every field has its reset value. */
  predicate Inv(o: Watched, dir: string) {
    var w := o.world;
    (w.up.active <==> w.up.file)
    && w.fopens == w.fcloses + (if w.up.file then 1 else 0)
    && (w.up.active ==> InProgress(w, dir, o.log))
    && (!w.up.active ==> w.up == IDLE)
  }

  lemma PreuploadKeeps(o: Watched, dir: string, c: Call, other: string -> Byte, arg: string)
    requires Inv(o, dir) && Parse(c.raw) == Command("PREUPLOAD", arg)
    ensures Inv(WatchOne(o, dir, c, other), dir)
  {
    hide Parse, Payload, Contains, AllHexDigits;
    if arg != "" && !o.world.up.active && ReadRequest(arg).Good? && c.out.opens {
      var r := ReadRequest(arg);
      hide ReadRequest;
    } else {
      hide ReadRequest;
    }
  }

  lemma FrameKeeps(o: Watched, dir: string, c: Call, other: string -> Byte, arg: string)
    requires Inv(o, dir) && Parse(c.raw) == Command("UPLOAD", arg)
    ensures Inv(WatchOne(o, dir, c, other), dir)
  {
    hide Parse, ValidName, AllHexDigits, Judge, PathIn, TmpName, InProgress;
    if arg != "" && o.world.up.active {
      match Judge(arg, other)
      case Malformed(reply) => MalformedKeeps(o, dir, c, other, arg);
      case BadCrc(_, _) => BadCrcKeeps(o, dir, c, other, arg);
      case Sound(data) =>
        if c.out.writes < |data| {
          ShortWriteKeeps(o, dir, c, other, arg);
        } else {
          AcceptKeeps(o, dir, c, other, arg);
        }
    }
  }

  /** A frame command for an upload in progress. */
  predicate FrameFor(o: Watched, dir: string, c: Call, arg: string) {
    Inv(o, dir) && Parse(c.raw) == Command("UPLOAD", arg) && arg != "" && o.world.up.active
  }

  lemma MalformedKeeps(o: Watched, dir: string, c: Call, other: string -> Byte, arg: string)
    requires FrameFor(o, dir, c, arg) && Judge(arg, other).Malformed?
    ensures WatchOne(o, dir, c, other) == o
  {
    hide Parse, Judge, InProgress;
    JudgeReply(arg, other);
  }

  lemma BadCrcKeeps(o: Watched, dir: string, c: Call, other: string -> Byte, arg: string)
    requires FrameFor(o, dir, c, arg) && Judge(arg, other).BadCrc?
    ensures Inv(WatchOne(o, dir, c, other), dir)
  {
    hide Parse, Judge, ValidName, AllHexDigits, PathIn, TmpName, Payload, Hex4;
  }

  lemma ShortWriteKeeps(o: Watched, dir: string, c: Call, other: string -> Byte, arg: string)
    requires FrameFor(o, dir, c, arg) && Judge(arg, other).Sound? && c.out.writes < |Judge(arg, other).data|
    ensures Inv(WatchOne(o, dir, c, other), dir)
  {
    hide Parse, Judge, ValidName, AllHexDigits, PathIn, TmpName;
    if c.out.writes == 0 {
      assert Judge(arg, other).data[..0] == [];
    }
  }

  lemma SameAfterAppending(x: seq<Byte>, y: seq<Byte>, data: seq<Byte>)
    ensures x + data == y + data <==> x == y
  {
    if x + data == y + data {
      assert (x + data)[..|x|] == x && (y + data)[..|y|] == y;
    }
  }

  /** The world and the log after a frame was taken in full. */
  lemma AcceptIs(o: Watched, dir: string, c: Call, other: string -> Byte, arg: string)
    requires FrameFor(o, dir, c, arg) && Judge(arg, other).Sound? && c.out.writes >= |Judge(arg, other).data|
    ensures var w, data := o.world, Judge(arg, other).data;
      WatchOne(o, dir, c, other) ==
      Watched(w.(up := w.up.(received := (w.up.received + |data|) % TWO_TO_64, hashed := w.up.hashed + data,
                             frameCount := (w.up.frameCount + 1) % TWO_TO_32),
                 files := Append(w.files, w.up.tmpPath, data)),
              o.log.(accepted := o.log.accepted + data, frames := o.log.frames + 1))
  {
    hide Parse, Judge, InProgress, Append;
  }

  lemma AcceptKeeps(o: Watched, dir: string, c: Call, other: string -> Byte, arg: string)
    requires FrameFor(o, dir, c, arg) && Judge(arg, other).Sound? && c.out.writes >= |Judge(arg, other).data|
    ensures Inv(WatchOne(o, dir, c, other), dir)
  {
    hide Parse, Judge, ValidName, AllHexDigits, PathIn, TmpName, WatchOne;
    var data := Judge(arg, other).data;
    AcceptIs(o, dir, c, other, arg);
    Md5.WrappedCounter(|o.log.accepted|, |data|);
    SameAfterAppending(o.world.files[o.world.up.tmpPath], o.log.accepted, data);
  }

  /** A malformed frame gets one of these replies. */
  lemma JudgeReply(arg: string, other: string -> Byte)
    ensures match Judge(arg, other)
            case Malformed(reply) =>
              reply.FrameLengthMismatch? || (reply.Refused? && reply.reason in {MissingCrcAndLength, MissingData,
              WrongCrcLength, InvalidCrc, InvalidFrameLength, OddDataLength})
            case _ => true
  {
  }

  lemma DoneKeeps(o: Watched, dir: string, c: Call, other: string -> Byte, arg: string)
    requires Inv(o, dir) && Parse(c.raw) == Command("UPLOADDONE", arg)
    ensures Inv(WatchOne(o, dir, c, other), dir)
  {
    hide Parse, Payload, ValidName, AllHexDigits, PathIn, TmpName, Md5Hex, Unlink;
  }

  lemma CancelKeeps(o: Watched, dir: string, c: Call, other: string -> Byte, arg: string)
    requires Inv(o, dir) && Parse(c.raw) == Command("UPLOADCANCEL", arg)
    ensures Inv(WatchOne(o, dir, c, other), dir)
  {
    hide Parse, Payload, ValidName, AllHexDigits, PathIn, TmpName, Unlink;
  }

  lemma StepKeeps(o: Watched, dir: string, c: Call, other: string -> Byte)
    requires Inv(o, dir)
    ensures Inv(WatchOne(o, dir, c, other), dir)
  {
    hide Parse, Inv, Preupload, UploadFrame, UploadDone, UploadCancel, Verify;
    match Parse(c.raw)
    case Command(action, arg) =>
      if action == "PREUPLOAD" {
        PreuploadKeeps(o, dir, c, other, arg);
      } else if action == "UPLOAD" {
        FrameKeeps(o, dir, c, other, arg);
      } else if action == "UPLOADDONE" {
        DoneKeeps(o, dir, c, other, arg);
      } else if action == "UPLOADCANCEL" {
        CancelKeeps(o, dir, c, other, arg);
      } else {
        OthersKeep(o, dir, c, other);
      }
    case _ => OthersKeep(o, dir, c, other);
  }

  /** Any other command leaves the upload, the files and the log alone. */
  lemma OthersKeep(o: Watched, dir: string, c: Call, other: string -> Byte)
    requires !Parse(c.raw).Command? || Parse(c.raw).action !in {"PREUPLOAD", "UPLOAD", "UPLOADDONE", "UPLOADCANCEL"}
    ensures WatchOne(o, dir, c, other) == o
  {
    hide Parse, Contains, PathIn, Md5Hex;
  }

  /** Every run keeps the invariant. */
  lemma {:induction false} RunKeeps(o: Watched, dir: string, cs: seq<Call>, other: string -> Byte)
    requires Inv(o, dir)
    ensures Inv(Watch(o, dir, cs, other), dir)
    decreases |cs|
  {
    hide Inv, WatchOne;
    if cs != [] {
      StepKeeps(o, dir, cs[0], other);
      RunKeeps(WatchOne(o, dir, cs[0], other), dir, cs[1..], other);
    }
  }

  /** Nothing has been uploaded yet. */
  function Fresh(files: Files): Watched {
    Watched(World(IDLE, files, 0, 0), Log([], 0, 0, {}))
  }

  /** Hence it holds at every command boundary of a program's life. */
  lemma EveryRun(files: Files, dir: string, cs: seq<Call>, other: string -> Byte)
    ensures Inv(Watch(Fresh(files), dir, cs, other), dir)
  {
    RunKeeps(Fresh(files), dir, cs, other);
  }
}
