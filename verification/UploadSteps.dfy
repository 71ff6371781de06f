/** The upload handlers one access to the shared upload at a time, as two threads may interleave them, and the proof
    that a handler which is left alone does what its specification says. */
module UploadSteps {
  import opened Common
  import opened AtText
  import opened Upload
  import Md5

  /** Where a handler stands, with the values it holds in local variables. Each step reads or writes one field, or
      the same field twice, or makes one call on the file. */
  datatype Local =
    | Start(c: Call)
    | PreActive(arg: string, out: Outcome)
    | PreOpen(request: Request)
    | PreAssign(request: Request, tmp: string, n: nat)
    | FrameActive(arg: string, out: Outcome)
    | FrameFile(arg: string, out: Outcome)
    | FrameRefuse(expected: string, got: bv16)
    | FrameWrite(data: seq<Byte>, out: Outcome)
    | FrameHash(data: seq<Byte>)
    | FrameAdd(data: seq<Byte>)
    | FrameCount
    | FrameReply
    | DoneActive(out: Outcome)
    | DoneFile(out: Outcome)
    | DoneClose(out: Outcome)
    | DoneClear(out: Outcome)
    | DoneSize(out: Outcome)
    | DoneDigest(out: Outcome)
    | DoneRename(out: Outcome, md5: string)
    | CancelActive(out: Outcome)
    | CancelFile(out: Outcome)
    | CancelClose(out: Outcome)
    | CancelClear(out: Outcome)
    | Unlinking(out: Outcome, reply: Reply)
    | Resetting(n: nat, reply: Reply)
    | Verifying(arg: string)
    | Finished(reply: Reply)

  /** The steps that are left, at most. */
  function Left(l: Local): nat {
    match l
    case Start(_) => 30
    case PreActive(_, _) => 29
    case PreOpen(_) => 28
    case PreAssign(_, _, n) => if n < ASSIGNED then 1 + ASSIGNED - n else 1
    case FrameActive(_, _) => 29
    case FrameFile(_, _) => 28
    case FrameRefuse(_, _) => 1
    case FrameWrite(_, _) => 27
    case FrameHash(_) => 26
    case FrameAdd(_) => 25
    case FrameCount => 24
    case FrameReply => 23
    case DoneActive(_) => 29
    case DoneFile(_) => 28
    case DoneClose(_) => 27
    case DoneClear(_) => 26
    case DoneSize(_) => 25
    case DoneDigest(_) => 24
    case DoneRename(_, _) => 23
    case CancelActive(_) => 29
    case CancelFile(_) => 28
    case CancelClose(_) => 27
    case CancelClear(_) => 26
    case Unlinking(_, _) => 12
    case Resetting(n, _) => if n < RESET then 1 + RESET - n else 1
    case Verifying(_) => 1
    case Finished(_) => 0
  }

  /** The assignments of PREUPLOAD, and those of `reset`, in their order. */
  const ASSIGNED: nat := 9
  const RESET: nat := 8

  function Assign(u: Upload, r: Request, tmp: string, n: nat): Upload
    requires r.Good?
  {
    match n
    case 0 => u.(active := true)
    case 1 => u.(filename := r.filename)
    case 2 => u.(tmpPath := tmp)
    case 3 => u.(expectedSize := r.size)
    case 4 => u.(received := 0)
    case 5 => u.(frameCount := 0)
    case 6 => u.(file := true)
    case 7 => u.(expectedMd5 := r.md5)
    case _ => u.(hashed := [])
  }

  function ResetField(u: Upload, n: nat): Upload {
    match n
    case 0 => u.(active := false)
    case 1 => u.(filename := "")
    case 2 => u.(tmpPath := "")
    case 3 => u.(expectedSize := 0)
    case 4 => u.(received := 0)
    case 5 => u.(frameCount := 0)
    case 6 => u.(expectedMd5 := "")
    case _ => u.(hashed := [])
  }

  datatype Moved = Moved(world: World, local: Local)

  function Dispatch(c: Call): Local {
    match Parse(c.raw)
    case NotAt => Finished(Refused(NotAnAtCommand))
    case BadFormat => Finished(Refused(Reason.BadFormat))
    case Command(action, arg) =>
      if action == "VERIFY" then Verifying(arg)
      else if action == "PREUPLOAD" then
        if arg == "" then Finished(Refused(PreuploadNeedsArgument)) else PreActive(arg, c.out)
      else if action == "UPLOAD" then
        if arg == "" then Finished(Refused(UploadNeedsArgument)) else FrameActive(arg, c.out)
      else if action == "UPLOADDONE" then DoneActive(c.out)
      else if action == "UPLOADCANCEL" then CancelActive(c.out)
      else Finished(Elsewhere(action))
  }

  function AfterChecks(v: Verdict, out: Outcome): Local {
    match v
    case Malformed(reply) => Finished(reply)
    case BadCrc(expected, got) => FrameRefuse(expected, got)
    case Sound(data) => FrameWrite(data, out)
  }

  /** One step of a handler. */
  function Advance(w: World, l: Local, dir: string, other: string -> Byte): Moved {
    match l
    case Start(c) => Moved(w, Dispatch(c))
    case PreActive(arg, out) =>
      if w.up.active then Moved(w, Finished(Refused(AlreadyInProgress)))
      else
        var r := ReadRequest(arg);
        if r.Bad? then Moved(w, Finished(Refused(r.reason)))
        else if !out.opens then Moved(w, Finished(Refused(CannotCreateFile)))
        else Moved(w, PreOpen(r))
    case PreOpen(r) =>
      if r.Bad? then Moved(w, Finished(Refused(r.reason)))
      else
        var tmp := PathIn(dir, TmpName(r.filename));
        Moved(w.(files := w.files[tmp := []], fopens := w.fopens + 1), PreAssign(r, tmp, 0))
    case PreAssign(r, tmp, n) =>
      if r.Bad? || n >= ASSIGNED then Moved(w, Finished(Ready))
      else Moved(w.(up := Assign(w.up, r, tmp, n)), PreAssign(r, tmp, n + 1))
    case FrameActive(arg, out) =>
      Moved(w, if w.up.active then FrameFile(arg, out) else Finished(Refused(NoActiveUpload)))
    case FrameFile(arg, out) =>
      Moved(w, if w.up.file then AfterChecks(Judge(arg, other), out) else Finished(Refused(NoActiveUpload)))
    case FrameRefuse(expected, got) =>
      Moved(w.(up := w.up.(frameCount := (w.up.frameCount + 1) % TWO_TO_32)),
            Finished(CrcMismatch(w.up.frameCount, expected, Hex4(got))))
    case FrameWrite(data, out) =>
      if out.writes < |data| then
        Moved(w.(files := Append(w.files, w.up.tmpPath, data[..out.writes])), Finished(Refused(WriteFailed)))
      else Moved(w.(files := Append(w.files, w.up.tmpPath, data)), FrameHash(data))
    case FrameHash(data) => Moved(w.(up := w.up.(hashed := w.up.hashed + data)), FrameAdd(data))
    case FrameAdd(data) =>
      Moved(w.(up := w.up.(received := (w.up.received + |data|) % TWO_TO_64)), FrameCount)
    case FrameCount => Moved(w.(up := w.up.(frameCount := (w.up.frameCount + 1) % TWO_TO_32)), FrameReply)
    case FrameReply => Moved(w, Finished(Received(w.up.received)))
    case DoneActive(out) => Moved(w, if w.up.active then DoneFile(out) else Finished(Refused(NoActiveUpload)))
    case DoneFile(out) => Moved(w, if w.up.file then DoneClose(out) else Finished(Refused(NoActiveUpload)))
    case DoneClose(out) => Moved(Fclose(w, out), DoneClear(out))
    case DoneClear(out) => Moved(w.(up := w.up.(file := false)), DoneSize(out))
    case DoneSize(out) =>
      Moved(w, if w.up.received != w.up.expectedSize then
                 Unlinking(out, SizeMismatch(w.up.expectedSize, w.up.received))
               else DoneDigest(out))
    case DoneDigest(out) =>
      var md5 := Md5Hex(w.up.hashed);
      Moved(w.(up := w.up.(hashed := Md5.Padded(w.up.hashed))),
            if md5 != w.up.expectedMd5 then Unlinking(out, Md5Mismatch(w.up.expectedMd5, md5))
            else DoneRename(out, md5))
    case DoneRename(out, md5) =>
      if !out.renames || w.up.tmpPath !in w.files then Moved(w, Unlinking(out, Refused(CannotSave)))
      else
        var final := PathIn(dir, w.up.filename);
        Moved(w.(files := w.files[final := w.files[w.up.tmpPath]] - {w.up.tmpPath}),
              Resetting(0, Published(w.up.filename, w.up.received, md5)))
    case CancelActive(out) => Moved(w, if w.up.active then CancelFile(out) else Finished(NothingToCancel))
    case CancelFile(out) => Moved(w, if w.up.file then CancelClose(out) else Unlinking(out, Cancelled))
    case CancelClose(out) => Moved(Fclose(w, out), CancelClear(out))
    case CancelClear(out) => Moved(w.(up := w.up.(file := false)), Unlinking(out, Cancelled))
    case Unlinking(out, reply) =>
      Moved(w.(files := Unlink(w.files, w.up.tmpPath, out.unlinks)), Resetting(0, reply))
    case Resetting(n, reply) =>
      if n >= RESET then Moved(w, Finished(reply))
      else Moved(w.(up := ResetField(w.up, n)), Resetting(n + 1, reply))
    case Verifying(arg) => Moved(w, Finished(Verify(w.files, dir, arg)))
    case Finished(_) => Moved(w, l)
  }

  function Fclose(w: World, out: Outcome): World {
    w.(files := FlushFile(w.files, w.up.tmpPath, out.lost), fcloses := w.fcloses + 1)
  }

  /** Every step brings the handler nearer to its end. */
  lemma AdvanceDecreases(w: World, l: Local, dir: string, other: string -> Byte)
    requires !l.Finished?
    ensures Left(Advance(w, l, dir, other).local) < Left(l)
  {
    hide Parse, Judge, ReadRequest, Md5Hex, PathIn, TmpName, Verify, Hex4, Append, Unlink, FlushFile, Md5.Padded;
  }

  /** The rest of a handler that nobody interrupts. */
  function Finish(w: World, l: Local, dir: string, other: string -> Byte): Step
    decreases Left(l)
  {
    if l.Finished? then Step(w, l.reply)
    else
      AdvanceDecreases(w, l, dir, other);
      var m := Advance(w, l, dir, other);
      Finish(m.world, m.local, dir, other)
  }

  function ResetFrom(u: Upload, n: nat): Upload
    decreases RESET - n
  {
    if n >= RESET then u else ResetFrom(ResetField(u, n), n + 1)
  }

  lemma {:induction false} FinishResetting(w: World, n: nat, reply: Reply, dir: string, other: string -> Byte)
    ensures Finish(w, Resetting(n, reply), dir, other) == Step(w.(up := ResetFrom(w.up, n)), reply)
    decreases RESET - n
  {
    hide ResetField;
    if n < RESET {
      FinishResetting(w.(up := ResetField(w.up, n)), n + 1, reply, dir, other);
    }
  }

  lemma ResetIsIdle(u: Upload)
    ensures ResetFrom(u, 0) == IDLE.(file := u.file)
  {
  }

  function AssignFrom(u: Upload, r: Request, tmp: string, n: nat): Upload
    requires r.Good?
    decreases ASSIGNED - n
  {
    if n >= ASSIGNED then u else AssignFrom(Assign(u, r, tmp, n), r, tmp, n + 1)
  }

  lemma {:induction false} FinishAssigning(w: World, r: Request, tmp: string, n: nat, dir: string,
                                           other: string -> Byte)
    requires r.Good?
    ensures Finish(w, PreAssign(r, tmp, n), dir, other) == Step(w.(up := AssignFrom(w.up, r, tmp, n)), Ready)
    decreases ASSIGNED - n
  {
    hide Assign;
    if n < ASSIGNED {
      FinishAssigning(w.(up := Assign(w.up, r, tmp, n)), r, tmp, n + 1, dir, other);
    }
  }

  lemma AssignedIs(u: Upload, r: Request, tmp: string)
    requires r.Good?
    ensures AssignFrom(u, r, tmp, 0) == Upload(true, r.filename, tmp, r.size, 0, 0, true, r.md5, [])
  {
  }

  lemma FinishOne(w: World, l: Local, dir: string, other: string -> Byte)
    requires !l.Finished?
    ensures var m := Advance(w, l, dir, other); Finish(w, l, dir, other) == Finish(m.world, m.local, dir, other)
  {
    hide Advance;
  }

  lemma FinishUnlinking(w: World, out: Outcome, reply: Reply, dir: string, other: string -> Byte)
    ensures Finish(w, Unlinking(out, reply), dir, other) == Step(Drop(w, out), reply)
  {
    FinishResetting(w.(files := Unlink(w.files, w.up.tmpPath, out.unlinks)), 0, reply, dir, other);
    ResetIsIdle(w.up);
    hide ResetFrom, Unlink;
  }

  lemma FinishPreupload(w: World, arg: string, out: Outcome, dir: string, other: string -> Byte)
    requires arg != ""
    ensures Finish(w, PreActive(arg, out), dir, other) == Preupload(w, dir, arg, out)
  {
    hide ReadRequest, PathIn, TmpName, AssignFrom, Finish;
    FinishOne(w, PreActive(arg, out), dir, other);
    var r := ReadRequest(arg);
    if !w.up.active && r.Good? && out.opens {
      var tmp := PathIn(dir, TmpName(r.filename));
      var w' := w.(files := w.files[tmp := []], fopens := w.fopens + 1);
      FinishOne(w, PreOpen(r), dir, other);
      FinishAssigning(w', r, tmp, 0, dir, other);
      AssignedIs(w.up, r, tmp);
    } else {
      FinishedIs(w, Advance(w, PreActive(arg, out), dir, other).local, dir, other);
    }
  }

  lemma FinishedIs(w: World, l: Local, dir: string, other: string -> Byte)
    ensures l.Finished? ==> Finish(w, l, dir, other) == Step(w, l.reply)
  {
  }

  lemma AdvanceFinished(w: World, l: Local, dir: string, other: string -> Byte)
    requires l.Finished?
    ensures Advance(w, l, dir, other) == Moved(w, l)
  {
  }

  lemma FinishFrame(w: World, arg: string, out: Outcome, dir: string, other: string -> Byte)
    requires arg != ""
    ensures Finish(w, FrameActive(arg, out), dir, other) == UploadFrame(w, arg, out, other)
  {
    hide Judge, Finish, Append, Hex4;
    FinishOne(w, FrameActive(arg, out), dir, other);
    FinishedIs(w, Finished(Refused(NoActiveUpload)), dir, other);
    FinishOne(w, FrameFile(arg, out), dir, other);
    if w.up.active && w.up.file {
      match Judge(arg, other)
      case Malformed(reply) => FinishedIs(w, Finished(reply), dir, other);
      case BadCrc(expected, got) =>
        FinishOne(w, FrameRefuse(expected, got), dir, other);
        var m := Advance(w, FrameRefuse(expected, got), dir, other);
        FinishedIs(m.world, m.local, dir, other);
      case Sound(data) => FinishWrite(w, data, out, dir, other);
    }
  }

  lemma FinishWrite(w: World, data: seq<Byte>, out: Outcome, dir: string, other: string -> Byte)
    ensures Finish(w, FrameWrite(data, out), dir, other) == TakeVerdict(w, Sound(data), out)
  {
    hide Finish, Append;
    FinishOne(w, FrameWrite(data, out), dir, other);
    var m := Advance(w, FrameWrite(data, out), dir, other);
    FinishedIs(m.world, m.local, dir, other);
    if m.local.FrameHash? {
      FinishOne(m.world, m.local, dir, other);
      m := Advance(m.world, m.local, dir, other);
      FinishOne(m.world, m.local, dir, other);
      m := Advance(m.world, m.local, dir, other);
      FinishOne(m.world, m.local, dir, other);
      m := Advance(m.world, m.local, dir, other);
      FinishOne(m.world, m.local, dir, other);
      m := Advance(m.world, m.local, dir, other);
      FinishedIs(m.world, m.local, dir, other);
    }
  }

  lemma FinishDone(w: World, out: Outcome, dir: string, other: string -> Byte)
    ensures Finish(w, DoneActive(out), dir, other) == UploadDone(w, dir, out)
  {
    hide Finish, Drop, PathIn, Md5Hex, Unlink, FlushFile;
    FinishOne(w, DoneActive(out), dir, other);
    FinishedIs(w, Finished(Refused(NoActiveUpload)), dir, other);
    FinishOne(w, DoneFile(out), dir, other);
    if w.up.active && w.up.file {
      var closed := Fclose(w, out);
      FinishOne(w, DoneClose(out), dir, other);
      FinishOne(closed, DoneClear(out), dir, other);
      assert closed.(up := closed.up.(file := false)) == Close(w, out);
      FinishSize(Close(w, out), out, dir, other);
    }
  }

  /** UPLOADDONE after `fclose`. */
  lemma FinishSize(c: World, out: Outcome, dir: string, other: string -> Byte)
    requires !c.up.file
    ensures Finish(c, DoneSize(out), dir, other) ==
      if c.up.received != c.up.expectedSize then Step(Drop(c, out), SizeMismatch(c.up.expectedSize, c.up.received))
      else if Md5Hex(c.up.hashed) != c.up.expectedMd5 then
        Step(Drop(c, out), Md5Mismatch(c.up.expectedMd5, Md5Hex(c.up.hashed)))
      else if !out.renames || c.up.tmpPath !in c.files then Step(Drop(c, out), Refused(CannotSave))
      else
        Step(c.(files := c.files[PathIn(dir, c.up.filename) := c.files[c.up.tmpPath]] - {c.up.tmpPath}, up := IDLE),
             Published(c.up.filename, c.up.received, Md5Hex(c.up.hashed)))
  {
    hide Finish, PathIn, Md5Hex, Unlink, ResetFrom, Md5.Padded;
    FinishOne(c, DoneSize(out), dir, other);
    if c.up.received != c.up.expectedSize {
      FinishUnlinking(c, out, SizeMismatch(c.up.expectedSize, c.up.received), dir, other);
    } else {
      FinishOne(c, DoneDigest(out), dir, other);
      var m := Advance(c, DoneDigest(out), dir, other);
      if m.local.Unlinking? {
        FinishUnlinking(m.world, out, m.local.reply, dir, other);
      } else {
        FinishOne(m.world, m.local, dir, other);
        var n := Advance(m.world, m.local, dir, other);
        if n.local.Unlinking? {
          FinishUnlinking(n.world, out, n.local.reply, dir, other);
        } else {
          FinishResetting(n.world, 0, n.local.reply, dir, other);
          ResetIsIdle(n.world.up);
        }
      }
    }
  }

  lemma FinishCancelClose(w: World, out: Outcome, dir: string, other: string -> Byte)
    ensures Finish(w, CancelClose(out), dir, other) == Step(Drop(Close(w, out), out), Cancelled)
  {
    hide Finish, Drop, Unlink, FlushFile;
    var closed := Fclose(w, out);
    FinishOne(w, CancelClose(out), dir, other);
    FinishOne(closed, CancelClear(out), dir, other);
    assert closed.(up := closed.up.(file := false)) == Close(w, out);
    FinishUnlinking(Close(w, out), out, Cancelled, dir, other);
  }

  lemma FinishCancel(w: World, out: Outcome, dir: string, other: string -> Byte)
    ensures Finish(w, CancelActive(out), dir, other) == UploadCancel(w, out)
  {
    hide Finish, Drop, Close, Fclose, Unlink, FlushFile;
    FinishOne(w, CancelActive(out), dir, other);
    if !w.up.active {
      FinishedIs(w, Finished(NothingToCancel), dir, other);
    } else {
      FinishOne(w, CancelFile(out), dir, other);
      if w.up.file {
        FinishCancelClose(w, out, dir, other);
      } else {
        FinishUnlinking(w, out, Cancelled, dir, other);
      }
    }
  }

  lemma NoArgument(w: World, out: Outcome, dir: string, other: string -> Byte)
    ensures Preupload(w, dir, "", out) == Step(w, Refused(PreuploadNeedsArgument))
    ensures UploadFrame(w, "", out, other) == Step(w, Refused(UploadNeedsArgument))
  {
  }

  /** A handler that nobody interrupts does what is specified for its command. */
  lemma FinishIsProcess(w: World, c: Call, dir: string, other: string -> Byte)
    ensures Finish(w, Start(c), dir, other) == Process(w, dir, c, other)
  {
    hide Finish, Parse, Preupload, UploadFrame, UploadDone, UploadCancel, Verify;
    FinishOne(w, Start(c), dir, other);
    NoArgument(w, c.out, dir, other);
    var l := Dispatch(c);
    FinishedIs(w, l, dir, other);
    match l
    case PreActive(arg, out) => FinishPreupload(w, arg, out, dir, other);
    case FrameActive(arg, out) => FinishFrame(w, arg, out, dir, other);
    case DoneActive(out) => FinishDone(w, out, dir, other);
    case CancelActive(out) => FinishCancel(w, out, dir, other);
    case Verifying(arg) =>
      FinishOne(w, l, dir, other);
      FinishedIs(w, Advance(w, l, dir, other).local, dir, other);
    case Finished(_) =>
    case _ => assert false;
  }
}
