/** What each side is answered: a command that is served without interruption, AT+RESET in every interleaving. */
module LockServes {
  import opened Common
  import opened AtText
  import opened SessionLock
  import opened LockRuns
  import opened LockedUploads
  import Upload
  import UploadSteps

  // ------------------------------------------------------------------ the steps of one side

  /** The steps that a side still takes at most, by itself, until it is idle. */
  function HttpLeft(pc: HttpPc): nat {
    match pc
    case HttpIdle => 0
    case HttpRelease => 1
    case HttpWork(local, _) => 1 + UploadSteps.Left(local)
    case HttpHandle(_, _) => 32
    case HttpAcquire(_) => 33
    case HttpReadOwner(_) => 33
    case HttpCheck(_) => 34
  }

  function SerialLeft(pc: SerialPc): nat {
    match pc
    case SerialIdle => 0
    case SerialRelease => 1
    case SerialWork(local) => 1 + UploadSteps.Left(local)
    case SerialHandle(_) => 32
    case SerialReadOwner(_) => 33
    case SerialAcquire(_) => 34
  }

  lemma HttpStepDecreases(s: State, dir: string, other: string -> Byte, out: Upload.Outcome)
    requires !s.http.HttpIdle?
    ensures HttpLeft(NextHttp(s, Handlers(dir, other), out).state.http) < HttpLeft(s.http)
  {
    hide IsAction, UploadSteps.Advance;
    if s.http.HttpWork? && !s.http.local.Finished? {
      UploadSteps.AdvanceDecreases(s.world, s.http.local, dir, other);
    } else if s.http.HttpWork? {
      UploadSteps.AdvanceFinished(s.world, s.http.local, dir, other);
    }
  }

  lemma SerialStepDecreases(s: State, dir: string, other: string -> Byte, out: Upload.Outcome)
    requires !s.serial.SerialIdle?
    ensures SerialLeft(NextSerial(s, Handlers(dir, other), out).state.serial) < SerialLeft(s.serial)
  {
    hide IsAction, UploadSteps.Advance;
    if s.serial.SerialWork? && !s.serial.local.Finished? {
      UploadSteps.AdvanceDecreases(s.world, s.serial.local, dir, other);
    } else if s.serial.SerialWork? {
      UploadSteps.AdvanceFinished(s.world, s.serial.local, dir, other);
    }
  }

  /** The HTTP thread's own steps until it is idle, and the answer of the last one. */
  function HttpAlone(s: State, dir: string, other: string -> Byte, out: Upload.Outcome): Step
    requires !s.http.HttpIdle?
    decreases HttpLeft(s.http)
  {
    HttpStepDecreases(s, dir, other, out);
    var r := NextHttp(s, Handlers(dir, other), out);
    if r.state.http.HttpIdle? then r else HttpAlone(r.state, dir, other, out)
  }

  function SerialAlone(s: State, dir: string, other: string -> Byte, out: Upload.Outcome): Step
    requires !s.serial.SerialIdle?
    decreases SerialLeft(s.serial)
  {
    SerialStepDecreases(s, dir, other, out);
    var r := NextSerial(s, Handlers(dir, other), out);
    if r.state.serial.SerialIdle? then r else SerialAlone(r.state, dir, other, out)
  }

  // ------------------------------------------------------------------ what they come to

  predicate IsReset(cmd: string) {
    IsAction(cmd, "RESET") || IsAction(cmd, "FORCERESET")
  }

  /** A request as a whole. */
  function HttpServed(s: State, cmd: string, dir: string, other: string -> Byte, out: Upload.Outcome): Step {
    if IsExactly(cmd, "FORCERESET") then Step(s.(owner := NONE), ResetDone)
    else if IsExactly(cmd, "RESET") then
      if s.owner == HTTP then Step(s.(owner := NONE), ResetDone) else Step(s, NotOwner)
    else if s.owner == SERIAL then Step(s, HttpBusy)
    else if IsReset(cmd) then Step(s.(owner := NONE), ResetDone)
    else
      var p := Upload.Process(s.world, dir, Upload.Call(cmd, out), other);
      Step(s.(owner := HTTP, world := p.world), Handled(p.reply))
  }

  /** A line as a whole. */
  function SerialServed(s: State, line: string, dir: string, other: string -> Byte, out: Upload.Outcome): Step {
    if s.owner == HTTP then Step(s, SerialBusy)
    else if IsReset(line) then Step(s.(owner := NONE), ResetDone)
    else
      var p := Upload.Process(s.world, dir, Upload.Call(line, out), other);
      Step(s.(owner := SERIAL, world := p.world), Handled(p.reply))
  }

  lemma {:induction false} HttpWorks(s: State, dir: string, other: string -> Byte, out: Upload.Outcome)
    requires s.http.HttpWork?
    ensures var f := UploadSteps.Finish(s.world, s.http.local, dir, other);
      HttpAlone(s, dir, other, out) == Step(s.(http := HttpIdle, world := f.world), Handled(f.reply))
    decreases HttpLeft(s.http)
  {
    hide UploadSteps.Advance, UploadSteps.Finish;
    var l := s.http.local;
    var m := UploadSteps.Advance(s.world, l, dir, other);
    UploadSteps.FinishedIs(m.world, m.local, dir, other);
    if l.Finished? {
      UploadSteps.FinishedIs(s.world, l, dir, other);
      UploadSteps.AdvanceFinished(s.world, l, dir, other);
    } else {
      UploadSteps.FinishOne(s.world, l, dir, other);
      HttpStepDecreases(s, dir, other, out);
      if !m.local.Finished? {
        HttpWorks(NextHttp(s, Handlers(dir, other), out).state, dir, other, out);
      }
    }
  }

  lemma {:induction false} SerialWorks(s: State, dir: string, other: string -> Byte, out: Upload.Outcome)
    requires s.serial.SerialWork?
    ensures var f := UploadSteps.Finish(s.world, s.serial.local, dir, other);
      SerialAlone(s, dir, other, out) == Step(s.(serial := SerialIdle, world := f.world), Handled(f.reply))
    decreases SerialLeft(s.serial)
  {
    hide UploadSteps.Advance, UploadSteps.Finish;
    var l := s.serial.local;
    var m := UploadSteps.Advance(s.world, l, dir, other);
    UploadSteps.FinishedIs(m.world, m.local, dir, other);
    if l.Finished? {
      UploadSteps.FinishedIs(s.world, l, dir, other);
      UploadSteps.AdvanceFinished(s.world, l, dir, other);
    } else {
      UploadSteps.FinishOne(s.world, l, dir, other);
      SerialStepDecreases(s, dir, other, out);
      if !m.local.Finished? {
        SerialWorks(NextSerial(s, Handlers(dir, other), out).state, dir, other, out);
      }
    }
  }

  /** From the entry of a handler on. */
  lemma HttpEnters(s: State, cmd: string, checked: bool, dir: string, other: string -> Byte, out: Upload.Outcome)
    requires s.http == HttpHandle(cmd, checked)
    ensures var r, p := HttpAlone(s, dir, other, out), Upload.Process(s.world, dir, Upload.Call(cmd, out), other);
      if IsAction(cmd, "RESET") then
        r == if s.owner == HTTP then Step(s.(http := HttpIdle, owner := NONE), ResetDone)
             else Step(s.(http := HttpIdle), NotOwner)
      else if IsAction(cmd, "FORCERESET") then r == Step(s.(http := HttpIdle, owner := NONE), ResetDone)
      else r == Step(s.(http := HttpIdle, world := p.world), Handled(p.reply))
  {
    hide IsAction, UploadSteps.Advance, UploadSteps.Finish, Upload.Process, HttpAlone;
    HttpOne(s, dir, other, out);
    var next := NextHttp(s, Handlers(dir, other), out).state;
    if next.http.HttpWork? {
      HttpWorks(next, dir, other, out);
      UploadSteps.FinishIsProcess(s.world, Upload.Call(cmd, out), dir, other);
    } else if next.http.HttpRelease? {
      HttpOne(next, dir, other, out);
    }
  }

  lemma HttpOne(s: State, dir: string, other: string -> Byte, out: Upload.Outcome)
    requires !s.http.HttpIdle?
    ensures var r := NextHttp(s, Handlers(dir, other), out);
      HttpAlone(s, dir, other, out) == if r.state.http.HttpIdle? then r else HttpAlone(r.state, dir, other, out)
  {
    hide NextHttp;
  }

  lemma SerialOne(s: State, dir: string, other: string -> Byte, out: Upload.Outcome)
    requires !s.serial.SerialIdle?
    ensures var r := NextSerial(s, Handlers(dir, other), out);
      SerialAlone(s, dir, other, out)
      == if r.state.serial.SerialIdle? then r else SerialAlone(r.state, dir, other, out)
  {
    hide NextSerial;
  }

  lemma SerialEnters(s: State, line: string, dir: string, other: string -> Byte, out: Upload.Outcome)
    requires s.serial == SerialHandle(line) && s.owner == SERIAL
    ensures var r, p := SerialAlone(s, dir, other, out), Upload.Process(s.world, dir, Upload.Call(line, out), other);
      if IsReset(line) then r == Step(s.(serial := SerialIdle, owner := NONE), ResetDone)
      else r == Step(s.(serial := SerialIdle, world := p.world), Handled(p.reply))
  {
    hide IsAction, UploadSteps.Advance, UploadSteps.Finish, Upload.Process, SerialAlone;
    SerialOne(s, dir, other, out);
    var next := NextSerial(s, Handlers(dir, other), out).state;
    if next.serial.SerialWork? {
      SerialWorks(next, dir, other, out);
      UploadSteps.FinishIsProcess(s.world, Upload.Call(line, out), dir, other);
    } else if next.serial.SerialRelease? {
      SerialOne(next, dir, other, out);
    }
  }

  /** Which of the two spellings a bypassing command has decides what it is parsed as. */
  lemma ExactIsAction(cmd: string)
    ensures IsExactly(cmd, "RESET") ==> IsAction(cmd, "RESET") && Bypasses(cmd)
    ensures IsExactly(cmd, "FORCERESET") ==> IsAction(cmd, "FORCERESET") && Bypasses(cmd)
    ensures Bypasses(cmd) ==> IsExactly(cmd, "RESET") || IsExactly(cmd, "FORCERESET")
    ensures !(IsAction(cmd, "RESET") && IsAction(cmd, "FORCERESET"))
  {
    ExactIsParsed(cmd, "RESET");
    ExactIsParsed(cmd, "FORCERESET");
    OneAction(cmd);
    hide Bypasses, IsAction, IsExactly;
    if Bypasses(cmd) {
      BypassIsReset(cmd);
      if IsAction(cmd, "RESET") {
        BypassIff(cmd, "RESET");
      } else {
        BypassIff(cmd, "FORCERESET");
      }
    }
  }

  lemma OneAction(cmd: string)
    ensures !(IsAction(cmd, "RESET") && IsAction(cmd, "FORCERESET"))
  {
    hide Parse;
    assert |"RESET"| != |"FORCERESET"|;
  }

  lemma ExactIsParsed(cmd: string, name: string)
    requires name in {"FORCERESET", "RESET"}
    ensures IsExactly(cmd, name) ==> IsAction(cmd, name) && Bypasses(cmd)
  {
    hide Parse, Bypasses, UpperAll, IsTrimmed;
    if IsExactly(cmd, name) {
      ResetNames(name);
      ParseAtEquals(cmd, name);
      ExactBypasses(cmd, name);
    }
  }

  /** A request that no other step interrupts is served as a whole: only the exact spellings pass a lock that SERIAL
      holds, a checked command takes a free lock, and AT+RESET by the owner, or AT+FORCERESET, frees it. */
  lemma HttpServes(s: State, cmd: string, dir: string, other: string -> Byte, out: Upload.Outcome)
    requires s.http.HttpIdle?
    ensures var asked := Next(s, Handlers(dir, other), Request(cmd)).state;
      && !asked.http.HttpIdle?
      && HttpAlone(asked, dir, other, out) == HttpServed(s, cmd, dir, other, out)
  {
    hide IsAction, IsExactly, Bypasses, Upload.Process, HttpAlone, UploadSteps.Advance;
    ExactIsAction(cmd);
    var h := Handlers(dir, other);
    var asked := Next(s, h, Request(cmd)).state;
    if Bypasses(cmd) {
      HttpEnters(asked, cmd, false, dir, other, out);
    } else {
      HttpOne(asked, dir, other, out);
      var second := NextHttp(asked, h, out).state;
      HttpOne(second, dir, other, out);
      var third := NextHttp(second, h, out).state;
      if third.http.HttpHandle? {
        HttpEnters(third, cmd, true, dir, other, out);
      }
    }
  }

  /** The same for a line. SERIAL has no way past a lock that HTTP holds. */
  lemma SerialServes(s: State, line: string, dir: string, other: string -> Byte, out: Upload.Outcome)
    requires s.serial.SerialIdle? && s.running
    ensures var read := Next(s, Handlers(dir, other), SerialLine(line)).state;
      && !read.serial.SerialIdle?
      && SerialAlone(read, dir, other, out) == SerialServed(s, line, dir, other, out)
  {
    hide IsAction, Upload.Process, SerialAlone, UploadSteps.Advance;
    var h := Handlers(dir, other);
    var read := Next(s, h, SerialLine(line)).state;
    SerialOne(read, dir, other, out);
    var second := NextSerial(read, h, out).state;
    if second.serial.SerialReadOwner? {
      SerialOne(second, dir, other, out);
      second := NextSerial(second, h, out).state;
    }
    if second.serial.SerialHandle? {
      SerialEnters(second, line, dir, other, out);
    }
  }

  // ------------------------------------------------------------------ AT+RESET

  /** AT+RESET by the owner, in any spelling, frees the lock, and the next command of the other side is served;
      `/api/reset` frees it whoever owns it. */
  lemma OwnerResetFrees(s: State, cmd: string, line: string, dir: string, other: string -> Byte, out: Upload.Outcome)
    requires s.http.HttpIdle? && s.serial.SerialIdle? && s.running
    ensures s.owner == HTTP && IsAction(cmd, "RESET") ==>
      var asked := Next(s, Handlers(dir, other), Request(cmd)).state;
      && HttpAlone(asked, dir, other, out) == Step(s.(owner := NONE), ResetDone)
      && SerialServed(s.(owner := NONE), line, dir, other, out).answer != SerialBusy
    ensures s.owner == SERIAL && IsAction(line, "RESET") ==>
      var read := Next(s, Handlers(dir, other), SerialLine(line)).state;
      && SerialAlone(read, dir, other, out) == Step(s.(owner := NONE), ResetDone)
      && HttpServed(s.(owner := NONE), cmd, dir, other, out).answer != HttpBusy
    ensures Next(s, Handlers(dir, other), ApiReset) == Step(s.(owner := NONE), ResetDone)
  {
    hide IsAction, IsExactly, Bypasses, Upload.Process, HttpAlone, SerialAlone;
    ExactIsAction(cmd);
    HttpServes(s, cmd, dir, other, out);
    SerialServes(s, line, dir, other, out);
  }

  /** One step that is answered OK leaves the lock free, unless AT+RESET comes to release a lock that was taken away
      from its side, and taken by the other side, after it had read the owner. */
  lemma ResetDoneFreesIff(s: State, h: Handler, a: Action)
    requires Next(s, h, a).answer == ResetDone
    ensures Next(s, h, a).state.owner == NONE <==>
      !(a.HttpStep? && s.http.HttpRelease? && s.owner == SERIAL)
      && !(a.SerialStep? && s.serial.SerialRelease? && s.owner == HTTP)
  {
    hide IsAction, Bypasses;
  }

  /** In every interleaving without overrides, the lock is free when AT+RESET or AT+FORCERESET is answered OK. */
  lemma ResetFrees(s: State, h: Handler, steps: seq<Action>, k: nat)
    requires Inv(s) && k < |steps| && Calm(s, h, steps, k)
    requires AnswerAt(s, h, steps, k) == ResetDone
    ensures StateAt(s, h, steps, k + 1).owner == NONE
  {
    InvAt(s, h, steps, k);
    ResetDoneFreesIff(StateAt(s, h, steps, k), h, steps[k]);
    hide Next, Bypasses;
  }

  // ------------------------------------------------------------------ the owner's commands, in every interleaving

  /** HTTP owns the lock, and its command is on the way. */
  predicate HttpOnTheWay(s: State, cmd: string) {
    s.owner == HTTP
    && match s.http
       case HttpCheck(c) => c == cmd
       case HttpReadOwner(c) => c == cmd
       case HttpHandle(c, _) => c == cmd
       case HttpWork(_, _) => !IsReset(cmd)
       case HttpRelease => IsAction(cmd, "RESET")
       case _ => false
  }

  predicate SerialOnTheWay(s: State, line: string) {
    s.owner == SERIAL
    && match s.serial
       case SerialAcquire(c) => c == line
       case SerialReadOwner(c) => c == line
       case SerialHandle(c) => c == line
       case SerialWork(_) => !IsReset(line)
       case SerialRelease => IsAction(line, "RESET")
       case _ => false
  }

  /** An answer that an owner may get to its command, and the owner after it. */
  predicate OwnersAnswer(cmd: string, answer: Answer, owner: Owner, side: Owner) {
    if IsReset(cmd) then answer == ResetDone && owner == NONE else answer.Handled? && owner == side
  }

  lemma HttpGoesOn(s: State, h: Handler, a: Action, cmd: string)
    requires Inv(s) && !Overrides(s, a) && HttpOnTheWay(s, cmd)
    ensures var n := Next(s, h, a);
      if a.HttpStep? && n.answer != NoAnswer then OwnersAnswer(cmd, n.answer, n.state.owner, HTTP)
      else HttpOnTheWay(n.state, cmd)
  {
    hide Parse, Bypasses, IsAction;
    OneAction(cmd);
  }

  lemma SerialGoesOn(s: State, h: Handler, a: Action, line: string)
    requires Inv(s) && !Overrides(s, a) && SerialOnTheWay(s, line)
    ensures var n := Next(s, h, a);
      if a.SerialStep? && n.answer != NoAnswer then OwnersAnswer(line, n.answer, n.state.owner, SERIAL)
      else SerialOnTheWay(n.state, line)
  {
    hide Parse, Bypasses, IsAction;
    OneAction(line);
    if s.http.HttpHandle? && !s.http.checked {
      BypassIsReset(s.http.cmd);
    }
  }

  /** No step from `i` up to `j` answers this side. */
  predicate Unanswered(s: State, h: Handler, steps: seq<Action>, i: nat, j: nat, side: Owner)
    requires j <= |steps|
  {
    forall k :: i <= k < j ==>
      (if side == HTTP then steps[k].HttpStep? else steps[k].SerialStep?) ==> AnswerAt(s, h, steps, k) == NoAnswer
  }

  lemma {:induction false} HttpStaysOnTheWay(s: State, h: Handler, steps: seq<Action>, i: nat, j: nat, cmd: string)
    requires Inv(s) && i <= j <= |steps| && Calm(s, h, steps, j)
    requires HttpOnTheWay(StateAt(s, h, steps, i), cmd) && Unanswered(s, h, steps, i, j, HTTP)
    ensures HttpOnTheWay(StateAt(s, h, steps, j), cmd)
    decreases j
  {
    hide Inv, Overrides, Next, HttpOnTheWay, OwnersAnswer;
    if i < j {
      HttpStaysOnTheWay(s, h, steps, i, j - 1, cmd);
      InvAt(s, h, steps, j - 1);
      HttpGoesOn(StateAt(s, h, steps, j - 1), h, steps[j - 1], cmd);
    }
  }

  lemma {:induction false} SerialStaysOnTheWay(s: State, h: Handler, steps: seq<Action>, i: nat, j: nat, line: string)
    requires Inv(s) && i <= j <= |steps| && Calm(s, h, steps, j)
    requires SerialOnTheWay(StateAt(s, h, steps, i), line) && Unanswered(s, h, steps, i, j, SERIAL)
    ensures SerialOnTheWay(StateAt(s, h, steps, j), line)
    decreases j
  {
    hide Inv, Overrides, Next, SerialOnTheWay, OwnersAnswer;
    if i < j {
      SerialStaysOnTheWay(s, h, steps, i, j - 1, line);
      InvAt(s, h, steps, j - 1);
      SerialGoesOn(StateAt(s, h, steps, j - 1), h, steps[j - 1], line);
    }
  }

  /** In every interleaving without overrides, the owner's request is never refused: it is served, or, for AT+RESET and
      AT+FORCERESET in any spelling, answered OK with the lock free. */
  lemma HttpOwnerIsServed(s: State, h: Handler, steps: seq<Action>, i: nat, k: nat, cmd: string)
    requires Inv(s) && i < k < |steps| && Calm(s, h, steps, k + 1)
    requires var t := StateAt(s, h, steps, i); t.http.HttpIdle? && t.owner == HTTP && steps[i] == Request(cmd)
    requires Unanswered(s, h, steps, i, k, HTTP)
    requires steps[k].HttpStep? && AnswerAt(s, h, steps, k) != NoAnswer
    ensures OwnersAnswer(cmd, AnswerAt(s, h, steps, k), StateAt(s, h, steps, k + 1).owner, HTTP)
  {
    hide Inv, Overrides, Next, HttpOnTheWay, OwnersAnswer, IsReset;
    HttpSetsOut(StateAt(s, h, steps, i), h, cmd);
    HttpStaysOnTheWay(s, h, steps, i + 1, k, cmd);
    InvAt(s, h, steps, k);
    HttpGoesOn(StateAt(s, h, steps, k), h, steps[k], cmd);
  }

  lemma HttpSetsOut(s: State, h: Handler, cmd: string)
    requires s.http.HttpIdle? && s.owner == HTTP
    ensures HttpOnTheWay(Next(s, h, Request(cmd)).state, cmd)
  {
    hide Bypasses, IsAction;
  }

  lemma SerialOwnerIsServed(s: State, h: Handler, steps: seq<Action>, i: nat, k: nat, line: string)
    requires Inv(s) && i < k < |steps| && Calm(s, h, steps, k + 1)
    requires var t := StateAt(s, h, steps, i);
      t.serial.SerialIdle? && t.running && t.owner == SERIAL && steps[i] == SerialLine(line)
    requires Unanswered(s, h, steps, i, k, SERIAL)
    requires steps[k].SerialStep? && AnswerAt(s, h, steps, k) != NoAnswer
    ensures OwnersAnswer(line, AnswerAt(s, h, steps, k), StateAt(s, h, steps, k + 1).owner, SERIAL)
  {
    hide Inv, Overrides, Next, SerialOnTheWay, OwnersAnswer, IsReset;
    SerialSetsOut(StateAt(s, h, steps, i), h, line);
    SerialStaysOnTheWay(s, h, steps, i + 1, k, line);
    InvAt(s, h, steps, k);
    SerialGoesOn(StateAt(s, h, steps, k), h, steps[k], line);
  }

  lemma SerialSetsOut(s: State, h: Handler, line: string)
    requires s.serial.SerialIdle? && s.running && s.owner == SERIAL
    ensures SerialOnTheWay(Next(s, h, SerialLine(line)).state, line)
  {
    hide IsAction;
  }

  // ------------------------------------------------------------------ the end of the program

  lemma StaysShut(s: State, h: Handler, a: Action)
    requires !s.running && s.serial.SerialIdle?
    ensures var n := Next(s, h, a).state; !n.running && n.serial.SerialIdle?
  {
    hide IsAction, Bypasses;
  }

  /** A shutdown frees the lock, and no line is taken after it. */
  lemma {:induction false} ShutdownIsFinal(s: State, h: Handler, steps: seq<Action>, i: nat, j: nat)
    requires i < j <= |steps| && steps[i] == Shutdown && StateAt(s, h, steps, i).serial.SerialIdle?
    ensures StateAt(s, h, steps, i + 1).owner == NONE
    ensures !StateAt(s, h, steps, j).running && StateAt(s, h, steps, j).serial.SerialIdle?
    decreases j
  {
    if i + 1 < j {
      ShutdownIsFinal(s, h, steps, i, j - 1);
      StaysShut(StateAt(s, h, steps, j - 1), h, steps[j - 1]);
      hide Next;
    }
  }
}
