/** The session lock between the HTTP thread and the serial reader thread, one atomic access at a time. */
module SessionLock {
  import opened AtText
  import Upload
  import UploadSteps

  datatype Owner = NONE | HTTP | SERIAL

  // ------------------------------------------------------------------ the atomic accesses

  /** The compare-and-swap of `try_acquire`. */
  function Acquired(owner: Owner, who: Owner): Owner {
    if owner == NONE then who else owner
  }

  /** The compare-and-swap of `release`. */
  function Released(owner: Owner, who: Owner): Owner {
    if owner == who then NONE else owner
  }

  class SessionLock {
    var owner: Owner

    constructor ()
      ensures owner == NONE
    {
      owner := NONE;
    }

    method TryAcquire(who: Owner) returns (ok: bool)
      modifies this
      ensures owner == Acquired(old(owner), who) && ok == (old(owner) == NONE)
    {
      ok := owner == NONE;
      if ok {
        owner := who;
      }
    }

    method Release(who: Owner)
      modifies this
      ensures owner == Released(old(owner), who)
    {
      if owner == who {
        owner := NONE;
      }
    }

    method ForceRelease()
      modifies this
      ensures owner == NONE
    {
      owner := NONE;
    }
  }

  // ------------------------------------------------------------------ the two threads

  /** The commands for which `handleCommand` skips the session check; it compares exactly and before any trimming. */
  predicate Bypasses(cmd: string) {
    |cmd| > 4 && cmd[..3] == "AT+"
    && var eq := Find(cmd, '=', 3);
       (if eq.None? then cmd[3..] else cmd[3..eq.value]) in {"FORCERESET", "RESET"}
  }

  /** Where the HTTP thread stands: idle; before the three atomic accesses of the check; entering a handler, with or
      without the check; inside a handler that works on the upload; between the read and the compare-and-swap of
      AT+RESET. */
  datatype HttpPc =
    | HttpIdle
    | HttpCheck(cmd: string)
    | HttpAcquire(cmd: string)
    | HttpReadOwner(cmd: string)
    | HttpHandle(cmd: string, checked: bool)
    | HttpWork(local: UploadSteps.Local, checked: bool)
    | HttpRelease

  datatype SerialPc =
    | SerialIdle
    | SerialAcquire(line: string)
    | SerialReadOwner(line: string)
    | SerialHandle(line: string)
    | SerialWork(local: UploadSteps.Local)
    | SerialRelease

  datatype State = State(owner: Owner, http: HttpPc, serial: SerialPc, running: bool, world: Upload.World)

  /** One step: a request arrives, a line is read, one of the threads takes its next atomic step (`out` is how the
      file operations of a handler turn out), `/api/reset` is served, or the program shuts down. */
  datatype Action =
    | Request(cmd: string)
    | SerialLine(line: string)
    | HttpStep(out: Upload.Outcome)
    | SerialStep(out: Upload.Outcome)
    | ApiReset
    | Shutdown

  datatype Answer =
    | NoAnswer
    | HttpBusy
    | SerialBusy
    | ResetDone
    | NotOwner
    | Handled(reply: Upload.Reply)

  datatype Step = Step(state: State, answer: Answer)

  /** What one step of the other handlers does with the shared upload; the lock does not depend on it. */
  type Handler = (Upload.World, UploadSteps.Local) -> UploadSteps.Moved

  predicate IsAction(cmd: string, action: string) {
    Parse(cmd).Command? && Parse(cmd).action == action
  }

  /** Entering a handler: AT+RESET reads the owner, AT+FORCERESET swaps it out, any other goes to work. */
  function EnterHttp(s: State, cmd: string, checked: bool, out: Upload.Outcome): Step {
    if IsAction(cmd, "RESET") then
      if s.owner != HTTP then Step(s.(http := HttpIdle), NotOwner) else Step(s.(http := HttpRelease), NoAnswer)
    else if IsAction(cmd, "FORCERESET") then Step(s.(http := HttpIdle, owner := NONE), ResetDone)
    else Step(s.(http := HttpWork(UploadSteps.Start(Upload.Call(cmd, out)), checked)), NoAnswer)
  }

  function EnterSerial(s: State, line: string, out: Upload.Outcome): Step {
    if IsAction(line, "RESET") then
      if s.owner != SERIAL then Step(s.(serial := SerialIdle), NotOwner)
      else Step(s.(serial := SerialRelease), NoAnswer)
    else if IsAction(line, "FORCERESET") then Step(s.(serial := SerialIdle, owner := NONE), ResetDone)
    else Step(s.(serial := SerialWork(UploadSteps.Start(Upload.Call(line, out)))), NoAnswer)
  }

  function WorkHttp(s: State, m: UploadSteps.Moved, checked: bool): Step {
    if m.local.Finished? then Step(s.(http := HttpIdle, world := m.world), Handled(m.local.reply))
    else Step(s.(http := HttpWork(m.local, checked), world := m.world), NoAnswer)
  }

  function WorkSerial(s: State, m: UploadSteps.Moved): Step {
    if m.local.Finished? then Step(s.(serial := SerialIdle, world := m.world), Handled(m.local.reply))
    else Step(s.(serial := SerialWork(m.local), world := m.world), NoAnswer)
  }

  function NextHttp(s: State, h: Handler, out: Upload.Outcome): Step {
    match s.http
    case HttpIdle => Step(s, NoAnswer)
    case HttpCheck(cmd) => Step(s.(http := if s.owner == NONE then HttpAcquire(cmd) else HttpReadOwner(cmd)), NoAnswer)
    case HttpAcquire(cmd) =>
      if s.owner == NONE then Step(s.(owner := HTTP, http := HttpHandle(cmd, true)), NoAnswer)
      else Step(s.(http := HttpIdle), HttpBusy)
    case HttpReadOwner(cmd) =>
      if s.owner != HTTP then Step(s.(http := HttpIdle), HttpBusy)
      else Step(s.(http := HttpHandle(cmd, true)), NoAnswer)
    case HttpHandle(cmd, checked) => EnterHttp(s, cmd, checked, out)
    case HttpWork(local, checked) => WorkHttp(s, h(s.world, local), checked)
    case HttpRelease => Step(s.(http := HttpIdle, owner := Released(s.owner, HTTP)), ResetDone)
  }

  function NextSerial(s: State, h: Handler, out: Upload.Outcome): Step {
    match s.serial
    case SerialIdle => Step(s, NoAnswer)
    case SerialAcquire(line) =>
      Step(s.(owner := Acquired(s.owner, SERIAL),
              serial := if s.owner == NONE then SerialHandle(line) else SerialReadOwner(line)), NoAnswer)
    case SerialReadOwner(line) =>
      if s.owner != SERIAL then Step(s.(serial := SerialIdle), SerialBusy)
      else Step(s.(serial := SerialHandle(line)), NoAnswer)
    case SerialHandle(line) => EnterSerial(s, line, out)
    case SerialWork(local) => WorkSerial(s, h(s.world, local))
    case SerialRelease => Step(s.(serial := SerialIdle, owner := Released(s.owner, SERIAL)), ResetDone)
  }

  /** A step that is not possible in a state leaves it as it is. */
  function Next(s: State, h: Handler, a: Action): Step {
    match a
    case Request(cmd) =>
      if !s.http.HttpIdle? then Step(s, NoAnswer)
      else Step(s.(http := if Bypasses(cmd) then HttpHandle(cmd, false) else HttpCheck(cmd)), NoAnswer)
    case SerialLine(line) =>
      if !s.running || !s.serial.SerialIdle? then Step(s, NoAnswer)
      else Step(s.(serial := SerialAcquire(line)), NoAnswer)
    case HttpStep(out) => NextHttp(s, h, out)
    case SerialStep(out) => NextSerial(s, h, out)
    case ApiReset => if !s.http.HttpIdle? then Step(s, NoAnswer) else Step(s.(owner := NONE), ResetDone)
    case Shutdown =>
      // The reader thread is joined before the lock is taken away.
      if !s.serial.SerialIdle? then Step(s, NoAnswer) else Step(s.(owner := NONE, running := false), NoAnswer)
  }

  // ------------------------------------------------------------------ mutual exclusion

  /** The thread is inside a handler that went through the session check, or in the middle of its own AT+RESET. */
  predicate HttpRelies(s: State) {
    s.http.HttpRelease? || ((s.http.HttpHandle? || s.http.HttpWork?) && s.http.checked)
  }

  predicate SerialRelies(s: State) {
    s.serial.SerialHandle? || s.serial.SerialWork? || s.serial.SerialRelease?
  }

  predicate Inv(s: State) {
    (HttpRelies(s) ==> s.owner == HTTP)
    && (SerialRelies(s) ==> s.owner == SERIAL)
    && (s.http.HttpHandle? && !s.http.checked ==> Bypasses(s.http.cmd))
    && (s.http.HttpWork? ==> s.http.checked)
  }

  /** A step that takes the lock away from whoever holds it: `/api/reset`, shutdown, and AT+FORCERESET over HTTP without
      the session check. */
  predicate Overrides(s: State, a: Action) {
    a.ApiReset? || a.Shutdown?
    || (a.HttpStep? && s.http.HttpHandle? && !s.http.checked && IsAction(s.http.cmd, "FORCERESET"))
  }

  lemma {:induction false} TrimStops(s: string, n: nat)
    requires 0 < n <= |s| && !IsTrimmed(s[n - 1])
    ensures |Trim(s)| >= n
    decreases |s|
  {
    if |s| > n && IsTrimmed(s[|s| - 1]) {
      TrimStops(s[..|s| - 1], n);
    }
  }

  /** A line with an '=' is parsed on either side of its first one; trimming stops there. */
  lemma ParseAtEquals(cmd: string, name: string)
    requires |cmd| > 3 && cmd[..3] == "AT+" && name != "" && '=' !in name && UpperAll(name) == name
    requires !IsTrimmed(name[|name| - 1])
    requires name <= cmd[3..] && (|cmd| == 3 + |name| || cmd[3 + |name|] == '=')
    ensures IsAction(cmd, name)
  {
    hide Parse, UpperAll, Trim;
    var n := 3 + |name|;
    assert cmd[3..][..|name|] == name;
    assert cmd[..n] == "AT+" + name;
    assert cmd[n - 1] == name[|name| - 1];
    TrimStops(cmd, if |cmd| == n then n else n + 1);
    var t := Trim(cmd);
    assert t[..n] == cmd[..n];
    assert t == "AT+" + name + t[n..];
    ParseParts(cmd, name, t[n..]);
  }

  lemma ResetNames(name: string)
    requires name in {"FORCERESET", "RESET"}
    ensures name != "" && '=' !in name && UpperAll(name) == name && !IsTrimmed(name[|name| - 1])
  {
  }

  /** What bypasses the session check is parsed as AT+RESET or AT+FORCERESET, so no other handler runs unchecked. */
  lemma BypassIsReset(cmd: string)
    requires Bypasses(cmd)
    ensures IsAction(cmd, "RESET") || IsAction(cmd, "FORCERESET")
  {
    hide UpperAll, IsTrimmed, Parse, Find;
    var eq := Find(cmd, '=', 3);
    var name := if eq.None? then cmd[3..] else cmd[3..eq.value];
    ResetNames(name);
    assert eq.Some? ==> name == cmd[3..][..|name|];
    ParseAtEquals(cmd, name);
  }

  /** `cmd` begins with "AT+" and exactly this name, which ends there or at an '='. */
  predicate IsExactly(cmd: string, name: string) {
    |cmd| >= 3 && cmd[..3] == "AT+" && name <= cmd[3..] && (|cmd| == 3 + |name| || cmd[3 + |name|] == '=')
  }

  lemma BypassIsExact(cmd: string, name: string)
    requires name in {"FORCERESET", "RESET"} && IsAction(cmd, name) && Bypasses(cmd)
    ensures IsExactly(cmd, name)
  {
    hide Parse, UpperAll, IsTrimmed, Find;
    var eq := Find(cmd, '=', 3);
    var found := if eq.None? then cmd[3..] else cmd[3..eq.value];
    ResetNames(found);
    assert eq.Some? ==> found == cmd[3..][..|found|];
    ParseAtEquals(cmd, found);
    assert found == name;
  }

  lemma ExactBypasses(cmd: string, name: string)
    requires name in {"FORCERESET", "RESET"} && IsExactly(cmd, name)
    ensures Bypasses(cmd)
  {
    hide UpperAll, IsTrimmed, Find;
    ResetNames(name);
    assert cmd[3..][..|name|] == name;
    assert cmd[..3 + |name|] == "AT+" + name;
    if |cmd| == 3 + |name| {
      NotFound(cmd, '=', 3);
      assert cmd[3..] == name;
    } else {
      assert cmd == cmd[..3 + |name|] + ['='] + cmd[4 + |name|..];
      assert cmd[..3 + |name|][3..] == name == cmd[3..3 + |name|];
      FindAfter(cmd[..3 + |name|], '=', cmd[4 + |name|..], 3);
    }
  }

  /** An AT+RESET or AT+FORCERESET skips the session check exactly if it is spelled in capitals and nothing, not even a
      blank that is trimmed later, comes between its name and the end of the line or an '='. */
  lemma BypassIff(cmd: string, name: string)
    requires name in {"FORCERESET", "RESET"} && IsAction(cmd, name)
    ensures Bypasses(cmd) <==> IsExactly(cmd, name)
  {
    hide Bypasses, IsExactly, IsAction;
    if Bypasses(cmd) {
      BypassIsExact(cmd, name);
    }
    if IsExactly(cmd, name) {
      ExactBypasses(cmd, name);
    }
  }

  /** What an idle HTTP side answers while SERIAL holds the lock and nothing else happens: AT+FORCERESET frees it and
      AT+RESET is told that it is not the owner, but only in the exact spelling; in any other it is a 503. */
  lemma IdleHttpAnswers(s: State, h: Handler, cmd: string, name: string, out: Upload.Outcome)
    requires s.http.HttpIdle? && s.owner == SERIAL
    requires name in {"FORCERESET", "RESET"} && IsAction(cmd, name)
    ensures var asked := Next(s, h, Request(cmd)).state;
      var first := Next(asked, h, HttpStep(out));
      var second := Next(first.state, h, HttpStep(out));
      if IsExactly(cmd, name) then
        first.state.http.HttpIdle?
        && (if name == "FORCERESET" then first.answer == ResetDone && first.state.owner == NONE
            else first.answer == NotOwner && first.state.owner == SERIAL)
      else
        first.answer == NoAnswer && second.answer == HttpBusy && second.state == s
  {
    hide Parse, Bypasses, IsExactly;
    BypassIff(cmd, name);
  }

  /** Two spellings that the session check does not let through, although they are parsed as AT+FORCERESET. */
  lemma LowerCaseIsChecked()
    ensures !Bypasses("AT+forcereset") && IsAction("AT+forcereset", "FORCERESET")
  {
    LowerCaseParses();
    hide Parse, Bypasses;
    assert "AT+forcereset"[3] == 'f' && "FORCERESET"[0] == 'F';
    BypassIff("AT+forcereset", "FORCERESET");
  }

  lemma LowerCaseParses()
    ensures IsAction("AT+forcereset", "FORCERESET")
  {
    hide Parse, Find;
    var cmd, name := "AT+forcereset", "forcereset";
    TrimKeeps(cmd);
    assert cmd == "AT+" + name + "";
    assert UpperAll(name) == "FORCERESET";
    hide Trim, UpperAll;
    ParseParts(cmd, name, "");
  }

  lemma TrailingBlankIsChecked()
    ensures !Bypasses("AT+FORCERESET ") && IsAction("AT+FORCERESET ", "FORCERESET")
  {
    TrailingBlankParses();
    hide Parse, Bypasses;
    assert |"AT+FORCERESET "| == 14 && "AT+FORCERESET "[13] == ' ';
    BypassIff("AT+FORCERESET ", "FORCERESET");
  }

  lemma TrailingBlankParses()
    ensures IsAction("AT+FORCERESET ", "FORCERESET")
  {
    hide Parse, Find, UpperAll;
    var cmd, name := "AT+FORCERESET ", "FORCERESET";
    assert cmd[..13] == "AT+FORCERESET";
    TrimKeeps("AT+FORCERESET");
    assert Trim(cmd) == "AT+" + name + "";
    ResetNames(name);
    hide Trim;
    ParseParts(cmd, name, "");
  }

  lemma StepKeeps(s: State, h: Handler, a: Action)
    requires Inv(s) && !Overrides(s, a)
    ensures Inv(Next(s, h, a).state)
  {
    hide Bypasses, Parse;
    if s.http.HttpHandle? && !s.http.checked {
      BypassIsReset(s.http.cmd);
    }
  }

  /** Unless it is overridden, ownership changes only in three ways: a free lock goes to the side that swaps it in, or
      its owner's own AT+RESET or AT+FORCERESET gives it back. It never passes straight from one side to the other. */
  lemma OwnerChanges(s: State, h: Handler, a: Action)
    requires Inv(s) && !Overrides(s, a) && Next(s, h, a).state.owner != s.owner
    ensures var n := Next(s, h, a).state;
      match (s.owner, n.owner)
      case (NONE, HTTP) => a.HttpStep? && s.http.HttpAcquire? && HttpRelies(n)
      case (NONE, SERIAL) => a.SerialStep? && s.serial.SerialAcquire? && SerialRelies(n)
      case (HTTP, NONE) =>
        a.HttpStep? && (s.http.HttpRelease? || (s.http.HttpHandle? && IsAction(s.http.cmd, "FORCERESET")))
      case (SERIAL, NONE) =>
        a.SerialStep? && (s.serial.SerialRelease? || (s.serial.SerialHandle? && IsAction(s.serial.line, "FORCERESET")))
      case _ => false
  {
    hide Bypasses, Parse;
    if s.http.HttpHandle? && !s.http.checked {
      BypassIsReset(s.http.cmd);
    }
  }
}
