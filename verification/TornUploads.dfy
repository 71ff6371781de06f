/** What a harmful override does to an upload: a handle that is closed twice. */
module TornUploads {
  import opened AtText
  import opened Common
  import opened SessionLock
  import opened LockRuns
  import opened LockOverrides
  import opened LockedUploads
  import Delivery
  import Upload
  import UploadSteps

  // ------------------------------------------------------------------ from every state

  /** The serial side is in AT+UPLOADDONE and has not yet called `fclose`. */
  predicate InDone(pc: SerialPc) {
    match pc
    case SerialHandle(line) => IsAction(line, "UPLOADDONE")
    case SerialWork(local) =>
      (match local
       case Start(c) => IsAction(c.raw, "UPLOADDONE")
       case DoneActive(_) => true
       case DoneFile(_) => true
       case DoneClose(_) => true
       case _ => false)
    case _ => false
  }

  /** The steps that it still has in front of that call. */
  function ToClose(pc: SerialPc): nat
    requires InDone(pc)
  {
    match pc
    case SerialHandle(_) => 4
    case SerialWork(local) =>
      (match local
       case Start(_) => 3
       case DoneActive(_) => 2
       case DoneFile(_) => 1
       case _ => 0)
  }

  predicate OpenUpload(w: Upload.World) {
    w.up.active && w.up.file
  }

  /** A run without a further override closes the handle twice and opens none. */
  predicate TwiceAfter(s: State, h: Handler, steps: seq<Action>) {
    Calm(s, h, steps, |steps|)
    && var w := StateAt(s, h, steps, |steps|).world;
       w.fcloses == s.world.fcloses + 2 && w.fopens == s.world.fopens
  }

  ghost predicate CanCloseTwice(s: State, h: Handler) {
    exists steps: seq<Action> :: TwiceAfter(s, h, steps)
  }

  lemma {:induction false} StateAtPrepended(s: State, h: Handler, a: Action, steps: seq<Action>, k: nat)
    requires k <= |steps|
    ensures StateAt(s, h, [a] + steps, k + 1) == StateAt(Next(s, h, a).state, h, steps, k)
  {
    hide Next;
    if k == 0 {
      assert StateAt(s, h, [a] + steps, 0) == s;
    } else {
      StateAtPrepended(s, h, a, steps, k - 1);
    }
  }

  /** A step that leaves the upload alone may come first. */
  lemma Prepend(s: State, h: Handler, a: Action)
    requires !Overrides(s, a) && Next(s, h, a).state.world == s.world && CanCloseTwice(Next(s, h, a).state, h)
    ensures CanCloseTwice(s, h)
  {
    hide Next, Overrides, StateAt;
    var n := Next(s, h, a).state;
    var steps :| TwiceAfter(n, h, steps);
    var all := [a] + steps;
    forall k | 0 <= k < |all| ensures !Overrides(StateAt(s, h, all, k), all[k]) {
      if k == 0 {
        StateAtStart(s, h, all);
      } else {
        StateAtPrepended(s, h, a, steps, k - 1);
      }
    }
    StateAtPrepended(s, h, a, steps, |steps|);
    assert TwiceAfter(s, h, all);
  }

  lemma StateAtStart(s: State, h: Handler, steps: seq<Action>)
    ensures StateAt(s, h, steps, 0) == s
  {
  }

  /** Both sides stand in front of `fclose`. */
  lemma BothClose(s: State, h: Handler, dir: string, other: string -> Byte)
    requires h == Handlers(dir, other) && s.http.HttpWork? && s.http.local.DoneClose?
    requires s.serial.SerialWork? && s.serial.local.DoneClose?
    ensures CanCloseTwice(s, h)
  {
    hide Upload.FlushFile, StateAt, Handlers;
    var out := s.http.local.out;
    var steps := [HttpStep(out), SerialStep(out)];
    StateAtStart(s, h, steps);
    NextAt(s, h, steps, 0);
    NextAt(s, h, steps, 1);
    CloseStep(s.world, out, dir, other);
    CloseStep(UploadSteps.Fclose(s.world, out), s.serial.local.out, dir, other);
    assert forall k :: 0 <= k < 2 ==> k == 0 || steps[k].SerialStep?;
    assert TwiceAfter(s, h, steps);
  }

  /** HTTP finds the lock free and the handle open, and comes as far. */
  lemma HttpComesToo(s: State, h: Handler, out: Upload.Outcome, dir: string, other: string -> Byte)
    requires h == Handlers(dir, other) && OpenUpload(s.world) && s.owner == NONE && s.http == HttpIdle
    requires s.serial.SerialWork? && s.serial.local.DoneClose?
    ensures CanCloseTwice(s, h)
  {
    hide IsAction, Bypasses, Handlers, CanCloseTwice;
    DoneIsNoBypass();
    DoneIsNoReset();
    var cmd, step := "AT+UPLOADDONE", HttpStep(out);
    var c := Upload.Call(cmd, out);
    UpToClose(s.world, c, dir, other);
    var s1 := s.(http := HttpCheck(cmd));
    var s2 := s.(http := HttpAcquire(cmd));
    var s3 := s.(owner := HTTP, http := HttpHandle(cmd, true));
    var s4 := s3.(http := HttpWork(UploadSteps.Start(c), true));
    var s5 := s3.(http := HttpWork(UploadSteps.DoneActive(out), true));
    var s6 := s3.(http := HttpWork(UploadSteps.DoneFile(out), true));
    var s7 := s3.(http := HttpWork(UploadSteps.DoneClose(out), true));
    BothClose(s7, h, dir, other);
    Prepend(s6, h, step);
    Prepend(s5, h, step);
    Prepend(s4, h, step);
    Prepend(s3, h, step);
    Prepend(s2, h, step);
    Prepend(s1, h, step);
    Prepend(s, h, Request(cmd));
  }

  /** One step of the serial side towards `fclose`. */
  lemma SerialStepsOn(s: State, h: Handler, out: Upload.Outcome, dir: string, other: string -> Byte)
    requires h == Handlers(dir, other) && OpenUpload(s.world) && InDone(s.serial) && ToClose(s.serial) > 0
    ensures var n := Next(s, h, SerialStep(out)).state;
      n == s.(serial := n.serial) && InDone(n.serial) && ToClose(n.serial) == ToClose(s.serial) - 1
  {
    hide Parse;
  }

  lemma {:induction false} SerialComesToClose(s: State, h: Handler, out: Upload.Outcome, dir: string,
                                              other: string -> Byte)
    requires h == Handlers(dir, other) && OpenUpload(s.world) && s.owner == NONE && s.http == HttpIdle
    requires InDone(s.serial)
    ensures CanCloseTwice(s, h)
    decreases ToClose(s.serial)
  {
    if ToClose(s.serial) == 0 {
      HttpComesToo(s, h, out, dir, other);
    } else {
      SerialStepsOn(s, h, out, dir, other);
      hide Next, InDone, ToClose, CanCloseTwice;
      SerialComesToClose(Next(s, h, SerialStep(out)).state, h, out, dir, other);
      Prepend(s, h, SerialStep(out));
    }
  }

  /** From every safe state in which the serial side is about to close an open upload, a harmful override leads, without
      a further one, to a run in which both sides close the one handle. */
  lemma HarmfulClosesTwice(s: State, h: Handler, a: Action, out: Upload.Outcome, dir: string, other: string -> Byte)
    requires h == Handlers(dir, other) && Safe(s) && Harmful(s, a)
    requires InDone(s.serial) && OpenUpload(s.world)
    ensures Next(s, h, a).state.world == s.world && CanCloseTwice(Next(s, h, a).state, h)
  {
    hide Safe, Harmful, Next, InDone, CanCloseTwice;
    OverrideFrees(s, h, a);
    SerialComesToClose(Next(s, h, a).state, h, out, dir, other);
  }

  // ------------------------------------------------------------------ from the start

  /** The serial side is stopped in front of its `fclose`, the lock is taken away, and HTTP ends the same upload. */
  function TornEnd(out: Upload.Outcome): (steps: seq<Action>)
    ensures |steps| == 17 && steps[0] == SerialLine("AT+UPLOADDONE")
    ensures steps[1] == steps[2] == steps[3] == steps[4] == steps[5] == steps[16] == SerialStep(out)
    ensures steps[6] == Request("AT+FORCERESET") && steps[8] == Request("AT+UPLOADDONE")
    ensures steps[7] == steps[9] == steps[10] == steps[11] == steps[12] == steps[13] == steps[14] == steps[15]
            == HttpStep(out)
  {
    var h, s := HttpStep(out), SerialStep(out);
    [SerialLine("AT+UPLOADDONE"), s, s, s, s, s, Request("AT+FORCERESET"), h, Request("AT+UPLOADDONE"), h, h, h, h, h,
     h, h, s]
  }

  lemma DoneIsNoBypass()
    ensures !Bypasses("AT+UPLOADDONE")
  {
    hide Find;
    var cmd := "AT+UPLOADDONE";
    NotFound(cmd, '=', 3);
    assert cmd[3..][0] == 'U';
  }

  lemma DoneIsNoReset()
    ensures !IsAction("AT+UPLOADDONE", "RESET") && !IsAction("AT+UPLOADDONE", "FORCERESET")
  {
    hide Parse;
    Delivery.DoneParses();
  }

  /** The first steps of UPLOADDONE on an upload with an open handle. */
  lemma UpToClose(w: Upload.World, c: Upload.Call, dir: string, other: string -> Byte)
    requires c.raw == "AT+UPLOADDONE" && w.up.active && w.up.file
    ensures var h := Handlers(dir, other);
      && h(w, UploadSteps.Start(c)) == UploadSteps.Moved(w, UploadSteps.DoneActive(c.out))
      && h(w, UploadSteps.DoneActive(c.out)) == UploadSteps.Moved(w, UploadSteps.DoneFile(c.out))
      && h(w, UploadSteps.DoneFile(c.out)) == UploadSteps.Moved(w, UploadSteps.DoneClose(c.out))
  {
    hide Parse;
    Delivery.DoneParses();
  }

  lemma CloseStep(w: Upload.World, out: Upload.Outcome, dir: string, other: string -> Byte)
    ensures Handlers(dir, other)(w, UploadSteps.DoneClose(out)) ==
            UploadSteps.Moved(UploadSteps.Fclose(w, out), UploadSteps.DoneClear(out))
  {
    hide UploadSteps.Fclose;
  }

  lemma NextAt(s: State, h: Handler, steps: seq<Action>, k: nat)
    requires k < |steps|
    ensures StateAt(s, h, steps, 0) == s
    ensures StateAt(s, h, steps, k + 1) == Next(StateAt(s, h, steps, k), h, steps[k]).state
  {
    hide Next;
  }

  /** The first half: serial enters its handler, */
  lemma SerialEnters(w: Upload.World, h: Handler, out: Upload.Outcome)
    ensures StateAt(Initial(w), h, TornEnd(out), 3) ==
            State(SERIAL, HttpIdle, SerialWork(UploadSteps.Start(Upload.Call("AT+UPLOADDONE", out))), true, w)
  {
    hide StateAt, IsAction, TornEnd;
    var i, steps := Initial(w), TornEnd(out);
    DoneIsNoReset();
    NextAt(i, h, steps, 0);
    NextAt(i, h, steps, 1);
    NextAt(i, h, steps, 2);
    assert StateAt(i, h, steps, 1) == State(NONE, HttpIdle, SerialAcquire("AT+UPLOADDONE"), true, w);
    assert StateAt(i, h, steps, 2) == State(SERIAL, HttpIdle, SerialHandle("AT+UPLOADDONE"), true, w);
  }

  /** and finds the handle open. */
  lemma SerialStopsBeforeClose(w: Upload.World, h: Handler, out: Upload.Outcome, dir: string, other: string -> Byte)
    requires h == Handlers(dir, other) && w.up.active && w.up.file
    ensures StateAt(Initial(w), h, TornEnd(out), 6) ==
            State(SERIAL, HttpIdle, SerialWork(UploadSteps.DoneClose(out)), true, w)
  {
    hide StateAt, IsAction, Handlers, TornEnd;
    var i, steps := Initial(w), TornEnd(out);
    UpToClose(w, Upload.Call("AT+UPLOADDONE", out), dir, other);
    SerialEnters(w, h, out);
    NextAt(i, h, steps, 3);
    NextAt(i, h, steps, 4);
    NextAt(i, h, steps, 5);
    assert StateAt(i, h, steps, 4) == State(SERIAL, HttpIdle, SerialWork(UploadSteps.DoneActive(out)), true, w);
    assert StateAt(i, h, steps, 5) == State(SERIAL, HttpIdle, SerialWork(UploadSteps.DoneFile(out)), true, w);
  }

  /** Then the lock is taken away and HTTP swaps it in. */
  lemma LockIsTaken(w: Upload.World, h: Handler, out: Upload.Outcome, dir: string, other: string -> Byte)
    requires h == Handlers(dir, other) && w.up.active && w.up.file
    ensures StateAt(Initial(w), h, TornEnd(out), 11) ==
            State(HTTP, HttpHandle("AT+UPLOADDONE", true), SerialWork(UploadSteps.DoneClose(out)), true, w)
  {
    hide StateAt, IsAction, Handlers, Bypasses, TornEnd;
    var i, steps := Initial(w), TornEnd(out);
    var serial := SerialWork(UploadSteps.DoneClose(out));
    DoneIsNoBypass();
    ForceResetParses();
    SerialStopsBeforeClose(w, h, out, dir, other);
    NextAt(i, h, steps, 6);
    NextAt(i, h, steps, 7);
    assert StateAt(i, h, steps, 8) == State(NONE, HttpIdle, serial, true, w);
    NextAt(i, h, steps, 8);
    NextAt(i, h, steps, 9);
    NextAt(i, h, steps, 10);
  }

  /** And comes as far. */
  lemma HttpStopsBeforeClose(w: Upload.World, h: Handler, out: Upload.Outcome, dir: string, other: string -> Byte)
    requires h == Handlers(dir, other) && w.up.active && w.up.file
    ensures StateAt(Initial(w), h, TornEnd(out), 15) ==
            State(HTTP, HttpWork(UploadSteps.DoneClose(out), true), SerialWork(UploadSteps.DoneClose(out)), true, w)
  {
    hide StateAt, IsAction, Handlers, TornEnd;
    var i, steps, c := Initial(w), TornEnd(out), Upload.Call("AT+UPLOADDONE", out);
    DoneIsNoReset();
    UpToClose(w, c, dir, other);
    LockIsTaken(w, h, out, dir, other);
    NextAt(i, h, steps, 11);
    NextAt(i, h, steps, 12);
    NextAt(i, h, steps, 13);
    NextAt(i, h, steps, 14);
    var serial := SerialWork(UploadSteps.DoneClose(out));
    assert StateAt(i, h, steps, 12) == State(HTTP, HttpWork(UploadSteps.Start(c), true), serial, true, w);
    assert StateAt(i, h, steps, 13) == State(HTTP, HttpWork(UploadSteps.DoneActive(out), true), serial, true, w);
    assert StateAt(i, h, steps, 14) == State(HTTP, HttpWork(UploadSteps.DoneFile(out), true), serial, true, w);
  }

  /** So with an override the invariant fails: from any upload with an open handle there is a run in which both sides
      close that one handle. */
  lemma OverrideClosesTwice(w: Upload.World, h: Handler, out: Upload.Outcome, dir: string, other: string -> Byte)
    requires h == Handlers(dir, other) && w.up.active && w.up.file
    ensures var t := StateAt(Initial(w), h, TornEnd(out), 17);
      t.world.fopens == w.fopens && t.world.fcloses == w.fcloses + 2
  {
    hide StateAt, Handlers, Upload.FlushFile, TornEnd;
    var i, steps, once := Initial(w), TornEnd(out), UploadSteps.Fclose(w, out);
    HttpStopsBeforeClose(w, h, out, dir, other);
    CloseStep(w, out, dir, other);
    CloseStep(once, out, dir, other);
    NextAt(i, h, steps, 15);
    NextAt(i, h, steps, 16);
  }
}
