/** All interleavings of the two threads: mutual exclusion and justified refusals. */
module LockRuns {
  import opened AtText
  import opened SessionLock
  import Upload

  function Initial(world: Upload.World): State {
    State(NONE, HttpIdle, SerialIdle, true, world)
  }

  /** The state before step `k` of a run. */
  function StateAt(s: State, h: Handler, steps: seq<Action>, k: nat): State
    requires k <= |steps|
  {
    if k == 0 then s else Next(StateAt(s, h, steps, k - 1), h, steps[k - 1]).state
  }

  /** What step `k` answers. */
  function AnswerAt(s: State, h: Handler, steps: seq<Action>, k: nat): Answer
    requires k < |steps|
  {
    Next(StateAt(s, h, steps, k), h, steps[k]).answer
  }

  /** None of the first `k` steps takes the lock away from its owner. */
  predicate Calm(s: State, h: Handler, steps: seq<Action>, k: nat)
    requires k <= |steps|
  {
    forall i :: 0 <= i < k ==> !Overrides(StateAt(s, h, steps, i), steps[i])
  }

  // ------------------------------------------------------------------ mutual exclusion

  lemma {:induction false} InvAt(s: State, h: Handler, steps: seq<Action>, k: nat)
    requires Inv(s) && k <= |steps| && Calm(s, h, steps, k)
    ensures Inv(StateAt(s, h, steps, k))
  {
    hide Inv, Overrides, Next;
    if k > 0 {
      InvAt(s, h, steps, k - 1);
      StepKeeps(StateAt(s, h, steps, k - 1), h, steps[k - 1]);
    }
  }

  /** Whoever is inside a handler for a checked command owns the lock, so never are both sides. */
  lemma MutualExclusion(world: Upload.World, h: Handler, steps: seq<Action>, k: nat)
    requires k <= |steps| && Calm(Initial(world), h, steps, k)
    ensures var t := StateAt(Initial(world), h, steps, k);
      && (HttpRelies(t) ==> t.owner == HTTP)
      && (SerialRelies(t) ==> t.owner == SERIAL)
      && !(HttpRelies(t) && SerialRelies(t))
  {
    InvAt(Initial(world), h, steps, k);
  }

  /** The step in which a side's own AT+RESET or AT+FORCERESET gives the lock back. */
  predicate Releases(s: State, a: Action, side: Owner) {
    match side
    case HTTP => a.HttpStep? && (s.http.HttpRelease? || (s.http.HttpHandle? && IsAction(s.http.cmd, "FORCERESET")))
    case SERIAL =>
      a.SerialStep? && (s.serial.SerialRelease? || (s.serial.SerialHandle? && IsAction(s.serial.line, "FORCERESET")))
    case NONE => false
  }

  /** Once a side owns the lock it keeps it, whatever the other side sends, AT+RESET included, until its own AT+RESET or
      AT+FORCERESET acts. */
  lemma {:induction false} OwnershipLasts(s: State, h: Handler, steps: seq<Action>, i: nat, j: nat)
    requires Inv(s) && i <= j <= |steps| && Calm(s, h, steps, j)
    requires var side := StateAt(s, h, steps, i).owner;
      side != NONE && forall k :: i <= k < j ==> !Releases(StateAt(s, h, steps, k), steps[k], side)
    ensures StateAt(s, h, steps, j).owner == StateAt(s, h, steps, i).owner
    decreases j
  {
    hide Inv, Overrides, Next;
    if i < j {
      OwnershipLasts(s, h, steps, i, j - 1);
      InvAt(s, h, steps, j - 1);
      var p := StateAt(s, h, steps, j - 1);
      if Next(p, h, steps[j - 1]).state.owner != p.owner {
        OwnerChanges(p, h, steps[j - 1]);
      }
    }
  }

  // ------------------------------------------------------------------ refusals are justified

  predicate Checking(pc: HttpPc, cmd: string) {
    pc == HttpCheck(cmd) || pc == HttpAcquire(cmd) || pc == HttpReadOwner(cmd)
  }

  /** SERIAL held the lock at some instant of the check of `cmd` that is still going on before step `k`. */
  predicate SerialHeldDuringCheck(s: State, h: Handler, steps: seq<Action>, k: nat, cmd: string)
    requires k <= |steps|
  {
    exists j :: 0 <= j <= k && StateAt(s, h, steps, j).owner == SERIAL
      && forall m :: j <= m <= k ==> Checking(StateAt(s, h, steps, m).http, cmd)
  }

  /** How one step bears on the HTTP side's check. */
  lemma CheckStep(p: State, h: Handler, a: Action)
    requires Inv(p) && !Overrides(p, a)
    ensures var r := Next(p, h, a);
      && ((p.http.HttpAcquire? ==> p.owner != HTTP) && r.state.http.HttpAcquire? ==> r.state.owner != HTTP)
      && (r.state.http.HttpReadOwner? && r.state.owner != HTTP ==>
          (p.http == r.state.http && p.owner != HTTP) || r.state.owner == SERIAL)
  {
    hide Bypasses, Parse;
    if p.http.HttpHandle? && !p.http.checked {
      BypassIsReset(p.http.cmd);
    }
  }

  lemma {:induction false} CheckHistory(s: State, h: Handler, steps: seq<Action>, k: nat)
    requires Inv(s) && s.http.HttpIdle? && k <= |steps| && Calm(s, h, steps, k)
    ensures var t := StateAt(s, h, steps, k);
      && (t.http.HttpAcquire? ==> t.owner != HTTP)
      && (t.http.HttpReadOwner? ==> t.owner == HTTP || SerialHeldDuringCheck(s, h, steps, k, t.http.cmd))
  {
    hide Next, Inv, Overrides, SerialHeldDuringCheck;
    if k > 0 {
      var p, t := StateAt(s, h, steps, k - 1), StateAt(s, h, steps, k);
      CheckHistory(s, h, steps, k - 1);
      InvAt(s, h, steps, k - 1);
      CheckStep(p, h, steps[k - 1]);
      if t.http.HttpReadOwner? && t.owner != HTTP {
        if p.http == t.http && p.owner != HTTP {
          LongerCheck(s, h, steps, k, t.http.cmd);
        } else {
          HeldNow(s, h, steps, k, t.http.cmd);
        }
      }
    }
  }

  lemma HeldNow(s: State, h: Handler, steps: seq<Action>, k: nat, cmd: string)
    requires k <= |steps| && StateAt(s, h, steps, k).owner == SERIAL && Checking(StateAt(s, h, steps, k).http, cmd)
    ensures SerialHeldDuringCheck(s, h, steps, k, cmd)
  {
    hide StateAt;
    forall m | k <= m <= k ensures Checking(StateAt(s, h, steps, m).http, cmd) {
      assert m == k;
    }
  }

  lemma LongerCheck(s: State, h: Handler, steps: seq<Action>, k: nat, cmd: string)
    requires 0 < k <= |steps| && SerialHeldDuringCheck(s, h, steps, k - 1, cmd)
    requires Checking(StateAt(s, h, steps, k).http, cmd)
    ensures SerialHeldDuringCheck(s, h, steps, k, cmd)
  {
    hide StateAt;
    var j :| 0 <= j <= k - 1 && StateAt(s, h, steps, j).owner == SERIAL
      && forall m :: j <= m <= k - 1 ==> Checking(StateAt(s, h, steps, m).http, cmd);
    assert forall m :: j <= m <= k ==> m == k || Checking(StateAt(s, h, steps, m).http, cmd);
  }

  /** A 503 is sent only if SERIAL held the lock at some instant of that request's check. */
  lemma HttpBusyJustified(world: Upload.World, h: Handler, steps: seq<Action>, k: nat)
    requires k < |steps| && Calm(Initial(world), h, steps, k) && AnswerAt(Initial(world), h, steps, k) == HttpBusy
    ensures var pc := StateAt(Initial(world), h, steps, k).http;
      (pc.HttpAcquire? || pc.HttpReadOwner?) && SerialHeldDuringCheck(Initial(world), h, steps, k, pc.cmd)
  {
    hide Next, Overrides, SerialHeldDuringCheck;
    var s := Initial(world);
    var t := StateAt(s, h, steps, k);
    CheckHistory(s, h, steps, k);
    InvAt(s, h, steps, k);
    UnchangedByRefusal(t, h, steps[k]);
    if t.http.HttpAcquire? {
      HeldNow(s, h, steps, k, t.http.cmd);
    }
  }

  /** An override never answers "busy". */
  lemma UnchangedByRefusal(p: State, h: Handler, a: Action)
    ensures var r := Next(p, h, a);
      && (r.answer == HttpBusy ==>
          (p.http.HttpAcquire? && p.owner != NONE) || (p.http.HttpReadOwner? && p.owner != HTTP))
      && (r.answer == SerialBusy ==> p.serial.SerialReadOwner? && p.owner != SERIAL)
  {
    hide Bypasses, Parse;
  }

  /** Step `j` was the failed compare-and-swap of the attempt that is still going on before step `k`. */
  predicate FailedSwap(s: State, h: Handler, steps: seq<Action>, j: nat, k: nat, line: string)
    requires k <= |steps|
  {
    j < k && steps[j].SerialStep? && StateAt(s, h, steps, j).serial == SerialAcquire(line)
    && forall m :: j < m <= k ==> StateAt(s, h, steps, m).serial == SerialReadOwner(line)
  }

  predicate HttpHeldAtSwap(s: State, h: Handler, steps: seq<Action>, k: nat, line: string)
    requires k <= |steps|
  {
    exists j :: 0 <= j < k && StateAt(s, h, steps, j).owner == HTTP && FailedSwap(s, h, steps, j, k, line)
  }

  /** How one step bears on the serial side's attempt. */
  lemma SwapStep(p: State, h: Handler, a: Action)
    requires Inv(p) && !Overrides(p, a)
    ensures var t := Next(p, h, a).state;
      t.serial.SerialReadOwner? && t.owner != SERIAL ==>
        || (p.serial == t.serial && p.owner != SERIAL)
        || (a.SerialStep? && p.serial == SerialAcquire(t.serial.line) && p.owner == HTTP)
  {
    hide Bypasses, Parse;
    if p.http.HttpHandle? && !p.http.checked {
      BypassIsReset(p.http.cmd);
    }
  }

  lemma {:induction false} SwapHistory(s: State, h: Handler, steps: seq<Action>, k: nat)
    requires Inv(s) && s.serial.SerialIdle? && k <= |steps| && Calm(s, h, steps, k)
    ensures var t := StateAt(s, h, steps, k);
      t.serial.SerialReadOwner? ==> t.owner == SERIAL || HttpHeldAtSwap(s, h, steps, k, t.serial.line)
  {
    hide Next, Inv, Overrides, FailedSwap;
    if k > 0 {
      var p, t := StateAt(s, h, steps, k - 1), StateAt(s, h, steps, k);
      SwapHistory(s, h, steps, k - 1);
      InvAt(s, h, steps, k - 1);
      SwapStep(p, h, steps[k - 1]);
      if t.serial.SerialReadOwner? && t.owner != SERIAL {
        if p.serial == t.serial && p.owner != SERIAL {
          LongerSwap(s, h, steps, k, t.serial.line);
        } else {
          FreshSwap(s, h, steps, k, t.serial.line);
        }
      }
    }
  }

  lemma LongerSwap(s: State, h: Handler, steps: seq<Action>, k: nat, line: string)
    requires 0 < k <= |steps| && HttpHeldAtSwap(s, h, steps, k - 1, line)
    requires StateAt(s, h, steps, k).serial == SerialReadOwner(line)
    ensures HttpHeldAtSwap(s, h, steps, k, line)
  {
    hide StateAt;
    var j :| 0 <= j < k - 1 && StateAt(s, h, steps, j).owner == HTTP && FailedSwap(s, h, steps, j, k - 1, line);
    assert FailedSwap(s, h, steps, j, k, line);
  }

  lemma FreshSwap(s: State, h: Handler, steps: seq<Action>, k: nat, line: string)
    requires 0 < k <= |steps| && steps[k - 1].SerialStep?
    requires StateAt(s, h, steps, k - 1).serial == SerialAcquire(line)
    requires StateAt(s, h, steps, k).serial == SerialReadOwner(line)
    ensures FailedSwap(s, h, steps, k - 1, k, line)
  {
    hide StateAt;
    forall m | k - 1 < m <= k ensures StateAt(s, h, steps, m).serial == SerialReadOwner(line) {
      assert m == k;
    }
  }

  /** A serial "BUSY" is sent only if HTTP held the lock at the failed compare-and-swap. */
  lemma SerialBusyJustified(world: Upload.World, h: Handler, steps: seq<Action>, k: nat)
    requires k < |steps| && Calm(Initial(world), h, steps, k) && AnswerAt(Initial(world), h, steps, k) == SerialBusy
    ensures var pc := StateAt(Initial(world), h, steps, k).serial;
      pc.SerialReadOwner? && HttpHeldAtSwap(Initial(world), h, steps, k, pc.line)
  {
    hide Next, Overrides, HttpHeldAtSwap;
    SwapHistory(Initial(world), h, steps, k);
    UnchangedByRefusal(StateAt(Initial(world), h, steps, k), h, steps[k]);
  }

  // ------------------------------------------------------------------ refusals while the other side is outside

  /** A 503 is sent while SERIAL does not hold the lock exactly if the owner was read a second time and SERIAL had given
      the lock back by then. */
  lemma HttpBusyWithoutSerialIff(world: Upload.World, h: Handler, steps: seq<Action>, k: nat)
    requires k < |steps| && Calm(Initial(world), h, steps, k) && AnswerAt(Initial(world), h, steps, k) == HttpBusy
    ensures var t := StateAt(Initial(world), h, steps, k);
      t.owner != SERIAL <==> t.http.HttpReadOwner? && t.owner == NONE
  {
    hide Next, Overrides, SerialHeldDuringCheck;
    var t := StateAt(Initial(world), h, steps, k);
    CheckHistory(Initial(world), h, steps, k);
    UnchangedByRefusal(t, h, steps[k]);
  }

  /** "BUSY" is sent while HTTP does not hold the lock exactly if HTTP has given it back since the failed swap. */
  lemma SerialBusyWithoutHttpIff(world: Upload.World, h: Handler, steps: seq<Action>, k: nat)
    requires k < |steps| && Calm(Initial(world), h, steps, k) && AnswerAt(Initial(world), h, steps, k) == SerialBusy
    ensures var t := StateAt(Initial(world), h, steps, k);
      && (t.owner != HTTP <==> t.owner == NONE)
      && t.serial.SerialReadOwner? && HttpHeldAtSwap(Initial(world), h, steps, k, t.serial.line)
  {
    hide Next, Overrides, HttpHeldAtSwap;
    SerialBusyJustified(world, h, steps, k);
    UnchangedByRefusal(StateAt(Initial(world), h, steps, k), h, steps[k]);
  }

  /** SERIAL ends its session between the two reads of the HTTP check. */
  function LateCheck(out: Upload.Outcome): (steps: seq<Action>)
    ensures |steps| == 7 && steps[0] == SerialLine("AT+RESET") && steps[3] == Request("AT+STATUS")
    ensures steps[1] == steps[2] == steps[5] == SerialStep(out) && steps[4] == steps[6] == HttpStep(out)
  {
    [SerialLine("AT+RESET"), SerialStep(out), SerialStep(out), Request("AT+STATUS"), HttpStep(out), SerialStep(out),
     HttpStep(out)]
  }

  /** Such a 503: the lock is free when it is sent. */
  lemma HttpBusyOnFreeLock(world: Upload.World, h: Handler, out: Upload.Outcome)
    ensures var i, steps := Initial(world), LateCheck(out);
      && Calm(i, h, steps, 7)
      && StateAt(i, h, steps, 6) == State(NONE, HttpReadOwner("AT+STATUS"), SerialIdle, true, world)
      && AnswerAt(i, h, steps, 6) == HttpBusy
  {
    hide IsAction, Bypasses, LateCheck;
    StatusIsChecked();
    ResetParses();
    var i, steps := Initial(world), LateCheck(out);
    assert StateAt(i, h, steps, 0) == i;
    assert StateAt(i, h, steps, 1) == i.(serial := SerialAcquire("AT+RESET"));
    assert StateAt(i, h, steps, 2) == State(SERIAL, HttpIdle, SerialHandle("AT+RESET"), true, world);
    assert StateAt(i, h, steps, 3) == State(SERIAL, HttpIdle, SerialRelease, true, world);
    assert StateAt(i, h, steps, 4) == State(SERIAL, HttpCheck("AT+STATUS"), SerialRelease, true, world);
    assert StateAt(i, h, steps, 5) == State(SERIAL, HttpReadOwner("AT+STATUS"), SerialRelease, true, world);
    assert StateAt(i, h, steps, 6) == State(NONE, HttpReadOwner("AT+STATUS"), SerialIdle, true, world);
    NoUncheckedHandle(i, h, steps, 7);
  }

  /** A run is calm if its HTTP requests go through the check and nobody else takes the lock away. */
  lemma NoUncheckedHandle(s: State, h: Handler, steps: seq<Action>, k: nat)
    requires k <= |steps| && forall i :: 0 <= i < k ==> !steps[i].ApiReset? && !steps[i].Shutdown?
    requires forall i :: 0 <= i < k ==>
               !StateAt(s, h, steps, i).http.HttpHandle? || StateAt(s, h, steps, i).http.checked
    ensures Calm(s, h, steps, k)
  {
    hide StateAt, IsAction;
  }

  lemma ResetParses()
    ensures IsAction("AT+RESET", "RESET")
  {
    hide Parse, UpperAll, IsTrimmed;
    ResetNames("RESET");
    assert "AT+RESET"[3..] == "RESET";
    ParseAtEquals("AT+RESET", "RESET");
  }

  /** HTTP gives the lock back between the failed swap and the second read of the serial side. */
  function LateSwap(out: Upload.Outcome): (steps: seq<Action>)
    ensures |steps| == 7 && steps[0] == Request("AT+forcereset") && steps[3] == SerialLine("AT+STATUS")
    ensures steps[1] == steps[2] == steps[5] == HttpStep(out) && steps[4] == steps[6] == SerialStep(out)
  {
    [Request("AT+forcereset"), HttpStep(out), HttpStep(out), SerialLine("AT+STATUS"), SerialStep(out), HttpStep(out),
     SerialStep(out)]
  }

  lemma SerialBusyOnFreeLock(world: Upload.World, h: Handler, out: Upload.Outcome)
    ensures var i, steps := Initial(world), LateSwap(out);
      && Calm(i, h, steps, 7)
      && StateAt(i, h, steps, 6) == State(NONE, HttpIdle, SerialReadOwner("AT+STATUS"), true, world)
      && AnswerAt(i, h, steps, 6) == SerialBusy
  {
    hide Parse, Bypasses, LateSwap;
    LowerCaseIsChecked();
    var i, steps, cmd, line := Initial(world), LateSwap(out), "AT+forcereset", "AT+STATUS";
    assert StateAt(i, h, steps, 0) == i;
    assert StateAt(i, h, steps, 1) == State(NONE, HttpCheck(cmd), SerialIdle, true, world);
    assert StateAt(i, h, steps, 2) == State(NONE, HttpAcquire(cmd), SerialIdle, true, world);
    assert StateAt(i, h, steps, 3) == State(HTTP, HttpHandle(cmd, true), SerialIdle, true, world);
    assert StateAt(i, h, steps, 4) == State(HTTP, HttpHandle(cmd, true), SerialAcquire(line), true, world);
    assert StateAt(i, h, steps, 5) == State(HTTP, HttpHandle(cmd, true), SerialReadOwner(line), true, world);
    assert StateAt(i, h, steps, 6) == State(NONE, HttpIdle, SerialReadOwner(line), true, world);
    NoUncheckedHandle(i, h, steps, 7);
  }

  lemma StatusIsChecked()
    ensures !Bypasses("AT+STATUS")
  {
    hide Find;
    var cmd := "AT+STATUS";
    NotFound(cmd, '=', 3);
    assert cmd[3..][0] == 'S';
  }

  lemma ForceResetParses()
    ensures Bypasses("AT+FORCERESET") && IsAction("AT+FORCERESET", "FORCERESET") && !IsAction("AT+FORCERESET", "RESET")
  {
    hide Find, Parse, UpperAll, IsTrimmed;
    var cmd := "AT+FORCERESET";
    NotFound(cmd, '=', 3);
    ResetNames("FORCERESET");
    assert cmd == "AT+" + "FORCERESET";
    assert cmd[3..] == "FORCERESET";
    ParseAtEquals(cmd, "FORCERESET");
  }
}
