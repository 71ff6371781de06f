/** Uploads under the lock: without a harmful override every interleaving of the handlers' steps is a run of whole
    commands, with its replies, and a period of ownership is a run of the owner's. A harmful override ends that. */
module LockedUploads {
  import opened Common
  import opened AtText
  import opened SessionLock
  import opened LockRuns
  import opened LockOverrides
  import Upload
  import UploadSteps
  import UploadFiles
  import UploadRuns
  import Delivery

  /** The steps of the upload handlers, for an upload directory and for what `sscanf` leaves on other texts. */
  function Handlers(dir: string, other: string -> Byte): Handler {
    (w: Upload.World, l: UploadSteps.Local) => UploadSteps.Advance(w, l, dir, other)
  }

  predicate Working(s: State) {
    s.http.HttpWork? || s.serial.SerialWork?
  }

  /** The upload once the handler that is at work has ended. */
  function Settled(s: State, dir: string, other: string -> Byte): Upload.World {
    if s.http.HttpWork? then UploadSteps.Finish(s.world, s.http.local, dir, other).world
    else if s.serial.SerialWork? then UploadSteps.Finish(s.world, s.serial.local, dir, other).world
    else s.world
  }

  /** The reply that this handler will give; none if no handler is at work. */
  function Pending(s: State, dir: string, other: string -> Byte): seq<Upload.Reply> {
    if s.http.HttpWork? then [UploadSteps.Finish(s.world, s.http.local, dir, other).reply]
    else if s.serial.SerialWork? then [UploadSteps.Finish(s.world, s.serial.local, dir, other).reply]
    else []
  }

  /** The reply of a handler that ends with this answer. */
  function ReplyIn(answer: Answer): seq<Upload.Reply> {
    if answer.Handled? then [answer.reply] else []
  }

  /** The replies that handlers give in the steps from `i` up to `j`. */
  function RepliesBetween(s: State, h: Handler, steps: seq<Action>, i: nat, j: nat): seq<Upload.Reply>
    requires i <= j <= |steps|
  {
    if i == j then [] else RepliesBetween(s, h, steps, i, j - 1) + ReplyIn(AnswerAt(s, h, steps, j - 1))
  }

  /** The command whose handler a step enters, if it is one of the given sides. */
  function CallsOfStep(s: State, a: Action, sides: set<Owner>): seq<Upload.Call> {
    match a
    case HttpStep(out) =>
      if HTTP in sides && s.http.HttpHandle? && !IsAction(s.http.cmd, "RESET") && !IsAction(s.http.cmd, "FORCERESET")
      then [Upload.Call(s.http.cmd, out)] else []
    case SerialStep(out) =>
      if SERIAL in sides && s.serial.SerialHandle? && !IsAction(s.serial.line, "RESET")
         && !IsAction(s.serial.line, "FORCERESET")
      then [Upload.Call(s.serial.line, out)] else []
    case _ => []
  }

  /** The commands whose handlers these sides enter in the steps from `i` up to `j`. */
  function CallsBetween(s: State, h: Handler, steps: seq<Action>, i: nat, j: nat, sides: set<Owner>): seq<Upload.Call>
    requires i <= j <= |steps|
  {
    if i == j then []
    else CallsBetween(s, h, steps, i, j - 1, sides) + CallsOfStep(StateAt(s, h, steps, j - 1), steps[j - 1], sides)
  }

  const BOTH := {HTTP, SERIAL}

  lemma {:induction false} RunConcat(w: Upload.World, dir: string, a: seq<Upload.Call>, b: seq<Upload.Call>,
                                     other: string -> Byte)
    ensures Upload.Run(w, dir, a + b, other) == Upload.Run(Upload.Run(w, dir, a, other), dir, b, other)
    decreases |a|
  {
    hide Upload.Process;
    if a == [] {
      assert a + b == b;
    } else {
      assert (a + b)[0] == a[0] && (a + b)[1..] == a[1..] + b;
      RunConcat(Upload.Process(w, dir, a[0], other).world, dir, a[1..], b, other);
    }
  }

  lemma RunNone(w: Upload.World, dir: string, other: string -> Byte)
    ensures Upload.Run(w, dir, [], other) == w
  {
  }

  lemma RunOne(w: Upload.World, dir: string, c: Upload.Call, other: string -> Byte)
    ensures Upload.Run(w, dir, [c], other) == Upload.Process(w, dir, c, other).world
  {
    hide Upload.Process;
    assert [c][1..] == [];
  }

  lemma {:induction false} RepliesConcat(w: Upload.World, dir: string, a: seq<Upload.Call>, b: seq<Upload.Call>,
                                         other: string -> Byte)
    ensures UploadFiles.Replies(w, dir, a + b, other)
            == UploadFiles.Replies(w, dir, a, other) + UploadFiles.Replies(Upload.Run(w, dir, a, other), dir, b, other)
    decreases |a|
  {
    hide Upload.Process;
    if a == [] {
      assert a + b == b;
    } else {
      assert (a + b)[0] == a[0] && (a + b)[1..] == a[1..] + b;
      var s := Upload.Process(w, dir, a[0], other);
      RepliesConcat(s.world, dir, a[1..], b, other);
      var x := UploadFiles.Replies(s.world, dir, a[1..], other);
      var y := UploadFiles.Replies(Upload.Run(s.world, dir, a[1..], other), dir, b, other);
      assert [s.reply] + (x + y) == ([s.reply] + x) + y;
    }
  }

  lemma RepliesOne(w: Upload.World, dir: string, c: Upload.Call, other: string -> Byte)
    ensures UploadFiles.Replies(w, dir, [], other) == []
    ensures UploadFiles.Replies(w, dir, [c], other) == [Upload.Process(w, dir, c, other).reply]
  {
    hide Upload.Process;
    assert [c][1..] == [];
  }

  // ------------------------------------------------------------------ one step

  /** At most one side is at work, and only behind the session check. */
  predicate Alone(s: State) {
    && !(HttpRelies(s) && SerialRelies(s))
    && (s.http.HttpHandle? && !s.http.checked ==> Bypasses(s.http.cmd)) && (s.http.HttpWork? ==> s.http.checked)
  }

  lemma SafeIsAlone(s: State)
    requires Safe(s)
    ensures Alone(s)
  {
  }

  /** One step takes the settled upload through the command whose handler it enters, and gives the reply of the one
      that it ends. */
  predicate Settles(s: State, a: Action, dir: string, other: string -> Byte) {
    var n, cs := Next(s, Handlers(dir, other), a), CallsOfStep(s, a, BOTH);
    && Settled(n.state, dir, other) == Upload.Run(Settled(s, dir, other), dir, cs, other)
    && ReplyIn(n.answer) + Pending(n.state, dir, other)
       == Pending(s, dir, other) + UploadFiles.Replies(Settled(s, dir, other), dir, cs, other)
  }

  /** A step in which a handler does a part of its work. */
  lemma WorkSettles(s: State, dir: string, other: string -> Byte, a: Action)
    requires Alone(s) && ((a.HttpStep? && s.http.HttpWork?) || (a.SerialStep? && s.serial.SerialWork?))
    ensures Settles(s, a, dir, other)
  {
    hide Bypasses, IsAction, UploadSteps.Advance, UploadSteps.Finish, Upload.Run, UploadFiles.Replies;
    var l := if a.HttpStep? then s.http.local else s.serial.local;
    var m := UploadSteps.Advance(s.world, l, dir, other);
    RunNone(Settled(s, dir, other), dir, other);
    RepliesOne(Settled(s, dir, other), dir, Upload.Call("", Upload.Outcome(true, 0, 0, true, true)), other);
    UploadSteps.FinishedIs(m.world, m.local, dir, other);
    if l.Finished? {
      UploadSteps.FinishedIs(s.world, l, dir, other);
      UploadSteps.AdvanceFinished(s.world, l, dir, other);
    } else {
      UploadSteps.FinishOne(s.world, l, dir, other);
    }
  }

  /** A step that enters a handler. */
  lemma EntrySettles(s: State, dir: string, other: string -> Byte, a: Action)
    requires Alone(s) && CallsOfStep(s, a, BOTH) != []
    ensures Settles(s, a, dir, other)
  {
    hide Bypasses, IsAction, UploadSteps.Advance, UploadSteps.Finish, Upload.Run, Upload.Process, UploadFiles.Replies;
    if s.http.HttpHandle? && !s.http.checked {
      BypassIsReset(s.http.cmd);
    }
    var c := CallsOfStep(s, a, BOTH)[0];
    UploadSteps.FinishIsProcess(s.world, c, dir, other);
    RunOne(s.world, dir, c, other);
    RepliesOne(s.world, dir, c, other);
  }

  /** Any other step is not about the upload. */
  lemma OtherSettles(s: State, dir: string, other: string -> Byte, a: Action)
    requires CallsOfStep(s, a, BOTH) == []
    requires !(a.HttpStep? && s.http.HttpWork?) && !(a.SerialStep? && s.serial.SerialWork?)
    ensures Settles(s, a, dir, other)
  {
    hide Bypasses, IsAction, UploadSteps.Advance, UploadSteps.Finish, Upload.Run, UploadFiles.Replies;
    RunNone(Settled(s, dir, other), dir, other);
    RepliesOne(Settled(s, dir, other), dir, Upload.Call("", Upload.Outcome(true, 0, 0, true, true)), other);
  }

  lemma StepSettles(s: State, dir: string, other: string -> Byte, a: Action)
    requires Alone(s)
    ensures Settles(s, a, dir, other)
  {
    hide Alone, Settles, CallsOfStep;
    if (a.HttpStep? && s.http.HttpWork?) || (a.SerialStep? && s.serial.SerialWork?) {
      WorkSettles(s, dir, other, a);
    } else if CallsOfStep(s, a, BOTH) != [] {
      EntrySettles(s, dir, other, a);
    } else {
      OtherSettles(s, dir, other, a);
    }
  }

  // ------------------------------------------------------------------ all runs

  /** From one state of a run to another, the upload goes through whole commands, one after the other in the order in
      which their handlers were entered, and the replies given, with the one to come, are theirs. */
  predicate IsRun(s: State, h: Handler, steps: seq<Action>, i: nat, j: nat, dir: string, other: string -> Byte)
    requires i <= j <= |steps|
  {
    var before, after := StateAt(s, h, steps, i), StateAt(s, h, steps, j);
    var w, cs := Settled(before, dir, other), CallsBetween(s, h, steps, i, j, BOTH);
    && Settled(after, dir, other) == Upload.Run(w, dir, cs, other)
    && RepliesBetween(s, h, steps, i, j) + Pending(after, dir, other)
       == Pending(before, dir, other) + UploadFiles.Replies(w, dir, cs, other)
  }

  lemma {:induction false} AloneIsRun(s: State, h: Handler, steps: seq<Action>, i: nat, j: nat, dir: string,
                                      other: string -> Byte)
    requires h == Handlers(dir, other) && i <= j <= |steps|
    requires forall k :: i <= k < j ==> Alone(StateAt(s, h, steps, k))
    ensures IsRun(s, h, steps, i, j, dir, other)
    decreases j
  {
    hide Upload.Run, Upload.Process, UploadFiles.Replies, Next, CallsOfStep, Settled, Pending, Alone;
    var w := Settled(StateAt(s, h, steps, i), dir, other);
    RunNone(w, dir, other);
    RepliesOne(w, dir, Upload.Call("", Upload.Outcome(true, 0, 0, true, true)), other);
    if i < j {
      var p, cs := StateAt(s, h, steps, j - 1), CallsBetween(s, h, steps, i, j - 1, BOTH);
      AloneIsRun(s, h, steps, i, j - 1, dir, other);
      StepSettles(p, dir, other, steps[j - 1]);
      RunConcat(w, dir, cs, CallsOfStep(p, steps[j - 1], BOTH), other);
      RepliesConcat(w, dir, cs, CallsOfStep(p, steps[j - 1], BOTH), other);
      Regroup(RepliesBetween(s, h, steps, i, j - 1), ReplyIn(AnswerAt(s, h, steps, j - 1)),
              Pending(StateAt(s, h, steps, j), dir, other), Pending(p, dir, other),
              UploadFiles.Replies(Upload.Run(w, dir, cs, other), dir, CallsOfStep(p, steps[j - 1], BOTH), other),
              Pending(StateAt(s, h, steps, i), dir, other), UploadFiles.Replies(w, dir, cs, other));
    }
  }

  lemma Regroup<T>(given: seq<T>, reply: seq<T>, after: seq<T>, before: seq<T>, last: seq<T>, start: seq<T>,
                   earlier: seq<T>)
    requires reply + after == before + last && given + before == start + earlier
    ensures (given + reply) + after == start + (earlier + last)
  {
    assert (given + reply) + after == given + (reply + after);
    assert given + (before + last) == (given + before) + last;
  }

  /** Without a harmful override, every interleaving of the handlers' steps comes to the same as whole commands. */
  lemma WorldIsRun(s: State, h: Handler, steps: seq<Action>, i: nat, j: nat, dir: string, other: string -> Byte)
    requires h == Handlers(dir, other) && i <= j <= |steps|
    requires Safe(StateAt(s, h, steps, i)) && Harmless(s, h, steps, i, j)
    ensures IsRun(s, h, steps, i, j, dir, other)
  {
    hide Safe, Alone, Harmful, IsRun;
    forall k | i <= k < j ensures Alone(StateAt(s, h, steps, k)) {
      SafeAt(s, h, steps, i, k);
      SafeIsAlone(StateAt(s, h, steps, k));
    }
    AloneIsRun(s, h, steps, i, j, dir, other);
  }

  /** So what holds after every run of commands holds, without a harmful override, in every state of the two threads in
      which no handler is at work, and of any other state once that handler has ended. */
  lemma UploadInvariantHolds(files: Upload.Files, h: Handler, steps: seq<Action>, k: nat, dir: string,
                             other: string -> Byte)
    requires h == Handlers(dir, other) && k <= |steps|
    requires Harmless(Initial(UploadRuns.Fresh(files).world), h, steps, 0, k)
    ensures var s := Initial(UploadRuns.Fresh(files).world);
      var o := UploadRuns.Watch(UploadRuns.Fresh(files), dir, CallsBetween(s, h, steps, 0, k, BOTH), other);
      var t := StateAt(s, h, steps, k);
      && o.world == Settled(t, dir, other) && UploadRuns.Inv(o, dir)
      && (!Working(t) ==> o.world == t.world)
  {
    hide UploadRuns.Inv, Upload.Process, Harmful, UploadFiles.Replies, Pending, RepliesBetween;
    var s := Initial(UploadRuns.Fresh(files).world);
    var cs := CallsBetween(s, h, steps, 0, k, BOTH);
    WorldIsRun(s, h, steps, 0, k, dir, other);
    UploadRuns.WatchIsRun(UploadRuns.Fresh(files), dir, cs, other);
    UploadRuns.EveryRun(files, dir, cs, other);
    hide UploadSteps.Finish, StateAt;
  }

  // ------------------------------------------------------------------ periods of ownership

  /** A step that enters a handler is one of the lock's owner, */
  lemma CallsAreTheOwners(s: State, a: Action)
    requires Inv(s)
    ensures CallsOfStep(s, a, BOTH) == CallsOfStep(s, a, {s.owner})
  {
    hide Bypasses, IsAction;
    if s.http.HttpHandle? && !s.http.checked {
      BypassIsReset(s.http.cmd);
    }
  }

  /** also when the reader is gone, provided that there is an owner. */
  lemma OwnerEnters(s: State, a: Action)
    requires Safe(s) && s.owner != NONE
    ensures CallsOfStep(s, a, BOTH) == CallsOfStep(s, a, {s.owner})
  {
    hide Bypasses, IsAction;
    if Inv(s) {
      CallsAreTheOwners(s, a);
    }
  }

  /** `side` owns the lock before every step from `i` up to `j`. */
  predicate Owns(s: State, h: Handler, steps: seq<Action>, i: nat, j: nat, side: Owner)
    requires i <= j <= |steps|
  {
    forall m :: i <= m < j ==> StateAt(s, h, steps, m).owner == side
  }

  /** A harmful override ends the period. */
  lemma {:induction false} PeriodIsSafe(s: State, h: Handler, steps: seq<Action>, i: nat, j: nat, side: Owner)
    requires i <= j < |steps| && Owns(s, h, steps, i, j + 1, side) && side != NONE && Safe(StateAt(s, h, steps, i))
    ensures Safe(StateAt(s, h, steps, j))
    decreases j
  {
    hide Safe, Next, Harmful;
    if i < j {
      var p := StateAt(s, h, steps, j - 1);
      PeriodIsSafe(s, h, steps, i, j - 1, side);
      assert StateAt(s, h, steps, j).owner == side;
      if Harmful(p, steps[j - 1]) {
        OverrideFrees(p, h, steps[j - 1]);
        assert false;
      }
      SafeKeeps(p, h, steps[j - 1]);
    }
  }

  /** Every handler entered within a period of ownership is the owner's. */
  lemma {:induction false} PeriodCalls(s: State, h: Handler, steps: seq<Action>, i: nat, j: nat, side: Owner)
    requires i <= j <= |steps| && Owns(s, h, steps, i, j, side) && side != NONE && Safe(StateAt(s, h, steps, i))
    ensures CallsBetween(s, h, steps, i, j, BOTH) == CallsBetween(s, h, steps, i, j, {side})
    decreases j
  {
    hide Safe, CallsOfStep, StateAt;
    if i < j {
      PeriodCalls(s, h, steps, i, j - 1, side);
      PeriodIsSafe(s, h, steps, i, j - 1, side);
      OwnerEnters(StateAt(s, h, steps, j - 1), steps[j - 1]);
    }
  }

  /** And while nobody owns the lock, no handler is entered, unless the lock has been overridden. */
  lemma {:induction false} NoOwnerNoCalls(s: State, h: Handler, steps: seq<Action>, i: nat, j: nat)
    requires Inv(s) && i <= j <= |steps| && Calm(s, h, steps, j) && Owns(s, h, steps, i, j, NONE)
    ensures CallsBetween(s, h, steps, i, j, BOTH) == []
    decreases j
  {
    hide Inv, Overrides, StateAt;
    if i < j {
      NoOwnerNoCalls(s, h, steps, i, j - 1);
      InvAt(s, h, steps, j - 1);
      CallsAreTheOwners(StateAt(s, h, steps, j - 1), steps[j - 1]);
    }
  }

  /** Within one unbroken period of ownership that begins in a safe state, whatever came before and whatever is tried
      meanwhile, the upload goes through the owner's commands and nobody else's, and the replies are theirs. */
  lemma PeriodIsolated(s: State, h: Handler, steps: seq<Action>, i: nat, j: nat, side: Owner, dir: string,
                       other: string -> Byte)
    requires h == Handlers(dir, other) && i <= j <= |steps|
    requires Safe(StateAt(s, h, steps, i)) && Owns(s, h, steps, i, j, side) && side != NONE
    ensures IsRun(s, h, steps, i, j, dir, other)
    ensures CallsBetween(s, h, steps, i, j, BOTH) == CallsBetween(s, h, steps, i, j, {side})
  {
    hide StateAt, CallsBetween, Safe, Alone, IsRun;
    forall k | i <= k < j ensures Alone(StateAt(s, h, steps, k)) {
      PeriodIsSafe(s, h, steps, i, k, side);
      SafeIsAlone(StateAt(s, h, steps, k));
    }
    AloneIsRun(s, h, steps, i, j, dir, other);
    PeriodCalls(s, h, steps, i, j, side);
  }

  /** So an upload that one side carries out within one period of ownership arrives, and the last reply says so,
      whatever the other side tries in the meantime. */
  lemma DeliveredUnderLock(s: State, h: Handler, steps: seq<Action>, i: nat, j: nat, side: Owner,
                           filename: string, data: seq<Byte>, pre: Upload.Call, cs: seq<Upload.Call>,
                           done: Upload.Call, dir: string, other: string -> Byte)
    requires h == Handlers(dir, other) && i <= j <= |steps|
    requires Safe(StateAt(s, h, steps, i)) && Owns(s, h, steps, i, j, side) && side != NONE
    requires CallsBetween(s, h, steps, i, j, {side}) == [pre] + cs + [done]
    requires !Settled(StateAt(s, h, steps, i), dir, other).up.active
    requires Upload.ValidName(filename) && ',' !in filename && 0 < |data| < TWO_TO_64
    requires Delivery.Opens(pre, filename, data) && Delivery.Payloads(cs, other) == data
    requires forall k :: 0 <= k < |cs| ==> !Delivery.Ends(cs[k]) && Delivery.WritesAll(cs[k], other)
    requires Delivery.Closes(done)
    ensures var w, t := Settled(StateAt(s, h, steps, i), dir, other), StateAt(s, h, steps, j);
      var after := Upload.World(Upload.IDLE, w.files[Upload.PathIn(dir, filename) := data]
                                             - {Upload.PathIn(dir, Upload.TmpName(filename))},
                                w.fopens + 1, w.fcloses + 1);
      var replies := RepliesBetween(s, h, steps, i, j) + Pending(t, dir, other);
      && Settled(t, dir, other) == after && (!Working(t) ==> t.world == after)
      && replies != [] && replies[|replies| - 1] == Upload.Published(filename, |data|, Upload.Md5Hex(data))
      && (!Working(t) ==> replies == RepliesBetween(s, h, steps, i, j))
  {
    hide StateAt, CallsBetween, Upload.Process, Upload.ValidName, Delivery.Opens, Delivery.Payloads, Delivery.Ends,
      Delivery.WritesAll, Delivery.Closes, Upload.PathIn, Upload.TmpName, Upload.Run, Upload.Md5Hex, UploadSteps.Finish,
      UploadFiles.Replies, Safe, RepliesBetween;
    var w := Settled(StateAt(s, h, steps, i), dir, other);
    PeriodIsolated(s, h, steps, i, j, side, dir, other);
    RunConcat(w, dir, [pre] + cs, [done], other);
    RepliesConcat(w, dir, [pre] + cs, [done], other);
    var full := Upload.Run(w, dir, [pre] + cs, other);
    RunOne(full, dir, done, other);
    RepliesOne(full, dir, done, other);
    Delivery.Delivered(w, dir, filename, data, pre, cs, done, other);
  }
}
