/** Taking the lock away by force: exactly when it lets the two sides overlap, and what still holds when it does not. */
module LockOverrides {
  import opened AtText
  import opened SessionLock
  import opened LockRuns
  import Upload

  /** An override that takes effect while the serial side is inside a handler. The override of the HTTP thread finds
      that thread itself outside, and a shutdown, which joins the reader first, finds the serial side outside. */
  predicate Harmful(s: State, a: Action) {
    Overrides(s, a) && SerialRelies(s) && !a.Shutdown? && (a.ApiReset? ==> s.http.HttpIdle?)
  }

  /** No step from `i` up to `j` is harmful. */
  predicate Harmless(s: State, h: Handler, steps: seq<Action>, i: nat, j: nat)
    requires i <= j <= |steps|
  {
    forall k :: i <= k < j ==> !Harmful(StateAt(s, h, steps, k), steps[k])
  }

  /** The reader has been joined and nothing can start it. */
  predicate ReaderGone(s: State) {
    !s.running && s.serial.SerialIdle?
  }

  /** Ownership is in order, or there is only the HTTP side left. */
  predicate Safe(s: State) {
    || Inv(s)
    || (ReaderGone(s) && s.owner != SERIAL
        && (s.http.HttpHandle? && !s.http.checked ==> Bypasses(s.http.cmd)) && (s.http.HttpWork? ==> s.http.checked))
  }

  /** Every step but a harmful override keeps this. */
  lemma SafeKeeps(s: State, h: Handler, a: Action)
    requires Safe(s) && !Harmful(s, a)
    ensures Safe(Next(s, h, a).state)
  {
    hide Bypasses, Parse;
    if s.http.HttpHandle? && !s.http.checked {
      BypassIsReset(s.http.cmd);
    }
    assert s.http.HttpHandle? && IsAction(s.http.cmd, "FORCERESET") ==> !IsAction(s.http.cmd, "RESET");
  }

  lemma {:induction false} SafeAt(s: State, h: Handler, steps: seq<Action>, i: nat, j: nat)
    requires i <= j <= |steps| && Safe(StateAt(s, h, steps, i)) && Harmless(s, h, steps, i, j)
    ensures Safe(StateAt(s, h, steps, j))
    decreases j
  {
    hide Safe, Harmful, Next;
    if i < j {
      SafeAt(s, h, steps, i, j - 1);
      SafeKeeps(StateAt(s, h, steps, j - 1), h, steps[j - 1]);
    }
  }

  /** Without a harmful override, never are both sides inside handlers for checked commands. */
  lemma NeverBoth(world: Upload.World, h: Handler, steps: seq<Action>, k: nat)
    requires k <= |steps| && Harmless(Initial(world), h, steps, 0, k)
    ensures var t := StateAt(Initial(world), h, steps, k); !(HttpRelies(t) && SerialRelies(t))
  {
    hide Harmful, Bypasses;
    SafeAt(Initial(world), h, steps, 0, k);
  }

  /** Some run without a further override brings both sides into handlers for checked commands. */
  ghost predicate CanOverlap(s: State, h: Handler) {
    exists steps: seq<Action> :: OverlapsAfter(s, h, steps)
  }

  predicate OverlapsAfter(s: State, h: Handler, steps: seq<Action>) {
    Calm(s, h, steps, |steps|)
    && var t := StateAt(s, h, steps, |steps|); HttpRelies(t) && SerialRelies(t)
  }

  /** An override lets the sides overlap exactly if it is harmful. */
  lemma OverrideIsSafeIff(s: State, h: Handler, a: Action)
    requires Safe(s) && Overrides(s, a)
    ensures CanOverlap(Next(s, h, a).state, h) <==> Harmful(s, a)
  {
    hide Safe, Harmful, OverlapsAfter, Overrides;
    var n := Next(s, h, a).state;
    if Harmful(s, a) {
      OverrideFrees(s, h, a);
      OverlapFollows(n, h);
    } else {
      forall steps: seq<Action> ensures !OverlapsAfter(n, h, steps) {
        NoOverlapAfter(s, h, a, steps);
      }
    }
  }

  /** A harmful override leaves the serial side where it is, the HTTP side idle and the lock free. */
  lemma OverrideFrees(s: State, h: Handler, a: Action)
    requires Safe(s) && Harmful(s, a)
    ensures Next(s, h, a).state == s.(owner := NONE, http := HttpIdle) && SerialRelies(s)
  {
    hide Bypasses, Parse;
    assert s.http.HttpHandle? && IsAction(s.http.cmd, "FORCERESET") ==> !IsAction(s.http.cmd, "RESET");
  }

  /** The next request finds the lock free. */
  lemma OverlapFollows(n: State, h: Handler)
    requires n.owner == NONE && n.http == HttpIdle && SerialRelies(n)
    ensures CanOverlap(n, h)
  {
    hide Parse, Bypasses, IsAction;
    StatusIsChecked();
    var cmd, step := "AT+STATUS", HttpStep(Upload.Outcome(true, 0, 0, true, true));
    var steps := [Request(cmd), step, step];
    assert StateAt(n, h, steps, 0) == n;
    assert StateAt(n, h, steps, 1) == n.(http := HttpCheck(cmd));
    assert StateAt(n, h, steps, 2) == n.(http := HttpAcquire(cmd));
    assert StateAt(n, h, steps, 3) == n.(owner := HTTP, http := HttpHandle(cmd, true));
    forall i | 0 <= i < 3 ensures !Overrides(StateAt(n, h, steps, i), steps[i]) {
      assert i == 0 || i == 1 || i == 2;
    }
    hide StateAt;
    assert OverlapsAfter(n, h, steps);
  }

  lemma NoOverlapAfter(s: State, h: Handler, a: Action, steps: seq<Action>)
    requires Safe(s) && !Harmful(s, a)
    ensures !OverlapsAfter(Next(s, h, a).state, h, steps)
  {
    hide Next, Overrides, Bypasses;
    var n := Next(s, h, a).state;
    SafeKeeps(s, h, a);
    assert StateAt(n, h, steps, 0) == n;
    if Calm(n, h, steps, |steps|) {
      SafeAt(n, h, steps, 0, |steps|);
    }
    hide StateAt;
  }

  /** So from the start one AT+FORCERESET over HTTP is enough for both sides to be inside a handler at once. */
  lemma OverrideOverlaps(world: Upload.World, h: Handler, out: Upload.Outcome)
    ensures var steps := [SerialLine("AT+STATUS"), SerialStep(out), Request("AT+FORCERESET"), HttpStep(out),
                          Request("AT+STATUS"), HttpStep(out), HttpStep(out)];
      var t := StateAt(Initial(world), h, steps, 7);
      HttpRelies(t) && SerialRelies(t)
  {
    var s := "AT+STATUS";
    StatusIsChecked();
    ForceResetParses();
    hide Parse, Bypasses;
    var steps := [SerialLine(s), SerialStep(out), Request("AT+FORCERESET"), HttpStep(out), Request(s), HttpStep(out),
                  HttpStep(out)];
    var i := Initial(world);
    assert StateAt(i, h, steps, 0) == i;
    assert StateAt(i, h, steps, 1) == State(NONE, HttpIdle, SerialAcquire(s), true, world);
    assert StateAt(i, h, steps, 2) == State(SERIAL, HttpIdle, SerialHandle(s), true, world);
    assert StateAt(i, h, steps, 3) == State(SERIAL, HttpHandle("AT+FORCERESET", false), SerialHandle(s), true, world);
    assert StateAt(i, h, steps, 4) == State(NONE, HttpIdle, SerialHandle(s), true, world);
    assert StateAt(i, h, steps, 5) == State(NONE, HttpCheck(s), SerialHandle(s), true, world);
    assert StateAt(i, h, steps, 6) == State(NONE, HttpAcquire(s), SerialHandle(s), true, world);
    assert StateAt(i, h, steps, 7) == State(HTTP, HttpHandle(s, true), SerialHandle(s), true, world);
  }
}
