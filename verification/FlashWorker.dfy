/** AT+FLASH, its background worker and AT+TRYFLASHDONE, interleaved one shared access at a time. */
module FlashWorker {
  import opened Common

  /** Where the worker thread stands: not there; before it sets `running`; before `popen`; reading the script's output;
      before `pclose`; before it sets `done`; before it clears `running`; ended but not joined. */
  datatype Worker = Absent | Starting | Opening | Reading | Closing | Ending | Clearing | Ended

  /** Where the poll stands: idle; after finding `running` false; before the second look at `done`; before it builds its
      result; joining with that result; joining after a timeout. */
  datatype Poller =
    | Idle
    | FirstDone
    | SecondDone
    | Building
    | Joining(cmd: string, output: string, exitCode: int)
    | Cancelling

  /** `FlashOp` with its two threads. `crashed` is the end that `std::terminate` makes. */
  datatype State = State(
    running: bool,
    done: bool,
    exitCode: int,
    output: string,
    cmd: string,
    worker: Worker,
    poller: Poller,
    crashed: bool)

  const START := State(false, false, -1, "", "", Absent, Idle, false)

  /** What the script, or the system under it, does in a step of the worker. */
  datatype Event = Goes | FailsToOpen | Text(line: string) | EndsOutput | Exits(code: int) | Throws

  /** `late` says whether the sixty seconds are over. */
  datatype Action = Submit(cmd: string) | Poll | PollStep(late: bool) | WorkerStep(event: Event)

  datatype Answer =
    | NoAnswer
    | Submitted(cmd: string)
    | InProgress
    | NonePending
    | Running(cmd: string)
    | TimedOut
    | Success(cmd: string, output: string)
    | Failure(cmd: string, exitCode: int, output: string)

  datatype Step = Step(state: State, answer: Answer)

  predicate IsEol(c: char) {
    c == '\n' || c == '\r'
  }

  /** The output without its trailing line ends. */
  function TrimEol(s: string): (t: string)
    ensures t <= s && (t == "" || !IsEol(t[|t| - 1]))
    ensures forall i :: |t| <= i < |s| ==> IsEol(s[i])
    decreases |s|
  {
    if s != "" && IsEol(s[|s| - 1]) then TrimEol(s[..|s| - 1]) else s
  }

  /** `std::thread` cannot be assigned to while it stands for a thread that has not been joined. */
  predicate Joinable(s: State) {
    !s.worker.Absent?
  }

  function NextWorker(s: State, event: Event): State {
    match (s.worker, event)
    case (Starting, Goes) => s.(running := true, worker := Opening)
    case (Opening, Goes) => s.(worker := Reading)
    case (Opening, FailsToOpen) => s.(done := true, worker := Clearing)
    case (Reading, Text(line)) => s.(output := s.output + line)
    case (Reading, EndsOutput) => s.(output := TrimEol(s.output), worker := Closing)
    case (Reading, Throws) => s.(exitCode := -1, worker := Ending)
    case (Closing, Exits(code)) => s.(exitCode := code, worker := Ending)
    case (Ending, Goes) => s.(done := true, worker := Clearing)
    case (Clearing, Goes) => s.(running := false, worker := Ended)
    case _ => s
  }

  function NextPoll(s: State, late: bool): Step {
    match s.poller
    case Idle => Step(s, NoAnswer)
    case FirstDone =>
      if !s.done then Step(s.(poller := Idle), NonePending) else Step(s.(poller := SecondDone), NoAnswer)
    case SecondDone =>
      if s.done then Step(s.(poller := Building), NoAnswer)
      else if late then Step(s.(poller := Cancelling), NoAnswer)
      else Step(s.(poller := Idle), Running(s.cmd))
    case Building => Step(s.(poller := Joining(s.cmd, s.output, s.exitCode)), NoAnswer)
    case Joining(cmd, output, exitCode) =>
      // A join waits until the worker has ended.
      if s.worker !in {Ended, Absent} then Step(s, NoAnswer)
      else
        Step(s.(worker := Absent, running := false, done := false, poller := Idle),
             if exitCode == 0 then Success(cmd, output) else Failure(cmd, exitCode, output))
    case Cancelling =>
      if s.worker !in {Ended, Absent} then Step(s, NoAnswer)
      else Step(s.(worker := Absent, running := false, done := true, poller := Idle), TimedOut)
  }

  /** Submitting and polling are calls on one thread: neither starts while a poll is going on. */
  function Next(s: State, a: Action): Step {
    if s.crashed then Step(s, NoAnswer) else
    match a
    case Submit(cmd) =>
      if !s.poller.Idle? then Step(s, NoAnswer)
      else if s.running then Step(s, InProgress)
      else if Joinable(s) then
        Step(s.(cmd := cmd, done := false, output := "", exitCode := -1, crashed := true), NoAnswer)
      else Step(s.(cmd := cmd, done := false, output := "", exitCode := -1, worker := Starting), Submitted(cmd))
    case Poll =>
      if !s.poller.Idle? then Step(s, NoAnswer)
      else Step(s.(poller := if s.running then SecondDone else FirstDone), NoAnswer)
    case PollStep(late) => NextPoll(s, late)
    case WorkerStep(event) => Step(NextWorker(s, event), NoAnswer)
  }

  // ------------------------------------------------------------------ what an observer notes

  datatype Result = Result(output: string, exitCode: int)

  /** The latest submitted command, what its script has written, how it ended, and how often a result was reported
      since the submission. */
  datatype Log = Log(cmd: string, text: string, final: Option<Result>, reports: nat)

  const NOTHING := Log("", "", None, 0)

  /** The observer sees the actions, the answers and how far the worker was, but none of the shared fields. */
  function Note(log: Log, worker: Worker, a: Action, answer: Answer): Log {
    match answer
    case Submitted(cmd) => Log(cmd, "", None, 0)
    case Success(_, _) => log.(reports := log.reports + 1)
    case Failure(_, _, _) => log.(reports := log.reports + 1)
    case _ =>
      if !a.WorkerStep? then log else
      match (worker, a.event)
      case (Opening, FailsToOpen) => log.(final := Some(Result("", -1)))
      case (Reading, Text(line)) => log.(text := log.text + line)
      case (Reading, Throws) => log.(final := Some(Result(log.text, -1)))
      case (Closing, Exits(code)) => log.(final := Some(Result(TrimEol(log.text), code)))
      case _ => log
  }

  datatype Watched = Watched(state: State, log: Log)

  function WatchOne(o: Watched, a: Action): Watched {
    var r := Next(o.state, a);
    Watched(r.state, if o.state.crashed then o.log else Note(o.log, o.state.worker, a, r.answer))
  }

  function Watch(steps: seq<Action>): Watched {
    if steps == [] then Watched(START, NOTHING)
    else WatchOne(Watch(steps[..|steps| - 1]), steps[|steps| - 1])
  }

  // ------------------------------------------------------------------ the invariant

  predicate Finished(o: Watched) {
    o.state.done && o.log.final == Some(Result(o.state.output, o.state.exitCode)) && o.log.reports == 0
  }

  /** Nothing of the submitted command is final yet. */
  predicate Unfinished(o: Watched) {
    !o.state.done && o.log.final.None? && o.log.reports == 0
  }

  /** What the fields hold at each point of the worker. */
  predicate WorkerInv(o: Watched) {
    var s, log := o.state, o.log;
    s.cmd == log.cmd &&
    match s.worker
    case Absent => !s.running && if s.done then Finished(o) else log.reports == 1 || log == NOTHING
    case Starting => !s.running && Unfinished(o) && s.output == log.text == "" && s.exitCode == -1
    case Opening => s.running && Unfinished(o) && s.output == log.text == "" && s.exitCode == -1
    case Reading => s.running && Unfinished(o) && s.output == log.text
    case Closing => s.running && Unfinished(o) && s.output == TrimEol(log.text)
    case Ending =>
      s.running && !s.done && log.final == Some(Result(s.output, s.exitCode)) && log.reports == 0
    case Clearing => s.running && Finished(o)
    case Ended => !s.running && Finished(o)
  }

  /** What a poll may rely on. */
  predicate PollerInv(o: Watched) {
    var s := o.state;
    match s.poller
    case Idle => true
    case FirstDone => true
    case SecondDone => s.done || Joinable(s)
    case Building => s.done
    case Joining(cmd, output, exitCode) => s.done && cmd == s.cmd && output == s.output && exitCode == s.exitCode
    case Cancelling => Joinable(s)
  }

  predicate Inv(o: Watched) {
    !o.state.crashed ==> WorkerInv(o) && PollerInv(o)
  }

  lemma WorkerKeeps(o: Watched, event: Event)
    requires Inv(o)
    ensures Inv(WatchOne(o, WorkerStep(event)))
  {
    hide TrimEol;
  }

  lemma PollKeeps(o: Watched, a: Action)
    requires Inv(o) && !a.WorkerStep?
    ensures Inv(WatchOne(o, a))
  {
    hide TrimEol;
  }

  lemma InvStarts()
    ensures Inv(Watched(START, NOTHING))
  {
  }

  lemma {:induction false} InvHolds(steps: seq<Action>)
    ensures Inv(Watch(steps))
    decreases |steps|
  {
    hide Inv, WatchOne;
    InvStarts();
    if steps != [] {
      InvHolds(steps[..|steps| - 1]);
      var a := steps[|steps| - 1];
      if a.WorkerStep? {
        WorkerKeeps(Watch(steps[..|steps| - 1]), a.event);
      } else {
        PollKeeps(Watch(steps[..|steps| - 1]), a);
      }
    }
  }

  // ------------------------------------------------------------------ results

  /** In every interleaving, a result carries the latest submitted command, its final output and its final exit code,
      and is the first since that submission. */
  lemma ResultIsFinal(steps: seq<Action>, a: Action)
    ensures var o := Watch(steps);
      match Next(o.state, a).answer
      case Success(cmd, output) => cmd == o.log.cmd && o.log.final == Some(Result(output, 0)) && o.log.reports == 0
      case Failure(cmd, exitCode, output) =>
        cmd == o.log.cmd && exitCode != 0 && o.log.final == Some(Result(output, exitCode)) && o.log.reports == 0
      case _ => true
  {
    InvHolds(steps);
    hide TrimEol, Watch;
  }

  lemma CrashKeepsLog(o: Watched, a: Action)
    ensures WatchOne(o, a).state.crashed ==> WatchOne(o, a).log == o.log
  {
    hide TrimEol;
  }

  lemma {:induction false} ReportedAtMostOnce(steps: seq<Action>)
    ensures Watch(steps).log.reports <= 1
    decreases |steps|
  {
    hide WatchOne;
    if steps != [] {
      var before := steps[..|steps| - 1];
      ReportedAtMostOnce(before);
      CrashKeepsLog(Watch(before), steps[|steps| - 1]);
      InvHolds(steps);
    }
  }

  /** A timeout is answered only after the worker has ended: it leaves no worker behind, and its result can still be
      fetched. */
  lemma TimeoutJoins(steps: seq<Action>, a: Action)
    requires Next(Watch(steps).state, a).answer.TimedOut?
    ensures var o := Watch(steps + [a]);
      o.state.worker.Absent? && !o.state.running && Finished(o)
  {
    InvHolds(steps);
    WatchMore(steps, a);
    hide TrimEol, Watch;
  }

  // ------------------------------------------------------------------ when a submission ends the program

  /** A submission that is not refused ends the program exactly if a worker has not been joined: `running` says so only
      while the worker is between its first and its last step. */
  lemma SubmitCrashesIff(steps: seq<Action>, cmd: string)
    requires var s := Watch(steps).state; !s.crashed && s.poller.Idle?
    ensures var s, r := Watch(steps).state, Next(Watch(steps).state, Submit(cmd));
      && (r.answer.InProgress? <==> s.worker in {Opening, Reading, Closing, Ending, Clearing})
      && (r.state.crashed <==> s.worker in {Starting, Ended})
      && (r.answer.Submitted? <==> s.worker.Absent?)
  {
    InvHolds(steps);
    hide TrimEol, Watch;
  }

  lemma WatchMore(steps: seq<Action>, a: Action)
    ensures Watch(steps + [a]) == WatchOne(Watch(steps), a)
  {
    hide WatchOne;
    assert (steps + [a])[..|steps|] == steps;
  }

  lemma AfterSubmit(c: string)
    ensures Watch([Submit(c)]) == Watched(START.(cmd := c, worker := Starting), Log(c, "", None, 0))
  {
    assert [] + [Submit(c)] == [Submit(c)];
    WatchMore([], Submit(c));
  }

  /** Twice in a row is enough, and so is a second submission before the first result is fetched. */
  lemma CrashingRuns(c: string, d: string)
    ensures Watch([Submit(c)] + [Submit(d)]).state.crashed
    ensures Watch([Submit(c)] + [WorkerStep(Goes)] + [WorkerStep(FailsToOpen)] + [WorkerStep(Goes)] + [Submit(d)])
            .state.crashed
  {
    hide Watch;
    AfterSubmit(c);
    WatchMore([Submit(c)], Submit(d));
    WatchMore([Submit(c)], WorkerStep(Goes));
    var opening := [Submit(c)] + [WorkerStep(Goes)];
    WatchMore(opening, WorkerStep(FailsToOpen));
    WatchMore(opening + [WorkerStep(FailsToOpen)], WorkerStep(Goes));
    WatchMore(opening + [WorkerStep(FailsToOpen)] + [WorkerStep(Goes)], Submit(d));
  }

  /** A poll that comes before the worker's first step denies the submission it follows. */
  lemma EarlyPollFindsNothing(c: string, late: bool)
    ensures var o := Watch([Submit(c)] + [Poll]);
      Next(o.state, PollStep(late)).answer == NonePending && o.state.worker == Starting
  {
    hide Watch;
    AfterSubmit(c);
    WatchMore([Submit(c)], Poll);
  }
}
