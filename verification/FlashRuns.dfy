/** What a poll answers: by itself, in every interleaving, and at the end of whole runs. */
module FlashRuns {
  import opened Common
  import opened FlashWorker

  /** The reply that carries a result. */
  function Report(cmd: string, r: Result): Answer {
    if r.exitCode == 0 then Success(cmd, r.output) else Failure(cmd, r.exitCode, r.output)
  }

  /** There is a result that has not been fetched: the script has come to an end since the latest submission, and the
      worker has said so. */
  predicate HasResult(o: Watched) {
    o.log.final.Some? && o.log.reports == 0 && o.state.worker != Ending
  }

  lemma DoneIffResult(o: Watched)
    requires Inv(o) && !o.state.crashed
    ensures o.state.done <==> HasResult(o)
    ensures o.state.done ==> Finished(o)
  {
    hide TrimEol;
  }

  // ------------------------------------------------------------------ a poll by itself

  function PollLeft(p: Poller): nat {
    match p
    case Idle => 0
    case FirstDone => 4
    case SecondDone => 3
    case Building => 2
    case Joining(_, _, _) => 1
    case Cancelling => 1
  }

  /** The poll's own steps until it answers or waits for the worker. */
  function PollAlone(s: State, late: bool): Step
    requires !s.poller.Idle?
    decreases PollLeft(s.poller)
  {
    var r := NextPoll(s, late);
    if r.state.poller.Idle? || r.state.poller == s.poller then r else PollAlone(r.state, late)
  }

  lemma PollOne(s: State, late: bool)
    requires !s.poller.Idle?
    ensures var r := NextPoll(s, late);
      PollAlone(s, late)
      == if r.state.poller.Idle? || r.state.poller == s.poller then r else PollAlone(r.state, late)
  {
  }

  lemma PollWaits(s: State, late: bool)
    requires s.poller.Cancelling? && s.worker !in {Ended, Absent}
    ensures PollAlone(s, late) == Step(s, NoAnswer)
  {
  }

  /** From the moment that there is a result. */
  lemma PollTakesResult(s: State, late: bool)
    requires s.done && s.poller in {FirstDone, SecondDone} && s.worker in {Clearing, Ended, Absent}
    ensures PollAlone(s, late) ==
      if s.worker.Clearing? then Step(s.(poller := Joining(s.cmd, s.output, s.exitCode)), NoAnswer)
      else
        Step(s.(worker := Absent, running := false, done := false, poller := Idle),
             Report(s.cmd, Result(s.output, s.exitCode)))
  {
    hide PollAlone;
    var second := s.(poller := SecondDone);
    var building := s.(poller := Building);
    PollOne(s, late);
    PollOne(second, late);
    PollOne(building, late);
    PollOne(s.(poller := Joining(s.cmd, s.output, s.exitCode)), late);
  }

  /** A poll that no step of the worker interrupts, by where the worker stands: there is nothing to report before the
      worker's first step and after the result was fetched; while the script runs the answer is RUNNING, or the poll
      waits for the worker if the time is over; a final result is reported with what the script wrote and how it ended,
      as soon as the worker has ended, and all is set back. */
  lemma PollAnswers(steps: seq<Action>, late: bool)
    requires var s := Watch(steps).state; !s.crashed && s.poller.Idle?
    ensures var o := Watch(steps); var s := o.state;
      var asked := Next(s, Poll).state; var r := PollAlone(asked, late);
      && !asked.poller.Idle?
      && match s.worker
         case Absent =>
           if HasResult(o) then r == Step(s.(done := false), Report(o.log.cmd, o.log.final.value))
           else r == Step(s, NonePending)
         case Starting => r == Step(s, NonePending)
         case Clearing =>
           r == Step(s.(poller := Joining(o.log.cmd, s.output, s.exitCode)), NoAnswer)
           && o.log.final == Some(Result(s.output, s.exitCode))
         case Ended =>
           HasResult(o)
           && r == Step(s.(worker := Absent, done := false), Report(o.log.cmd, o.log.final.value))
         case _ =>
           r == if late then Step(s.(poller := Cancelling), NoAnswer) else Step(s, Running(o.log.cmd))
  {
    hide Watch, TrimEol, PollAlone;
    InvHolds(steps);
    DoneIffResult(Watch(steps));
    var asked := Next(Watch(steps).state, Poll).state;
    if asked.done {
      PollTakesResult(asked, late);
    } else {
      PollOne(asked, late);
      if asked.poller.SecondDone? && late {
        PollWaits(asked.(poller := Cancelling), late);
      }
    }
  }

  /** What ends the two waits, and that the next submission is then taken. */
  lemma WaitsEnd(steps: seq<Action>, late: bool, next: string)
    requires var s := Watch(steps).state;
      !s.crashed && s.worker.Ended? && (s.poller.Joining? || s.poller.Cancelling?)
    ensures var o := Watch(steps); var r := Next(o.state, PollStep(late));
      && o.log.final.Some?
      && r.answer == (if o.state.poller.Joining? then Report(o.log.cmd, o.log.final.value) else TimedOut)
      && r.state.poller.Idle? && r.state.worker.Absent?
      && Next(r.state, Submit(next)).answer == Submitted(next)
  {
    InvHolds(steps);
    hide Watch, TrimEol;
  }

  // ------------------------------------------------------------------ a poll in every interleaving

  /** The poll is under way, and finds this result whatever it looks at. */
  predicate Reporting(o: Watched, cmd: string, r: Result) {
    && !o.state.crashed && !o.state.poller.Idle? && !o.state.poller.Cancelling?
    && o.state.done && o.state.cmd == cmd && o.state.output == r.output && o.state.exitCode == r.exitCode
    && o.state.worker in {Clearing, Ended, Absent}
    && (o.state.poller.Joining? ==> o.state.poller == Joining(cmd, r.output, r.exitCode))
  }

  lemma ReportingGoesOn(o: Watched, a: Action, cmd: string, r: Result)
    requires Reporting(o, cmd, r)
    ensures var n := Next(o.state, a);
      if a.PollStep? && n.answer != NoAnswer then n.answer == Report(cmd, r)
      else Reporting(WatchOne(o, a), cmd, r)
  {
    hide TrimEol;
  }

  /** No step from `i` up to `j` answers the poll. */
  predicate Unanswered(steps: seq<Action>, i: nat, j: nat)
    requires j <= |steps|
  {
    forall k :: i <= k < j && steps[k].PollStep? ==> Next(Watch(steps[..k]).state, steps[k]).answer == NoAnswer
  }

  lemma {:induction false} StaysReporting(steps: seq<Action>, i: nat, j: nat, cmd: string, r: Result)
    requires i <= j <= |steps| && Reporting(Watch(steps[..i]), cmd, r) && Unanswered(steps, i, j)
    ensures Reporting(Watch(steps[..j]), cmd, r)
    decreases j
  {
    hide Watch, WatchOne, Next, Reporting;
    if i < j {
      StaysReporting(steps, i, j - 1, cmd, r);
      ReportingGoesOn(Watch(steps[..j - 1]), steps[j - 1], cmd, r);
      assert steps[..j] == steps[..j - 1] + [steps[j - 1]];
      WatchMore(steps[..j - 1], steps[j - 1]);
    }
  }

  /** In every interleaving, a poll that begins when there is a result answers with that result: the latest submitted
      command, all that its script wrote, and its exit code. */
  lemma ResultIsReported(steps: seq<Action>, i: nat, k: nat)
    requires i < k < |steps| && steps[i] == Poll && Unanswered(steps, i + 1, k)
    requires var o := Watch(steps[..i]); !o.state.crashed && o.state.poller.Idle? && HasResult(o)
    requires steps[k].PollStep? && Next(Watch(steps[..k]).state, steps[k]).answer != NoAnswer
    ensures var log := Watch(steps[..i]).log;
      Next(Watch(steps[..k]).state, steps[k]).answer == Report(log.cmd, log.final.value)
  {
    var o := Watch(steps[..i]);
    InvHolds(steps[..i]);
    DoneIffResult(o);
    ReportingStarts(o);
    assert steps[..i + 1] == steps[..i] + [steps[i]];
    WatchMore(steps[..i], steps[i]);
    StaysReporting(steps, i + 1, k, o.log.cmd, o.log.final.value);
    ReportingGoesOn(Watch(steps[..k]), steps[k], o.log.cmd, o.log.final.value);
    hide Watch, WatchOne, Next, Reporting, TrimEol;
  }

  lemma ReportingStarts(o: Watched)
    requires !o.state.crashed && o.state.poller.Idle? && Inv(o) && HasResult(o)
    ensures Reporting(WatchOne(o, Poll), o.log.cmd, o.log.final.value)
  {
    hide TrimEol;
  }

  /** In every interleaving, "no pending operation" and RUNNING are answered only while there is no result, RUNNING
      names the latest submitted command, and a timeout is answered only when there is one. */
  lemma NoResultDenied(steps: seq<Action>, a: Action)
    ensures var o := Watch(steps);
      match Next(o.state, a).answer
      case NonePending => !HasResult(o)
      case Running(cmd) => !HasResult(o) && cmd == o.log.cmd
      case TimedOut => HasResult(o)
      case _ => true
  {
    hide Watch, TrimEol;
    InvHolds(steps);
    if !Watch(steps).state.crashed {
      DoneIffResult(Watch(steps));
    }
  }

  // ------------------------------------------------------------------ whole runs

  /** The lines of a script, as steps of the worker. */
  function Lines(texts: seq<string>): (steps: seq<Action>)
    ensures |steps| == |texts|
  {
    seq(|texts|, i requires 0 <= i < |texts| => WorkerStep(Text(texts[i])))
  }

  function Joined(texts: seq<string>): string {
    if texts == [] then "" else Joined(texts[..|texts| - 1]) + texts[|texts| - 1]
  }

  function Started(c: string): seq<Action> {
    [Submit(c)] + [WorkerStep(Goes)] + [WorkerStep(Goes)]
  }

  lemma StartedState(c: string)
    ensures Watch(Started(c)) ==
      Watched(State(true, false, -1, "", c, Reading, Idle, false), Log(c, "", None, 0))
  {
    hide Watch;
    AfterSubmit(c);
    WatchMore([Submit(c)], WorkerStep(Goes));
    WatchMore([Submit(c)] + [WorkerStep(Goes)], WorkerStep(Goes));
  }

  lemma {:induction false} ReadState(c: string, texts: seq<string>)
    ensures Watch(Started(c) + Lines(texts)) ==
      Watched(State(true, false, -1, Joined(texts), c, Reading, Idle, false), Log(c, Joined(texts), None, 0))
    decreases |texts|
  {
    hide Watch, Started;
    if texts == [] {
      StartedState(c);
      assert Started(c) + Lines(texts) == Started(c);
    } else {
      var front, last := texts[..|texts| - 1], texts[|texts| - 1];
      ReadState(c, front);
      assert Lines(texts) == Lines(front) + [WorkerStep(Text(last))];
      assert Started(c) + Lines(texts) == Started(c) + Lines(front) + [WorkerStep(Text(last))];
      WatchMore(Started(c) + Lines(front), WorkerStep(Text(last)));
    }
  }

  /** In this state a poll has this answer, and the next submission is taken. */
  predicate AnswersNow(s: State, answer: Answer, late: bool, next: string) {
    var asked := Next(s, Poll).state;
    !asked.poller.Idle?
    && var r := PollAlone(asked, late);
       r.answer == answer && Next(r.state, Submit(next)).answer == Submitted(next)
  }

  ghost predicate Answers(steps: seq<Action>, answer: Answer) {
    forall late, next :: AnswersNow(Watch(steps).state, answer, late, next)
  }

  lemma EndedAnswers(steps: seq<Action>, cmd: string, r: Result)
    requires var o := Watch(steps);
      !o.state.crashed && o.state.poller.Idle? && o.state.worker.Ended? && o.log.cmd == cmd && o.log.final == Some(r)
    ensures Answers(steps, Report(cmd, r))
  {
    forall late, next: string ensures AnswersNow(Watch(steps).state, Report(cmd, r), late, next) {
      hide Watch, PollAlone, TrimEol;
      PollAnswers(steps, late);
      InvHolds(steps);
    }
    hide AnswersNow, Watch;
  }

  function Ran(c: string, texts: seq<string>, code: int): seq<Action> {
    Started(c) + Lines(texts) + [WorkerStep(EndsOutput)] + [WorkerStep(Exits(code))] + [WorkerStep(Goes)]
    + [WorkerStep(Goes)]
  }

  /** From a submission to the report of what the script wrote, without the line ends behind it. */
  lemma RunIsReported(c: string, texts: seq<string>, code: int)
    ensures Answers(Ran(c, texts, code),
                    if code == 0 then Success(c, TrimEol(Joined(texts))) else Failure(c, code, TrimEol(Joined(texts))))
  {
    hide Watch, Started, Answers, TrimEol;
    var reading := Started(c) + Lines(texts);
    ReadState(c, texts);
    WatchMore(reading, WorkerStep(EndsOutput));
    var closing := reading + [WorkerStep(EndsOutput)];
    WatchMore(closing, WorkerStep(Exits(code)));
    var ending := closing + [WorkerStep(Exits(code))];
    WatchMore(ending, WorkerStep(Goes));
    WatchMore(ending + [WorkerStep(Goes)], WorkerStep(Goes));
    EndedAnswers(Ran(c, texts, code), c, Result(TrimEol(Joined(texts)), code));
  }

  /** When the script cannot be started, and when reading what it writes throws. */
  lemma FailureIsReported(c: string, texts: seq<string>)
    ensures Answers([Submit(c)] + [WorkerStep(Goes)] + [WorkerStep(FailsToOpen)] + [WorkerStep(Goes)],
                    Failure(c, -1, ""))
    ensures Answers(Started(c) + Lines(texts) + [WorkerStep(Throws)] + [WorkerStep(Goes)] + [WorkerStep(Goes)],
                    Failure(c, -1, Joined(texts)))
  {
    hide Watch, Started, Answers, TrimEol;
    AfterSubmit(c);
    var opening := [Submit(c)] + [WorkerStep(Goes)];
    WatchMore([Submit(c)], WorkerStep(Goes));
    WatchMore(opening, WorkerStep(FailsToOpen));
    WatchMore(opening + [WorkerStep(FailsToOpen)], WorkerStep(Goes));
    EndedAnswers(opening + [WorkerStep(FailsToOpen)] + [WorkerStep(Goes)], c, Result("", -1));
    var reading := Started(c) + Lines(texts);
    ReadState(c, texts);
    WatchMore(reading, WorkerStep(Throws));
    WatchMore(reading + [WorkerStep(Throws)], WorkerStep(Goes));
    WatchMore(reading + [WorkerStep(Throws)] + [WorkerStep(Goes)], WorkerStep(Goes));
    EndedAnswers(reading + [WorkerStep(Throws)] + [WorkerStep(Goes)] + [WorkerStep(Goes)], c,
                 Result(Joined(texts), -1));
  }
}
