/** Line framing on the serial port: `writeLine`, `readLine` and the reader loop's stream of lines. */
module SerialLine {
  const MAX_LINE_LEN := 8192

  /** What one turn of the read loop meets: a byte, no byte yet, a failed read, or the end of the time allowed. */
  datatype ReadEvent = Got(c: char) | Nothing | Failed | Expired

  datatype ReadResult = Line(text: string) | Discarded | Broken(partial: string)

  predicate IsStop(e: ReadEvent) {
    e == Got('\n') || e.Failed? || e.Expired?
  }

  /** The position of the event that ends a read; the length when the stream ends first, which counts as expiry. */
  function FirstStop(events: seq<ReadEvent>): (i: nat)
    ensures i <= |events| && (i < |events| ==> IsStop(events[i]))
    ensures forall j :: 0 <= j < i ==> !IsStop(events[j])
  {
    if events == [] || IsStop(events[0]) then 0 else 1 + FirstStop(events[1..])
  }

  /** The bytes in a stretch of events. */
  function BytesOf(events: seq<ReadEvent>): string {
    if events == [] then ""
    else (if events[0].Got? then [events[0].c] else "") + BytesOf(events[1..])
  }

  lemma BytesFirst(events: seq<ReadEvent>)
    ensures BytesOf([]) == ""
    ensures events != [] ==>
            BytesOf(events) == (if events[0].Got? then [events[0].c] else "") + BytesOf(events[1..])
  {
  }

  lemma {:induction false} BytesConcat(a: seq<ReadEvent>, b: seq<ReadEvent>)
    ensures BytesOf(a + b) == BytesOf(a) + BytesOf(b)
    decreases |a|
  {
    hide BytesOf;
    BytesFirst(a);
    BytesFirst(a + b);
    if a == [] {
      assert a + b == b;
    } else {
      assert (a + b)[1..] == a[1..] + b;
      BytesConcat(a[1..], b);
      var x, y, z := if a[0].Got? then [a[0].c] else "", BytesOf(a[1..]), BytesOf(b);
      assert x + (y + z) == (x + y) + z;
    }
  }

  /** One carriage return before the newline belongs to the line ending. */
  function StripCr(s: string): string {
    if s != "" && s[|s| - 1] == '\r' then s[..|s| - 1] else s
  }

  /** What one read makes of a stream. */
  function ReadOf(events: seq<ReadEvent>): ReadResult {
    var i := FirstStop(events);
    var text := BytesOf(events[..i]);
    if i < |events| && events[i] == Got('\n') then
      if |StripCr(text)| > MAX_LINE_LEN then Discarded else Line(StripCr(text))
    else Broken(text)
  }

  /** What it leaves of the stream. */
  function RestOf(events: seq<ReadEvent>): (rest: seq<ReadEvent>)
    ensures events != [] ==> |rest| < |events|
  {
    var i := FirstStop(events);
    if i < |events| then events[i + 1..] else []
  }

  /** The bytes of one written line. */
  function Frame(cmd: string): string {
    cmd + "\r\n"
  }

  class SerialPort {
    var open: bool
    var events: seq<ReadEvent>
    var sent: string

    constructor (events: seq<ReadEvent>)
      ensures open && this.events == events && sent == ""
    {
      open, this.events, sent := true, events, "";
    }

    /** `written` is what the operating system reports: negative for an error, else how many bytes it took. */
    method WriteLine(cmd: string, written: int) returns (ok: bool)
      requires written <= |Frame(cmd)|
      modifies this`sent
      ensures ok == (open && written >= 0)
      ensures sent == old(sent) + if ok then Frame(cmd)[..written] else ""
    {
      var data := cmd + "\r\n";
      if open {
        if written < 0 {
          return false;
        }
        sent := sent + data[..written];
      } else {
        return false;
      }
      ok := true;
    }

    /** `before` is what the caller's string held; a closed port leaves it as it was. */
    method ReadLine(before: string) returns (ok: bool, response: string)
      modifies this`events
      ensures old(!open) ==> !ok && response == before && events == old(events)
      ensures old(open) ==> ok == ReadOf(old(events)).Line? && events == RestOf(old(events))
      ensures old(open) ==> match ReadOf(old(events))
                            case Line(text) => response == text
                            case Discarded => response == ""
                            case Broken(partial) => response == partial
    {
      hide FirstStop, BytesOf, ReadOf, RestOf;
      response := before;
      if !open {
        return false, response;
      }
      response := "";
      ghost var all := events;
      ghost var i := 0;
      NothingYet();
      while true
        invariant 0 <= i <= |all| && events == all[i..]
        invariant NoStop(all[..i])
        invariant response == BytesOf(all[..i])
        decreases |events|
      {
        if events == [] {
          assert all[..i] == all;
          Exhausted(all);
          return false, response;
        }
        var e := events[0];
        assert e == all[i] && events[1..] == all[i + 1..];
        events := events[1..];
        match e {
          case Expired =>
            StopHere(all, i);
            return false, response;
          case Got(c) =>
            if c == '\n' {
              StopHere(all, i);
              if response != "" && response[|response| - 1] == '\r' {
                response := response[..|response| - 1];
              }
              if |response| > MAX_LINE_LEN {
                response := "";
                return false, response;
              }
              return true, response;
            }
            Extend(all, i);
            response := response + [c];
          case Failed =>
            StopHere(all, i);
            return false, response;
          case Nothing =>
            Extend(all, i);
        }
        i := i + 1;
      }
    }
  }

  predicate NoStop(events: seq<ReadEvent>) {
    forall j :: 0 <= j < |events| ==> !IsStop(events[j])
  }

  lemma NothingYet()
    ensures BytesOf([]) == ""
  {
  }

  lemma {:induction false} Exhausted(all: seq<ReadEvent>)
    requires NoStop(all)
    ensures FirstStop(all) == |all| && ReadOf(all) == Broken(BytesOf(all)) && RestOf(all) == []
  {
    assert all[..|all|] == all;
  }

  lemma StopHere(all: seq<ReadEvent>, i: nat)
    requires i < |all| && NoStop(all[..i]) && IsStop(all[i])
    ensures RestOf(all) == all[i + 1..]
    ensures ReadOf(all) == if all[i] != Got('\n') then Broken(BytesOf(all[..i]))
                           else if |StripCr(BytesOf(all[..i]))| > MAX_LINE_LEN then Discarded
                           else Line(StripCr(BytesOf(all[..i])))
  {
    FirstStopIs(all, i);
  }

  lemma {:induction false} FirstStopIs(all: seq<ReadEvent>, i: nat)
    requires i < |all| && NoStop(all[..i]) && IsStop(all[i])
    ensures FirstStop(all) == i
    decreases i
  {
    if i > 0 {
      assert all[..i][0] == all[0];
      assert all[..i][1..] == all[1..][..i - 1];
      FirstStopIs(all[1..], i - 1);
    }
  }

  lemma Extend(all: seq<ReadEvent>, i: nat)
    requires i < |all| && NoStop(all[..i]) && !IsStop(all[i])
    ensures NoStop(all[..i + 1])
    ensures BytesOf(all[..i + 1]) == BytesOf(all[..i]) + if all[i].Got? then [all[i].c] else ""
  {
    assert all[..i + 1] == all[..i] + [all[i]];
    BytesConcat(all[..i], [all[i]]);
  }

  // ------------------------------------------------------------------ round trips

  /** A stream that brings all its bytes: no failed read and no expiry. */
  predicate Steady(events: seq<ReadEvent>) {
    forall i :: 0 <= i < |events| ==> !events[i].Failed? && !events[i].Expired?
  }

  /** The first newline byte is where a steady stream stops. */
  lemma {:induction false} StopsAtNewline(events: seq<ReadEvent>, text: string, rest: string)
    requires Steady(events) && '\n' !in text
    requires BytesOf(events) == text + "\n" + rest
    ensures var i := FirstStop(events);
            i < |events| && events[i] == Got('\n')
            && BytesOf(events[..i]) == text && BytesOf(events[i + 1..]) == rest
    decreases |events|
  {
    var all := text + "\n" + rest;
    assert all[|text|] == '\n';
    var tail := events[1..];
    if events[0].Got? {
      assert events[0].c == all[0] && BytesOf(tail) == all[1..];
      if text == "" {
        assert all[1..] == rest && FirstStop(events) == 0;
      } else {
        assert all[0] == text[0] && text[0] in text;
        assert all[1..] == text[1..] + "\n" + rest;
        StopsAtNewline(tail, text[1..], rest);
        StopsLater(events);
      }
    } else {
      assert BytesOf(tail) == all;
      StopsAtNewline(tail, text, rest);
      StopsLater(events);
    }
  }

  lemma StopsLater(events: seq<ReadEvent>)
    requires events != [] && !IsStop(events[0])
    ensures var i := FirstStop(events[1..]);
            FirstStop(events) == i + 1 && events[1..][..i] == events[1..i + 1]
            && BytesOf(events[..i + 1]) == (if events[0].Got? then [events[0].c] else "") + BytesOf(events[1..][..i])
            && (i < |events[1..]| ==> events[1..][i + 1..] == events[i + 2..])
  {
    var i := FirstStop(events[1..]);
    assert events[..i + 1][1..] == events[1..][..i];
  }

  /** Reading back the bytes of one written line, however the reads are spread out. */
  lemma FramingRoundTrip(cmd: string, events: seq<ReadEvent>, more: string)
    requires Steady(events) && BytesOf(events) == Frame(cmd) + more && '\n' !in cmd
    ensures ReadOf(events) == if |cmd| <= MAX_LINE_LEN then Line(cmd) else Discarded
    ensures BytesOf(RestOf(events)) == more
  {
    assert Frame(cmd) + more == (cmd + "\r") + "\n" + more;
    StopsAtNewline(events, cmd + "\r", more);
    assert StripCr(cmd + "\r") == cmd;
  }

  /** A line that ends in a newline alone is read as it stands. */
  lemma BareNewline(text: string, events: seq<ReadEvent>, more: string)
    requires Steady(events) && BytesOf(events) == text + "\n" + more
    requires '\n' !in text && (text == "" || text[|text| - 1] != '\r')
    ensures ReadOf(events) == if |text| <= MAX_LINE_LEN then Line(text) else Discarded
    ensures BytesOf(RestOf(events)) == more
  {
    StopsAtNewline(events, text, more);
    assert StripCr(text) == text;
  }

  /** A line is read back as it was written exactly if it has no newline and at most 8192 characters. */
  lemma ReadBackIff(cmd: string, events: seq<ReadEvent>)
    requires Steady(events) && BytesOf(events) == Frame(cmd)
    ensures ReadOf(events) == Line(cmd) <==> '\n' !in cmd && |cmd| <= MAX_LINE_LEN
  {
    if '\n' !in cmd {
      assert Frame(cmd) + "" == Frame(cmd);
      FramingRoundTrip(cmd, events, "");
    } else {
      NoNewlineInLine(events);
    }
  }

  lemma {:induction false} NoNewlineBytes(events: seq<ReadEvent>)
    requires NoStop(events)
    ensures '\n' !in BytesOf(events)
    decreases |events|
  {
    if events != [] {
      NoNewlineBytes(events[1..]);
    }
  }

  lemma NoNewlineInLine(events: seq<ReadEvent>)
    ensures ReadOf(events).Line? ==> '\n' !in ReadOf(events).text
  {
    NoNewlineBytes(events[..FirstStop(events)]);
  }

  // ------------------------------------------------------------------ the reader loop

  /** The lines that the reader loop hands on; a read that yields none is repeated. */
  function Lines(events: seq<ReadEvent>): seq<string>
    decreases |events|
  {
    if events == [] then []
    else (match ReadOf(events) case Line(text) => [text] case _ => []) + Lines(RestOf(events))
  }

  /** The reader loop's reads, until the stream ends. */
  method ReadLines(port: SerialPort) returns (lines: seq<string>)
    requires port.open
    modifies port`events
    ensures lines == Lines(old(port.events)) && port.events == []
  {
    hide FirstStop, BytesOf, ReadOf, RestOf, Lines;
    lines := [];
    while port.events != []
      invariant port.open
      invariant lines + Lines(port.events) == Lines(old(port.events))
      decreases |port.events|
    {
      LinesGoOn(port.events);
      var ok, line := port.ReadLine("");
      if ok {
        lines := lines + [line];
      }
    }
    NoMoreLines();
  }

  lemma LinesGoOn(events: seq<ReadEvent>)
    requires events != []
    ensures Lines(events) ==
      (match ReadOf(events) case Line(text) => [text] case _ => []) + Lines(RestOf(events))
  {
  }

  lemma NoMoreLines()
    ensures Lines([]) == []
  {
  }

  function Frames(cmds: seq<string>): string {
    if cmds == [] then "" else Frame(cmds[0]) + Frames(cmds[1..])
  }

  /** The commands that fit. */
  function Fitting(cmds: seq<string>): seq<string> {
    if cmds == [] then []
    else (if |cmds[0]| <= MAX_LINE_LEN then [cmds[0]] else []) + Fitting(cmds[1..])
  }

  predicate NewlineFree(cmds: seq<string>) {
    forall i :: 0 <= i < |cmds| ==> '\n' !in cmds[i]
  }

  /** A read may end for lack of time or by an error, but never while bytes of a line have come in; `pending` says that
      some have. */
  predicate Intact(events: seq<ReadEvent>, pending: bool) {
    events == [] ||
    match events[0]
    case Got(c) => Intact(events[1..], c != '\n')
    case Nothing => Intact(events[1..], pending)
    case _ => !pending && Intact(events[1..], false)
  }

  lemma {:induction false} SteadyIsIntact(events: seq<ReadEvent>, pending: bool)
    requires Steady(events)
    ensures Intact(events, pending)
    decreases |events|
  {
    if events != [] {
      assert !events[0].Failed? && !events[0].Expired?;
      SteadyIsIntact(events[1..], if events[0].Got? then events[0].c != '\n' else pending);
    }
  }

  /** A read of an intact stream ends at a newline, or has read nothing, and leaves an intact stream. */
  lemma {:induction false} IntactRead(events: seq<ReadEvent>, pending: bool)
    requires Intact(events, pending)
    ensures var i := FirstStop(events);
      i < |events| ==>
        Intact(events[i + 1..], false) && (events[i] != Got('\n') ==> !pending && BytesOf(events[..i]) == "")
    decreases |events|
  {
    if events != [] && !IsStop(events[0]) {
      IntactRead(events[1..], if events[0].Got? then true else pending);
      StopsLater(events);
    }
  }

  /** The first newline splits a text in one way. */
  lemma {:induction false} SplitsOnce(a: string, b: string, c: string, d: string)
    requires '\n' !in a && '\n' !in c && a + "\n" + b == c + "\n" + d
    ensures a == c && b == d
    decreases |a|
  {
    var all := a + "\n" + b;
    var other := c + "\n" + d;
    assert a != "" ==> all[0] == a[0] && a[0] in a && all[1..] == a[1..] + "\n" + b;
    assert c != "" ==> other[0] == c[0] && c[0] in c && other[1..] == c[1..] + "\n" + d;
    assert a == "" ==> all[0] == '\n' && all[1..] == b;
    assert c == "" ==> other[0] == '\n' && other[1..] == d;
    if a != "" && c != "" {
      SplitsOnce(a[1..], b, c[1..], d);
    }
  }

  lemma BytesAt(events: seq<ReadEvent>, i: nat)
    requires i < |events|
    ensures BytesOf(events) ==
            BytesOf(events[..i]) + ((if events[i].Got? then [events[i].c] else "") + BytesOf(events[i + 1..]))
  {
    hide BytesOf;
    var front, back := events[..i], events[i..];
    assert events == front + back;
    BytesConcat(front, back);
    assert back[1..] == events[i + 1..];
    BytesFirst(back);
  }

  /** The bytes around the end of the first read. */
  lemma BytesAround(events: seq<ReadEvent>)
    ensures var i := FirstStop(events);
      && '\n' !in BytesOf(events[..i])
      && (i < |events| ==>
          BytesOf(events) == BytesOf(events[..i]) + ((if events[i].Got? then "\n" else "") + BytesOf(events[i + 1..])))
      && (i == |events| ==> '\n' !in BytesOf(events))
  {
    hide BytesOf, FirstStop;
    var i := FirstStop(events);
    var front := events[..i];
    assert NoStop(front) by { hide IsStop; }
    NoNewlineBytes(front);
    if i < |events| {
      BytesAt(events, i);
    } else {
      assert front == events;
    }
  }

  /** The lines of a stream, by its first read. */
  lemma FirstLine(events: seq<ReadEvent>)
    requires FirstStop(events) < |events|
    ensures var i := FirstStop(events); var text := StripCr(BytesOf(events[..i]));
      Lines(events) ==
      (if events[i] == Got('\n') && |text| <= MAX_LINE_LEN then [text] else []) + Lines(events[i + 1..])
  {
    LinesGoOn(events);
    hide BytesOf, StripCr, Lines;
  }

  lemma StripsBack(cmd: string)
    ensures StripCr(cmd + "\r") == cmd
  {
  }

  /** The reader gets exactly the written commands that fit, in order, however the reads are spread out and however
      often they end between two lines. */
  lemma {:induction false} ReaderGetsCommands(cmds: seq<string>, events: seq<ReadEvent>)
    requires Intact(events, false) && BytesOf(events) == Frames(cmds) && NewlineFree(cmds)
    ensures Lines(events) == Fitting(cmds)
    decreases |events|
  {
    hide FirstStop, Intact, NewlineFree, Fitting, Frames, BytesOf, Lines, ReadOf, RestOf, StripCr;
    var i := FirstStop(events);
    IntactRead(events, false);
    BytesAround(events);
    FirstFrame(cmds);
    if i < |events| {
      FirstLine(events);
      var front, rest := BytesOf(events[..i]), events[i + 1..];
      if events[i] != Got('\n') {
        assert !events[i].Got?;
        assert BytesOf(rest) == Frames(cmds);
        ReaderGetsCommands(cmds, rest);
      } else {
        assert BytesOf(events) == front + "\n" + BytesOf(rest);
        SplitsOnce(front, BytesOf(rest), cmds[0] + "\r", Frames(cmds[1..]));
        StripsBack(cmds[0]);
        ReaderGetsCommands(cmds[1..], rest);
      }
    } else {
      NoLineLeft(events);
    }
  }

  /** The shape of the text of a script. */
  lemma FirstFrame(cmds: seq<string>)
    requires NewlineFree(cmds)
    ensures cmds == [] ==> Frames(cmds) == "" && Fitting(cmds) == []
    ensures cmds != [] ==>
      && Frames(cmds) == (cmds[0] + "\r") + "\n" + Frames(cmds[1..]) && '\n' in Frames(cmds)
      && '\n' !in cmds[0] + "\r" && NewlineFree(cmds[1..])
      && Fitting(cmds) == (if |cmds[0]| <= MAX_LINE_LEN then [cmds[0]] else []) + Fitting(cmds[1..])
  {
    if cmds != [] {
      var front, rest := cmds[0] + "\r", Frames(cmds[1..]);
      assert Frames(cmds) == Frame(cmds[0]) + rest;
      hide Frames, Fitting;
      FrameText(cmds[0], rest);
      assert (front + "\n" + rest)[|front|] == '\n';
    }
  }

  lemma FrameText(cmd: string, rest: string)
    ensures Frame(cmd) + rest == (cmd + "\r") + "\n" + rest
  {
  }

  lemma NoLineLeft(events: seq<ReadEvent>)
    requires FirstStop(events) == |events|
    ensures Lines(events) == []
  {
    if events != [] {
      LinesGoOn(events);
      NoMoreLines();
    }
  }

  /** When a read ends inside a line, the part that has come in is lost, and the part behind it is taken for a line. */
  lemma BrokenLine(front: seq<ReadEvent>, e: ReadEvent, back: seq<ReadEvent>, more: seq<ReadEvent>, tail: string)
    requires NoStop(front) && (e.Failed? || e.Expired?)
    requires Steady(back) && BytesOf(back) == tail + "\r\n" && '\n' !in tail && back[|back| - 1] == Got('\n')
    ensures Lines(front + [e] + back + more) == (if |tail| <= MAX_LINE_LEN then [tail] else []) + Lines(more)
  {
    hide ReadOf, RestOf, Lines;
    LostPart(front, e, back + more);
    assert front + [e] + (back + more) == front + [e] + back + more;
    LastNewline(back, tail);
    WholeLine(back, more, tail);
  }

  lemma LostPart(front: seq<ReadEvent>, e: ReadEvent, rest: seq<ReadEvent>)
    requires NoStop(front) && (e.Failed? || e.Expired?)
    ensures Lines(front + [e] + rest) == Lines(rest)
  {
    var events := front + [e] + rest;
    assert events[..|front|] == front && events[|front| + 1..] == rest;
    StopHere(events, |front|);
    LinesGoOn(events);
  }

  lemma LastNewline(back: seq<ReadEvent>, tail: string)
    requires Steady(back) && BytesOf(back) == tail + "\r\n" && '\n' !in tail
    requires back != [] && back[|back| - 1] == Got('\n')
    ensures NoStop(back[..|back| - 1]) && BytesOf(back[..|back| - 1]) == tail + "\r"
  {
    var front := back[..|back| - 1];
    assert back == front + [Got('\n')];
    BytesConcat(front, [Got('\n')]);
    assert BytesOf([Got('\n')]) == "\n" by { assert [Got('\n')][1..] == []; }
    hide BytesOf;
    assert BytesOf(front) + "\n" == (tail + "\r") + "\n";
    assert (BytesOf(front) + "\n")[..|BytesOf(front)|] == BytesOf(front);
    assert ((tail + "\r") + "\n")[..|tail| + 1] == tail + "\r";
    NoStopWithoutNewline(front);
  }

  lemma WholeLine(back: seq<ReadEvent>, more: seq<ReadEvent>, tail: string)
    requires back != [] && back[|back| - 1] == Got('\n')
    requires NoStop(back[..|back| - 1]) && BytesOf(back[..|back| - 1]) == tail + "\r"
    ensures Lines(back + more) == (if |tail| <= MAX_LINE_LEN then [tail] else []) + Lines(more)
  {
    var events, i := back + more, |back| - 1;
    assert events[..i] == back[..i] && events[i + 1..] == more;
    StopHere(events, i);
    assert StripCr(tail + "\r") == tail;
    LinesGoOn(events);
  }

  lemma {:induction false} NoStopWithoutNewline(events: seq<ReadEvent>)
    requires Steady(events) && '\n' !in BytesOf(events)
    ensures NoStop(events)
    decreases |events|
  {
    if events != [] {
      NoStopWithoutNewline(events[1..]);
      forall j | 0 <= j < |events| ensures !IsStop(events[j]) {
        assert j > 0 ==> events[j] == events[1..][j - 1];
      }
    }
  }
}
