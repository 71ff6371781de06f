/** What the name of an upload may lead to: files that another upload empties, and files that AT+VERIFY cannot name. */
module Names {
  import opened Common
  import opened AtText
  import opened Upload
  import opened UploadRuns
  import opened UploadFiles
  import opened Delivery

  // ------------------------------------------------------------------ temporary names

  /** A file published as "upload_x.tmp" is emptied by the next upload of "x", which PREUPLOAD takes. */
  lemma PublishedFileLost(w: World, dir: string, filename: string, x: string, chunks: seq<seq<Byte>>, opening: Outcome,
                          out: Outcome, closing: Outcome, size: nat, md5: string, other: string -> Byte)
    requires !w.up.active && ValidName(filename) && IsTmpNameOf(filename, x) && 0 < |Concat(chunks)| < TWO_TO_64
    requires forall i :: 0 <= i < |chunks| ==> |chunks[i]| < TWO_TO_32 && |chunks[i]| <= out.writes
    requires opening.opens && closing.renames && closing.lost == 0
    requires 0 < size < TWO_TO_64 && |md5| == 32 && AllHexDigits(md5)
    ensures var before := Script(filename, chunks, opening, out, closing);
      var w' := Run(w, dir, before, other);
      var s := Process(w', dir, Call(PreuploadLine(x, size, md5), opening), other);
      && Holds(w'.files, PathIn(dir, filename), Concat(chunks))
      && s.reply == Ready && Holds(s.world.files, PathIn(dir, filename), [])
  {
    hide Process, Concat, Md5Hex, PathIn, PreuploadLine, FrameCalls, Run, AllHexDigits, ValidName;
    NoCommaInTmpName(x);
    ScriptDelivers(w, dir, filename, chunks, opening, out, closing, other);
    var w' := Run(w, dir, Script(filename, chunks, opening, out, closing), other);
    TmpIsNotFinal(dir, filename);
    PromiseTaken(w', dir, opening, x, size, md5, other);
    hide TmpName;
  }

  lemma NoCommaInTmpName(x: string)
    requires ',' !in x
    ensures ',' !in TmpName(x)
  {
  }

  /** The client's commands for one upload. */
  function Script(filename: string, chunks: seq<seq<Byte>>, opening: Outcome, out: Outcome, closing: Outcome): seq<Call>
  {
    var data := Concat(chunks);
    [Call(PreuploadLine(filename, |data|, Md5Hex(data)), opening)] + FrameCalls(chunks, out)
    + [Call("AT+UPLOADDONE", closing)]
  }

  lemma {:induction false} RunSnoc(w: World, dir: string, cs: seq<Call>, c: Call, other: string -> Byte)
    ensures Run(w, dir, cs + [c], other) == Process(Run(w, dir, cs, other), dir, c, other).world
    decreases |cs|
  {
    hide Process;
    if cs == [] {
      assert cs + [c] == [c] && [c][1..] == [];
    } else {
      assert (cs + [c])[1..] == cs[1..] + [c];
      RunSnoc(Process(w, dir, cs[0], other).world, dir, cs[1..], c, other);
    }
  }

  lemma ScriptDelivers(w: World, dir: string, filename: string, chunks: seq<seq<Byte>>, opening: Outcome, out: Outcome,
                       closing: Outcome, other: string -> Byte)
    requires !w.up.active && ValidName(filename) && ',' !in filename && 0 < |Concat(chunks)| < TWO_TO_64
    requires forall i :: 0 <= i < |chunks| ==> |chunks[i]| < TWO_TO_32 && |chunks[i]| <= out.writes
    requires opening.opens && closing.renames && closing.lost == 0
    ensures Run(w, dir, Script(filename, chunks, opening, out, closing), other) ==
            World(IDLE, w.files[PathIn(dir, filename) := Concat(chunks)] - {PathIn(dir, TmpName(filename))},
                  w.fopens + 1, w.fcloses + 1)
  {
    hide Process, Concat, Md5Hex, PathIn, TmpName, PreuploadLine, FrameCalls, Run, ValidName;
    var data := Concat(chunks);
    var pre := Call(PreuploadLine(filename, |data|, Md5Hex(data)), opening);
    ChunksDelivered(w, dir, filename, chunks, opening, out, closing, other);
    RunSnoc(w, dir, [pre] + FrameCalls(chunks, out), Call("AT+UPLOADDONE", closing), other);
  }

  /** After some history, a run without an OK for `filename` changes the file of that name. */
  ghost predicate ChangesUnasked(files: Files, before: seq<Call>, cs: seq<Call>, dir: string, other: string -> Byte,
                                 filename: string) {
    var w := Run(Fresh(files).world, dir, before, other);
    !PublishedIn(Replies(w, dir, cs, other), filename)
    && !SameAt(w.files, Run(w, dir, cs, other).files, PathIn(dir, filename))
  }

  /** The file of a valid name can change without an OK for that name exactly if it is the temporary name of a name that
      PREUPLOAD takes. */
  lemma FinalFileIff(dir: string, other: string -> Byte, filename: string)
    requires ValidName(filename)
    ensures (exists files, before, cs :: ChangesUnasked(files, before, cs, dir, other, filename)) <==>
            exists x :: IsTmpNameOf(filename, x)
  {
    hide IsTmpNameOf, ValidName, ChangesUnasked;
    if IsPlain(filename) {
      forall files, before, cs ensures !ChangesUnasked(files, before, cs, dir, other, filename) {
        PlainUnchanged(files, before, cs, dir, other, filename);
      }
    } else {
      var x :| IsTmpNameOf(filename, x);
      EmptiedUnasked(dir, other, filename, x);
    }
  }

  lemma PlainUnchanged(files: Files, before: seq<Call>, cs: seq<Call>, dir: string, other: string -> Byte,
                       filename: string)
    requires IsPlain(filename)
    ensures !ChangesUnasked(files, before, cs, dir, other, filename)
  {
    hide Process, Run, Replies, IsPlain, SameAt, PathIn, PublishedIn;
    if !PublishedIn(Replies(Run(Fresh(files).world, dir, before, other), dir, cs, other), filename) {
      FinalFileOnlyByDone(files, dir, before, cs, other, filename);
    }
  }

  /** The witness publishes one byte under the name and then opens the other upload. */
  lemma EmptiedUnasked(dir: string, other: string -> Byte, filename: string, x: string)
    requires ValidName(filename) && IsTmpNameOf(filename, x)
    ensures exists files, before, cs :: ChangesUnasked(files, before, cs, dir, other, filename)
  {
    hide Process, Run, Md5Hex, PathIn, PreuploadLine, FrameCalls, ValidName, Script, IsTmpNameOf;
    var well, md5 := Outcome(true, 1, 0, true, true), Md5Hex([]);
    var chunks: seq<seq<Byte>> := [[0]];
    OneChunk();
    var files: Files := map[];
    var before, opens := Script(filename, chunks, well, well, well), Call(PreuploadLine(x, 1, md5), well);
    PublishedFileLost(Fresh(files).world, dir, filename, x, chunks, well, well, well, 1, md5, other);
    var w := Run(Fresh(files).world, dir, before, other);
    RunSnoc(w, dir, [], opens, other);
    RunNothing(w, dir, opens, other);
    assert [] + [opens] == [opens];
    assert ChangesUnasked(files, before, [opens], dir, other, filename);
  }

  lemma OneChunk()
    ensures Concat([[0]]) == [0]
  {
    assert [[0]][1..] == [];
  }

  lemma RunNothing(w: World, dir: string, c: Call, other: string -> Byte)
    ensures Run(w, dir, [], other) == w && Replies(w, dir, [c], other) == [Process(w, dir, c, other).reply]
  {
    hide Process;
    assert [c][1..] == [];
  }

  // ------------------------------------------------------------------ AT+VERIFY

  predicate EndsTrimmed(s: string) {
    s != "" && IsTrimmed(s[|s| - 1])
  }

  /** Trimming a line stops in front of its argument, or cuts only into it. */
  lemma {:induction false} TrimAfter(front: string, tail: string)
    requires front != "" && !IsTrimmed(front[|front| - 1])
    ensures Trim(front + tail) == front + Trim(tail)
    decreases |tail|
  {
    if tail == "" {
      assert front + tail == front;
    } else {
      var shorter := tail[..|tail| - 1];
      assert (front + tail)[..|front + tail| - 1] == front + shorter;
      if IsTrimmed(tail[|tail| - 1]) {
        TrimAfter(front, shorter);
      }
    }
  }

  lemma VerifyParses(name: string)
    ensures Parse("AT+VERIFY=" + name) == AtText.Command("VERIFY", Trim(name))
  {
    hide Parse, Trim;
    var raw := "AT+VERIFY=" + name;
    TrimAfter("AT+VERIFY=", name);
    assert "AT+VERIFY=" + Trim(name) == "AT+" + "VERIFY" + ("=" + Trim(name));
    assert UpperAll("VERIFY") == "VERIFY";
    ParseParts(raw, "VERIFY", "=" + Trim(name));
  }

  lemma ArgumentIsTrimmed(raw: string)
    ensures Parse(raw).Command? ==> !EndsTrimmed(Parse(raw).arg)
  {
    var cmd, p := Trim(raw), Parse(raw);
    assert p.Command? && p.arg != "" ==> p.arg[|p.arg| - 1] == cmd[|cmd| - 1];
  }

  /** A name can be given to AT+VERIFY exactly if it does not end in a carriage return, newline or space. */
  lemma VerifiableIff(name: string)
    ensures (exists raw :: Parse(raw) == AtText.Command("VERIFY", name)) <==> !EndsTrimmed(name)
  {
    hide Parse;
    if EndsTrimmed(name) {
      forall raw ensures Parse(raw) != AtText.Command("VERIFY", name) {
        ArgumentIsTrimmed(raw);
      }
    } else {
      VerifyParses(name);
      assert Trim(name) == name;
    }
  }

  /** What the line with a given name is answered. */
  lemma VerifyStep(w: World, dir: string, c: Call, name: string, other: string -> Byte)
    requires c.raw == "AT+VERIFY=" + name
    ensures Process(w, dir, c, other) == Step(w, Verify(w.files, dir, Trim(name)))
  {
    hide Parse, Verify, Trim;
    VerifyParses(name);
  }

  /** After a complete upload, and any commands that do not claim its file again, AT+VERIFY of its name reports the
      digest and size that UPLOADDONE reported, unless the name ends in a character that trimming removes; then it
      answers for the trimmed name. */
  lemma VerifyAgrees(o: Watched, dir: string, done: Call, cs: seq<Call>, verify: Call, other: string -> Byte)
    requires Inv(o, dir) && o.world.up.active && Closes(done) && o.log.stray == 0
    requires Process(o.world, dir, done, other).reply.Published?
    requires var path := PathIn(dir, o.world.up.filename);
      NeverClaimed(Process(o.world, dir, done, other).world, dir, cs, other, path)
    requires verify.raw == "AT+VERIFY=" + o.world.up.filename
    ensures var s, name := Process(o.world, dir, done, other), o.world.up.filename;
      var w := Run(s.world, dir, cs, other);
      var reply := Process(w, dir, verify, other).reply;
      && (!EndsTrimmed(name) ==> reply == Digested(s.reply.md5, s.reply.size))
      && (EndsTrimmed(name) ==> reply == Verify(w.files, dir, Trim(name)) && Trim(name) != name)
  {
    hide Process, PathIn, Md5Hex, TmpName, Contains, Run, NeverClaimed, Flushed, Parse;
    var u := o.world.up;
    var s := Process(o.world, dir, done, other);
    DoneExact(o, dir, done, other);
    StepKeeps(o, dir, done, other);
    RunLeaves(WatchOne(o, dir, done, other), dir, cs, other, PathIn(dir, u.filename));
    VerifyStep(Run(s.world, dir, cs, other), dir, verify, u.filename, other);
  }

  lemma TrimKeepsDotsOut(name: string)
    requires !Contains(name, "..")
    ensures !Contains(Trim(name), "..")
  {
    forall i | 0 <= i <= |Trim(name)| ensures !OccursAt(Trim(name), "..", i) {
      assert OccursAt(Trim(name), "..", i) ==> OccursAt(name, "..", i);
    }
  }

  /** A name that ends so can be published, and then its AT+VERIFY line reports on another file: the one of the trimmed
      name, or none. */
  lemma VerifiesAnotherFile(w: World, dir: string, filename: string, chunks: seq<seq<Byte>>, opening: Outcome,
                            out: Outcome, closing: Outcome, other: string -> Byte)
    requires !w.up.active && ValidName(filename) && ',' !in filename && 0 < |Concat(chunks)| < TWO_TO_64
    requires forall i :: 0 <= i < |chunks| ==> |chunks[i]| < TWO_TO_32 && |chunks[i]| <= out.writes
    requires opening.opens && closing.renames && closing.lost == 0
    requires EndsTrimmed(filename)
    ensures var w' := Run(w, dir, Script(filename, chunks, opening, out, closing), other);
      var reply := Process(w', dir, Call("AT+VERIFY=" + filename, out), other).reply;
      var trimmed := Trim(filename);
      && Holds(w'.files, PathIn(dir, filename), Concat(chunks))
      && (trimmed == "" ==> reply == Refused(VerifyNeedsArgument))
      && (trimmed != "" && PathIn(dir, trimmed) !in w.files ==> reply == Refused(CannotOpenFile(trimmed)))
      && (trimmed != "" && PathIn(dir, trimmed) in w.files ==>
          var data := w.files[PathIn(dir, trimmed)]; reply == Digested(Md5Hex(data), |data| % TWO_TO_64))
  {
    hide Process, Concat, Md5Hex, PathIn, Script, Run, Contains, Trim;
    var w', trimmed := Run(w, dir, Script(filename, chunks, opening, out, closing), other), Trim(filename);
    ScriptDelivers(w, dir, filename, chunks, opening, out, closing, other);
    VerifyStep(w', dir, Call("AT+VERIFY=" + filename, out), filename, other);
    TrimKeepsDotsOut(filename);
    assert |trimmed| < |filename| < |TmpName(filename)|;
    PathInInjective(dir, trimmed, filename);
    PathInInjective(dir, trimmed, TmpName(filename));
    TmpIsNotFinal(dir, filename);
    hide TmpName;
  }

  /** For instance "fw ": it is published, and AT+VERIFY of it finds no file. */
  lemma BlankAtTheEnd(dir: string, out: Outcome, other: string -> Byte)
    requires out.opens && out.writes >= 1 && out.lost == 0 && out.renames
    ensures var w' := Run(Fresh(map[]).world, dir, Script("fw ", [[0]], out, out, out), other);
      && Holds(w'.files, PathIn(dir, "fw "), [0])
      && Process(w', dir, Call("AT+VERIFY=fw ", out), other).reply == Refused(CannotOpenFile("fw"))
  {
    hide Process, PathIn, Script, Run, Md5Hex;
    OneChunk();
    assert Trim("fw ") == "fw" by { assert "fw "[..2] == "fw"; }
    assert !Contains("fw ", "..");
    assert "AT+VERIFY=" + "fw " == "AT+VERIFY=fw ";
    VerifiesAnotherFile(Fresh(map[]).world, dir, "fw ", [[0]], out, out, out, other);
  }
}
