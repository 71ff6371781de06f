/** Which files a run of commands changes, what UPLOADDONE publishes, and what is left behind. */
module UploadFiles {
  import opened Common
  import opened AtText
  import opened Upload
  import opened UploadRuns
  import Md5

  lemma PathInInjective(dir: string, a: string, b: string)
    ensures PathIn(dir, a) == PathIn(dir, b) <==> a == b
  {
    assert PathIn(dir, a)[|dir| + 1..] == a && PathIn(dir, b)[|dir| + 1..] == b;
  }

  /** A file's temporary path is never its final path. */
  lemma TmpIsNotFinal(dir: string, filename: string)
    ensures PathIn(dir, TmpName(filename)) != PathIn(dir, filename)
  {
    PathInInjective(dir, TmpName(filename), filename);
    assert |TmpName(filename)| == |filename| + 11;
  }

  // ------------------------------------------------------------------ the effect of UPLOADDONE

  /** UPLOADDONE publishes exactly if the accepted bytes have the promised size and digest and the rename succeeds. The
      published file is what `fclose` leaves of the temporary one, and that is the accepted bytes exactly if it begins
      with them and `fclose` lost as many bytes as short writes had left behind. Any other end leaves the final path
      alone. Either way the upload ends. */
  lemma DoneExact(o: Watched, dir: string, c: Call, other: string -> Byte)
    requires Inv(o, dir) && o.world.up.active && Parse(c.raw).Command? && Parse(c.raw).action == "UPLOADDONE"
    ensures var s, u, bytes := Process(o.world, dir, c, other), o.world.up, o.log.accepted;
      var final, stored := PathIn(dir, u.filename), o.world.files[u.tmpPath];
      && s.world.up == IDLE
      && (s.reply.Published? <==>
          |bytes| % TWO_TO_64 == u.expectedSize && Md5Hex(bytes) == u.expectedMd5 && c.out.renames)
      && (s.reply.Published? ==>
          && s.reply == Published(u.filename, u.expectedSize, Md5Hex(bytes))
          && final in s.world.files && s.world.files[final] == Flushed(stored, c.out.lost)
          && (s.world.files[final] == bytes <==> bytes <= stored && c.out.lost == o.log.stray)
          && u.tmpPath !in s.world.files)
      && (!s.reply.Published? ==>
          && SameAt(o.world.files, s.world.files, final)
          && (c.out.unlinks ==> u.tmpPath !in s.world.files))
  {
    hide Parse, ValidName, AllHexDigits, Md5Hex, PathIn, TmpName, Flushed;
    TmpIsNotFinal(dir, o.world.up.filename);
    if |o.log.accepted| % TWO_TO_64 == o.world.up.expectedSize {
      FlushedIs(o.world.files[o.world.up.tmpPath], c.out.lost, o.log.accepted, o.log.stray);
    }
  }

  lemma FlushedIs(stored: seq<Byte>, lost: nat, bytes: seq<Byte>, stray: nat)
    requires |stored| == |bytes| + stray && bytes != []
    ensures Flushed(stored, lost) == bytes <==> bytes <= stored && lost == stray
  {
    if lost == stray {
      assert |Flushed(stored, lost)| == |bytes|;
    }
  }

  /** So without loss at the end it takes that no write fell short, and without short writes that nothing is lost. */
  lemma PublishedIffComplete(o: Watched, dir: string, c: Call, other: string -> Byte)
    requires Inv(o, dir) && o.world.up.active && Parse(c.raw).Command? && Parse(c.raw).action == "UPLOADDONE"
    requires Process(o.world, dir, c, other).reply.Published?
    ensures var good := Holds(Process(o.world, dir, c, other).world.files, PathIn(dir, o.world.up.filename),
                              o.log.accepted);
      (c.out.lost == 0 ==> (good <==> o.log.stray == 0)) && (o.log.stray == 0 ==> (good <==> c.out.lost == 0))
  {
    hide Process, Parse, PathIn, Flushed, ValidName, AllHexDigits;
    DoneExact(o, dir, c, other);
  }

  predicate Holds(files: Files, path: string, data: seq<Byte>) {
    path in files && files[path] == data
  }

  predicate IsUpperHexLetter(c: char) {
    'A' <= c <= 'F'
  }

  lemma DigitIsLower(v: nat)
    requires v < 16
    ensures !IsUpperHexLetter(LowerHex(v))
  {
  }

  lemma {:induction false} HexIsLower(data: seq<Byte>, i: nat)
    requires i < |Hex(data)|
    ensures !IsUpperHexLetter(Hex(data)[i])
    decreases |data|
  {
    if i >= 2 {
      HexIsLower(data[1..], i - 2);
    } else {
      var n := data[0] as nat;
      DigitIsLower(n / 16);
      DigitIsLower(n % 16);
      hide LowerHex, IsUpperHexLetter;
      assert HexByte(data[0])[i] == LowerHex(if i == 0 then n / 16 else n % 16);
      assert Hex(data)[i] == HexByte(data[0])[i];
    }
  }

  /** A hexadecimal text in lower case. */
  function Lower(s: string): (t: string)
    ensures |t| == |s| && forall i :: 0 <= i < |s| ==> t[i] == if IsUpperHexLetter(s[i]) then s[i] - 'A' + 'a' else s[i]
  {
    seq(|s|, i requires 0 <= i < |s| => if IsUpperHexLetter(s[i]) then s[i] - 'A' + 'a' else s[i])
  }

  predicate HasUpperCase(s: string) {
    exists i :: 0 <= i < |s| && IsUpperHexLetter(s[i])
  }

  /** The digest is compared as lower-case text: with the right size, a promise that is right up to case is kept exactly
      if it has no upper-case letter. */
  lemma PromiseKeptIff(o: Watched, dir: string, c: Call, other: string -> Byte)
    requires Inv(o, dir) && o.world.up.active && Parse(c.raw).Command? && Parse(c.raw).action == "UPLOADDONE"
    requires |o.log.accepted| % TWO_TO_64 == o.world.up.expectedSize && c.out.renames
    requires Lower(o.world.up.expectedMd5) == Md5Hex(o.log.accepted)
    ensures Process(o.world, dir, c, other).reply.Published? <==> !HasUpperCase(o.world.up.expectedMd5)
  {
    hide Process, Inv, Parse, Md5Hex, Hex, Lower;
    DoneExact(o, dir, c, other);
    var promise, digest := o.world.up.expectedMd5, Md5Hex(o.log.accepted);
    if promise == digest {
      forall i | 0 <= i < |promise| ensures !IsUpperHexLetter(promise[i]) {
        DigestIsLower(o.log.accepted, i);
      }
    } else {
      assert !HasUpperCase(promise) ==> Lower(promise) == promise;
    }
  }

  lemma DigestIsLower(m: seq<Byte>, i: nat)
    requires i < 32
    ensures !IsUpperHexLetter(Md5Hex(m)[i])
  {
    HexIsLower(Md5.Digest(m), i);
    hide Hex;
  }

  /** A promise with an upper-case letter is never kept, whatever arrives. */
  lemma UpperCaseNeverPublishes(o: Watched, dir: string, c: Call, other: string -> Byte, i: nat)
    requires Inv(o, dir) && o.world.up.active && Parse(c.raw).Command? && Parse(c.raw).action == "UPLOADDONE"
    requires i < 32 && IsUpperHexLetter(o.world.up.expectedMd5[i])
    ensures !Process(o.world, dir, c, other).reply.Published?
  {
    hide Process, Inv, Parse, Md5Hex;
    DoneExact(o, dir, c, other);
    DigestIsLower(o.log.accepted, i);
  }

  // ------------------------------------------------------------------ what a run leaves alone

  predicate SameAt(before: Files, after: Files, path: string) {
    (path in before <==> path in after) && (path in before ==> before[path] == after[path])
  }

  predicate WorksOn(w: World, path: string) {
    w.up.active && w.up.tmpPath == path
  }

  /** A step that opens `path` as a temporary file, or publishes to it. */
  predicate Claims(s: Step, dir: string, path: string) {
    (s.reply.Ready? && s.world.up.tmpPath == path) || (s.reply.Published? && PathIn(dir, s.reply.filename) == path)
  }

  lemma StepLeaves(o: Watched, dir: string, c: Call, other: string -> Byte, path: string)
    requires Inv(o, dir) && !WorksOn(o.world, path) && !Claims(Process(o.world, dir, c, other), dir, path)
    ensures var w := Process(o.world, dir, c, other).world;
            SameAt(o.world.files, w.files, path) && !WorksOn(w, path)
  {
    hide Parse, ReadRequest, Judge, Md5Hex, PathIn, TmpName, InProgress, Contains;
  }

  predicate NeverClaimed(w: World, dir: string, cs: seq<Call>, other: string -> Byte, path: string)
    decreases |cs|
  {
    cs == [] || (var s := Process(w, dir, cs[0], other);
                 !Claims(s, dir, path) && NeverClaimed(s.world, dir, cs[1..], other, path))
  }

  /** A path that no upload works on and no step of the run claims keeps its file. */
  lemma {:induction false} RunLeaves(o: Watched, dir: string, cs: seq<Call>, other: string -> Byte, path: string)
    requires Inv(o, dir) && !WorksOn(o.world, path) && NeverClaimed(o.world, dir, cs, other, path)
    ensures SameAt(o.world.files, Run(o.world, dir, cs, other).files, path)
    decreases |cs|
  {
    hide Inv, Process, Claims, Note, WorksOn;
    if cs != [] {
      StepKeeps(o, dir, cs[0], other);
      StepLeaves(o, dir, cs[0], other, path);
      RunLeaves(WatchOne(o, dir, cs[0], other), dir, cs[1..], other, path);
    }
  }

  /** The replies of a run. */
  function Replies(w: World, dir: string, cs: seq<Call>, other: string -> Byte): seq<Reply>
    decreases |cs|
  {
    if cs == [] then []
    else
      var s := Process(w, dir, cs[0], other);
      [s.reply] + Replies(s.world, dir, cs[1..], other)
  }

  predicate PublishedIn(replies: seq<Reply>, filename: string) {
    exists i :: 0 <= i < |replies| && replies[i].Published? && replies[i].filename == filename
  }

  /** The name under which an upload of `x` keeps its data; `x` is a name that PREUPLOAD takes. */
  predicate IsTmpNameOf(filename: string, x: string) {
    ValidName(x) && ',' !in x && TmpName(x) == filename
  }

  /** A name that is no upload's temporary name. */
  ghost predicate IsPlain(filename: string) {
    forall x :: !IsTmpNameOf(filename, x)
  }

  /** The final file of a plain name changes only by an UPLOADDONE that replies OK for that name. */
  lemma FinalFileOnlyByDone(files: Files, dir: string, before: seq<Call>, cs: seq<Call>, other: string -> Byte,
                            filename: string)
    requires IsPlain(filename)
    requires var w := Run(Fresh(files).world, dir, before, other);
             !PublishedIn(Replies(w, dir, cs, other), filename)
    ensures var w := Run(Fresh(files).world, dir, before, other);
            SameAt(w.files, Run(w, dir, cs, other).files, PathIn(dir, filename))
  {
    hide Inv, Process;
    var o := Watch(Fresh(files), dir, before, other);
    EveryRun(files, dir, before, other);
    WatchIsRun(Fresh(files), dir, before, other);
    PlainIsNotTmp(o, dir, filename);
    PlainNeverClaimed(o, dir, cs, other, filename);
    RunLeaves(o, dir, cs, other, PathIn(dir, filename));
  }

  lemma PlainIsNotTmp(o: Watched, dir: string, filename: string)
    requires Inv(o, dir) && IsPlain(filename)
    ensures !WorksOn(o.world, PathIn(dir, filename))
  {
    PathInInjective(dir, TmpName(o.world.up.filename), filename);
    assert !IsTmpNameOf(filename, o.world.up.filename);
    hide TmpName, ValidName;
  }

  lemma {:induction false} PlainNeverClaimed(o: Watched, dir: string, cs: seq<Call>, other: string -> Byte,
                                             filename: string)
    requires Inv(o, dir) && IsPlain(filename) && !PublishedIn(Replies(o.world, dir, cs, other), filename)
    ensures NeverClaimed(o.world, dir, cs, other, PathIn(dir, filename))
    decreases |cs|
  {
    hide Inv, Process, Note, PathIn, IsPlain;
    if cs != [] {
      var s, all := Process(o.world, dir, cs[0], other), Replies(o.world, dir, cs, other);
      var rest := Replies(s.world, dir, cs[1..], other);
      assert all[0] == s.reply && all[1..] == rest;
      forall i | 0 <= i < |rest| ensures !(rest[i].Published? && rest[i].filename == filename) {
        assert rest[i] == all[i + 1];
      }
      StepKeeps(o, dir, cs[0], other);
      PlainNotClaimed(o, dir, cs[0], other, filename);
      PlainNeverClaimed(WatchOne(o, dir, cs[0], other), dir, cs[1..], other, filename);
    }
  }

  lemma PlainNotClaimed(o: Watched, dir: string, c: Call, other: string -> Byte, filename: string)
    requires Inv(o, dir) && IsPlain(filename)
    requires var s := Process(o.world, dir, c, other); !(s.reply.Published? && s.reply.filename == filename)
    ensures !Claims(Process(o.world, dir, c, other), dir, PathIn(dir, filename))
  {
    var s := Process(o.world, dir, c, other);
    StepKeeps(o, dir, c, other);
    PlainIsNotTmp(WatchOne(o, dir, c, other), dir, filename);
    if s.reply.Published? {
      PathInInjective(dir, s.reply.filename, filename);
    }
    ReadyIsActive(o.world, dir, c, other);
    hide Process, Inv, Note, PathIn, IsPlain;
  }

  lemma ReadyIsActive(w: World, dir: string, c: Call, other: string -> Byte)
    ensures var s := Process(w, dir, c, other); s.reply.Ready? ==> s.world.up.active
  {
    hide Parse, ReadRequest, Judge, Md5Hex, PathIn, TmpName, Contains;
    forall arg {
      JudgeReply(arg, other);
    }
  }

  // ------------------------------------------------------------------ cleanup

  /** No file but those there at the start, the published ones and the temporary file of an upload in progress. */
  predicate Clean(o: Watched, initial: set<string>) {
    o.world.files.Keys <= initial + o.log.published + (if o.world.up.active then {o.world.up.tmpPath} else {})
  }

  lemma StepClean(o: Watched, dir: string, c: Call, other: string -> Byte, initial: set<string>)
    requires Inv(o, dir) && Clean(o, initial) && c.out.unlinks
    ensures Clean(WatchOne(o, dir, c, other), initial)
  {
    hide Parse, ReadRequest, Judge, Md5Hex, PathIn, TmpName, Contains, Payload, InProgress;
    forall arg {
      JudgeReply(arg, other);
    }
  }

  /** While removals succeed, a run leaves no temporary file behind. */
  lemma {:induction false} RunClean(o: Watched, dir: string, cs: seq<Call>, other: string -> Byte,
                                    initial: set<string>)
    requires Inv(o, dir) && Clean(o, initial) && forall i :: 0 <= i < |cs| ==> cs[i].out.unlinks
    ensures Clean(Watch(o, dir, cs, other), initial)
    decreases |cs|
  {
    hide Inv, Clean, WatchOne;
    if cs != [] {
      StepKeeps(o, dir, cs[0], other);
      StepClean(o, dir, cs[0], other, initial);
      RunClean(WatchOne(o, dir, cs[0], other), dir, cs[1..], other, initial);
    }
  }

  lemma NoTemporaryFileLeft(files: Files, dir: string, cs: seq<Call>, other: string -> Byte)
    requires forall i :: 0 <= i < |cs| ==> cs[i].out.unlinks
    ensures var o := Watch(Fresh(files), dir, cs, other);
            !o.world.up.active ==> o.world.files.Keys <= files.Keys + o.log.published
  {
    RunClean(Fresh(files), dir, cs, other, files.Keys);
  }
}
