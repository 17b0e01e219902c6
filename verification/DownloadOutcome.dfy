/**
  When a download succeeds, and which answer makes it fail with which error. The bytes of
  a body are those the part held before it, if it is resumed, and then its chunks.
*/
module DownloadOutcome {
  import opened Wrappers
  import opened DownloadModel
  import opened DownloadSafety

  // ---- It succeeds ----

  /** The hash or the size to check, when one is given, is the resource's. */
  ghost predicate Expects(hash: Bytes -> string, opt: Options, whole: Bytes) {
    && (opt.sha1.Some? ==> opt.sha1.value == hash(whole))
    && (opt.sha1.None? && opt.size.Some? ==> opt.size.value == |whole|)
  }

  /** A body or a 416, and no trouble with the disk. */
  predicate Smooth(a: Answer) {
    && a.Reply? && (a.status == 416 || 200 <= a.status <= 299) && !a.end.DiskError?
    && !a.faults.open && !a.faults.remove && !a.faults.rename
  }

  /** A body that comes to its end. */
  predicate Complete(a: Answer) { a.Reply? && 200 <= a.status <= 299 && a.end.Eof? }

  lemma {:induction false} WholePartInstalls(hash: Bytes -> string, opt: Options, whole: Bytes, f: Files,
      faults: Faults)
    requires f.part == Some(whole) && !faults.remove && !faults.rename
    ensures var (g, r) := Finalize(hash, opt, f, faults);
      && r == Ok(()) && g.part == None
      && (g.dest == Some(whole) || (opt.sha1.None? && HashOf(hash, f.dest) == Some(hash(whole)) && g.dest == f.dest))
  {
  }

  lemma {:induction false} SmoothAttempt(hash: Bytes -> string, opt: Options, whole: Bytes, f: Files, a: Answer)
    requires Expects(hash, opt, whole) && PartIsPrefix(whole, f) && Faithful(whole, PartSize(f), a) && Smooth(a)
    ensures var (g, v) := Attempt(hash, opt, f, a);
      && (v == Done(Ok(())) || (v == Retry && PartIsPrefix(whole, g) && g.dest == f.dest))
      && (v.Done? ==> g.part == None)
      && (Complete(a) ==> v.Done?)
  {
    if a.status == 416 {
      assert f.part.value == whole[..|whole|] == whole;
      WholePartInstalls(hash, opt, whole, f, a.faults);
    } else {
      WritingKeepsPrefix(whole, f, a, |a.chunks|);
      if a.end.Eof? {
        WholePartInstalls(hash, opt, whole, Writing(f, a, |a.chunks|), a.faults);
      }
    }
  }

  lemma {:induction false} SmoothAttempts(hash: Bytes -> string, opt: Options, whole: Bytes, f: Files,
      script: seq<Answer>)
    requires Expects(hash, opt, whole) && PartIsPrefix(whole, f) && FaithfulRun(hash, opt, whole, f, script)
    requires (forall i :: 0 <= i < |script| ==> Smooth(script[i]))
    requires exists i :: 0 <= i < |script| && Complete(script[i])
    ensures var (g, r) := Attempts(hash, opt, f, script); r == Ok(()) && g.part == None
    decreases |script|
  {
    SmoothAttempt(hash, opt, whole, f, script[0]);
    var (g, v) := Attempt(hash, opt, f, script[0]);
    if v.Retry? {
      var i :| 0 <= i < |script| && Complete(script[i]);
      assert script[1..][i - 1] == script[i];
      SmoothAttempts(hash, opt, whole, g, script[1..]);
    }
  }

  /**
    From any prefix of the resource and from faithful servers, through any number of
    interruptions and 416 answers: a download to which one complete body is sent succeeds.
    With a hash, or with neither hash nor size, the resource is in place then, and unless
    the destination was right from the start no part is left.
  */
  lemma {:induction false} CompleteBodySucceeds(hash: Bytes -> string, opt: Options, whole: Bytes, f: Files,
      setup: Faults, script: seq<Answer>)
    requires CollisionFree(hash) && Expects(hash, opt, whole) && PartIsPrefix(whole, f)
    requires FaithfulRun(hash, opt, whole, f, script) && !setup.open && !setup.remove && !setup.rename
    requires (forall i :: 0 <= i < |script| ==> Smooth(script[i]))
    requires exists i :: 0 <= i < |script| && Complete(script[i])
    ensures var (g, r) := Download(hash, opt, f, setup, script);
      && r == Ok(())
      && (opt.sha1.Some? || opt.size.None? ==> g.dest == Some(whole))
      && (opt.size.Some? && opt.sha1.None? ==> SizeOf(g.dest) == Some(|whole|))
      && (!Verifies(hash, opt, f.dest) ==> g.part == None)
  {
    FaithfulDownload(hash, opt, whole, f, setup, script);
    if opt.size.Some? && opt.sha1.None? {
      SizeOnlyGivesSize(hash, opt, f, setup, script);
    }
    if !Verifies(hash, opt, f.dest) {
      SmoothAttempts(hash, opt, whole, f, script);
    }
  }

  /** A download that takes its destination or its part as it is asks no server. */
  lemma {:induction false} NothingAsked(hash: Bytes -> string, opt: Options, f: Files, setup: Faults,
      s: seq<Answer>, t: seq<Answer>)
    requires !setup.open
    requires match opt.sha1
             case Some(h) => HashOf(hash, f.dest) == Some(h) || (PartSize(f) > 0 && HashOf(hash, f.part) == Some(h))
             case None => opt.size.Some? && SizeOf(f.dest) == opt.size
    ensures Download(hash, opt, f, setup, s) == Download(hash, opt, f, setup, t)
    ensures !setup.rename ==> Download(hash, opt, f, setup, s).1 == Ok(())
  {
  }

  // ---- It keeps what it got ----

  /** How many bytes an answer adds to what it resumes, or brings from the start. */
  function Offset(f: Files, a: Answer): (n: nat) { if a.Reply? && a.status == 206 then PartSize(f) else 0 }

  /**
    After a body that broke off the part is the resource up to the last byte that came, and
    the next try goes on there.
  */
  lemma {:induction false} InterruptionKeepsBytes(hash: Bytes -> string, opt: Options, whole: Bytes, f: Files,
      a: Answer)
    requires PartIsPrefix(whole, f) && Faithful(whole, PartSize(f), a) && Smooth(a) && a.end.Broken? && a.status != 416
    ensures var (g, v) := Attempt(hash, opt, f, a);
      var n := Offset(f, a) + |Concat(a.chunks)|;
      && v == Retry && g.dest == f.dest
      && n <= |whole| && g.part == Some(whole[..n]) && PartSize(g) == n
  {
    var got := Concat(a.chunks);
    assert a.chunks[..|a.chunks|] == a.chunks;
    if a.status == 206 {
      var p := f.part.value;
      AppendPrefix(p, got, whole);
      assert whole[..|p| + |got|] == p + got;
    } else {
      assert whole[..|got|] == got && [] + got == got;
    }
  }

  // ---- Which answer fails it ----

  /** The bytes the part holds once the body of the answer is written. */
  function Received(f: Files, a: Answer): (b: Bytes)
    requires a.Reply?
  {
    (if a.status == 206 && f.part.Some? then f.part.value else []) + Concat(a.chunks)
  }

  lemma {:induction false} BodyIsReceived(f: Files, a: Answer)
    requires a.Reply?
    ensures Writing(f, a, |a.chunks|) == Files(f.dest, Some(Received(f, a)))
  {
    assert a.chunks[..|a.chunks|] == a.chunks;
    if f.part.Some? && f.part.value == [] {
      assert [] + Concat(a.chunks) == Concat(a.chunks);
    }
  }

  /** A request that fails, and a status other than 416 outside 200 to 299, end the download with their own error. */
  lemma {:induction false} RefusalEnds(hash: Bytes -> string, opt: Options, f: Files, a: Answer, rest: seq<Answer>)
    requires a.Reply? ==> a.status != 416 && !(200 <= a.status <= 299)
    ensures Attempts(hash, opt, f, [a] + rest) ==
      (f, Err(match a
              case NoAnswer(late) => if late then Timeout else Network
              case Reply(status, _, _, _) => Status(status)))
  {
  }

  /** A 416 throws a part away that does not verify, and the next try starts from nothing. */
  lemma {:induction false} UnfitPartIsDropped(hash: Bytes -> string, opt: Options, f: Files, a: Answer,
      rest: seq<Answer>)
    requires a.Reply? && a.status == 416 && !a.faults.remove
    requires match opt.sha1
             case Some(h) => HashOf(hash, f.part) != Some(h)
             case None => opt.size.None? || SizeOf(f.part) != opt.size
    ensures Attempts(hash, opt, f, [a] + rest) == Attempts(hash, opt, Files(f.dest, None), rest)
  {
    assert ([a] + rest)[1..] == rest;
  }

  /** A disk that fails during a body ends the download; a body that breaks off does not. */
  lemma {:induction false} BodyEndsOrRetries(hash: Bytes -> string, opt: Options, f: Files, a: Answer,
      rest: seq<Answer>)
    requires a.Reply? && 200 <= a.status <= 299
    ensures a.faults.open ==> Attempts(hash, opt, f, [a] + rest) == (f, Err(Io))
    ensures !a.faults.open && a.end.DiskError? ==>
      Attempts(hash, opt, f, [a] + rest) == (Files(f.dest, Some(Received(f, a))), Err(Io))
    ensures !a.faults.open && a.end.Broken? ==>
      Attempts(hash, opt, f, [a] + rest) == Attempts(hash, opt, Files(f.dest, Some(Received(f, a))), rest)
  {
    BodyIsReceived(f, a);
    assert ([a] + rest)[1..] == rest;
  }

  /**
    A complete body of the wrong hash, or without a hash of the wrong size, ends the download
    and the part is thrown away.
  */
  lemma {:induction false} WrongBodyEnds(hash: Bytes -> string, opt: Options, f: Files, a: Answer, rest: seq<Answer>)
    requires Complete(a) && !a.faults.open && !a.faults.remove
    ensures opt.sha1.Some? && hash(Received(f, a)) != opt.sha1.value ==>
      Attempts(hash, opt, f, [a] + rest) == (Files(f.dest, None), Err(Sha1Mismatch))
    ensures opt.sha1.None? && opt.size.Some? && |Received(f, a)| != opt.size.value ==>
      Attempts(hash, opt, f, [a] + rest) == (Files(f.dest, None), Err(SizeMismatch))
  {
    BodyIsReceived(f, a);
  }

  /**
    A complete body that passes the check is put in place, unless the same bytes are there
    already; when the rename fails, the download succeeds exactly if the file there passes.
  */
  lemma {:induction false} RightBodyEnds(hash: Bytes -> string, opt: Options, f: Files, a: Answer, rest: seq<Answer>)
    requires Complete(a) && !a.faults.open && !a.faults.remove
    requires opt.sha1.Some? ==> hash(Received(f, a)) == opt.sha1.value
    requires opt.sha1.None? && opt.size.Some? ==> |Received(f, a)| == opt.size.value
    ensures var same := opt.sha1.None? && f.dest.Some? && hash(f.dest.value) == hash(Received(f, a));
      Attempts(hash, opt, f, [a] + rest) ==
        if same then (Files(f.dest, None), Ok(()))
        else if !a.faults.rename then (Files(Some(Received(f, a)), None), Ok(()))
        else (Files(f.dest, Some(Received(f, a))),
              if f.dest.Some? && (if opt.sha1.Some? then hash(f.dest.value) == opt.sha1.value
                                  else opt.size == Some(|f.dest.value|)) then Ok(()) else Err(RenameFailed))
  {
    BodyIsReceived(f, a);
  }

  /** With no attempt left the download is interrupted. */
  lemma {:induction false} AttemptsRunOut(hash: Bytes -> string, opt: Options, f: Files)
    ensures Attempts(hash, opt, f, []) == (f, Err(Interrupted))
  {
  }

  // ---- Both hosts ----

  /** What the second host answers is the answer, unless both were out of reach: then it is an error of the network. */
  lemma {:induction false} SecondHostDecides(hash: Bytes -> string, opt: Options, f: Files,
      first: (Faults, seq<Answer>), second: (Faults, seq<Answer>))
    requires ViaMirror(hash, opt, f, first, second).2
    ensures var (h, r, _) := ViaMirror(hash, opt, f, first, second);
      var (g, q) := Download(hash, opt, Download(hash, opt, f, first.0, first.1).0, second.0, second.1);
      && h == g
      && (r.Ok? <==> q.Ok?)
      && (q.Err? ==> r.error == if q.error == Io || q.error == RenameFailed then Network else q.error)
  {
  }

  /** The second host is not asked when the first one answers or fails for good. */
  lemma {:induction false} FirstHostDecides(hash: Bytes -> string, opt: Options, f: Files,
      first: (Faults, seq<Answer>), second: (Faults, seq<Answer>))
    requires !ViaMirror(hash, opt, f, first, second).2
    ensures var (h, r, _) := ViaMirror(hash, opt, f, first, second);
      (h, r) == Download(hash, opt, f, first.0, first.1)
  {
  }
}
