/**
  What a download guarantees over every script of answers and local faults, and
  over a switch to the mirror.
*/
module DownloadSafety {
  import opened Wrappers
  import opened DownloadModel

  ghost predicate CollisionFree(hash: Bytes -> string) {
    forall a: Bytes, b: Bytes :: hash(a) == hash(b) ==> a == b
  }

  // ---- The hash guards the destination, whatever the servers send ----

  /** The files after a run differ in the destination only by content that carries the expected hash. */
  ghost predicate Guarded(hash: Bytes -> string, s: string, f: Files, g: Files, r: Result<(), Error>) {
    && (g.dest != f.dest ==> HashOf(hash, g.dest) == Some(s))
    && (r.Ok? ==> HashOf(hash, g.dest) == Some(s))
    && (r.Err? ==> g.dest == f.dest)
  }

  lemma {:induction false} AttemptGuards(hash: Bytes -> string, opt: Options, f: Files, a: Answer)
    requires opt.sha1.Some?
    ensures var (g, v) := Attempt(hash, opt, f, a);
      match v
      case Retry => g.dest == f.dest
      case Done(r) => Guarded(hash, opt.sha1.value, f, g, r)
  {
  }

  lemma {:induction false} AttemptsGuard(hash: Bytes -> string, opt: Options, f: Files, script: seq<Answer>)
    requires opt.sha1.Some?
    ensures var (g, r) := Attempts(hash, opt, f, script); Guarded(hash, opt.sha1.value, f, g, r)
    decreases |script|
  {
    if script != [] {
      AttemptGuards(hash, opt, f, script[0]);
      var (g, v) := Attempt(hash, opt, f, script[0]);
      if v.Retry? {
        AttemptsGuard(hash, opt, g, script[1..]);
      }
    }
  }

  /** Success means the expected hash, failure means an untouched destination: for any servers, faults and leftovers. */
  lemma {:induction false} HashGuardsDestination(hash: Bytes -> string, opt: Options, f: Files, setup: Faults,
      script: seq<Answer>)
    requires opt.sha1.Some?
    ensures var (g, r) := Download(hash, opt, f, setup, script); Guarded(hash, opt.sha1.value, f, g, r)
  {
    AttemptsGuard(hash, opt, f, script);
  }

  // ---- Faithful servers ----

  /**
    A server that serves `whole` to a request for the bytes from `n` on (all of
    them when `n` is 0): sections 14.2, 15.3.7 and 15.5.17 of RFC 9110. A body may
    break off anywhere, but a body that ends is complete.
  */
  ghost predicate Faithful(whole: Bytes, n: nat, a: Answer) {
    match a
    case NoAnswer(_) => true
    case Reply(status, chunks, end, _) =>
      if status == 206 then
        0 < n <= |whole| && Concat(chunks) <= whole[n..] && (end.Eof? ==> Concat(chunks) == whole[n..])
      else if status == 416 then 0 < n && |whole| <= n
      else if 200 <= status <= 299 then Concat(chunks) <= whole && (end.Eof? ==> Concat(chunks) == whole)
      else true
  }

  /** Each answer of the script is faithful to the request the part made at that point. */
  ghost predicate FaithfulRun(hash: Bytes -> string, opt: Options, whole: Bytes, f: Files, script: seq<Answer>)
    decreases |script|
  {
    script != [] ==>
      && Faithful(whole, PartSize(f), script[0])
      && var (g, v) := Attempt(hash, opt, f, script[0]);
         v.Retry? ==> FaithfulRun(hash, opt, whole, g, script[1..])
  }

  ghost predicate PartIsPrefix(whole: Bytes, f: Files) {
    f.part.Some? ==> f.part.value <= whole
  }

  lemma {:induction false} ConcatPrefix(chunks: seq<Bytes>, k: nat)
    requires k <= |chunks|
    ensures Concat(chunks[..k]) <= Concat(chunks)
    decreases |chunks| - k
  {
    if k < |chunks| {
      ConcatPrefix(chunks, k + 1);
      assert chunks[..k + 1][..k] == chunks[..k];
    } else {
      assert chunks[..k] == chunks;
    }
  }

  lemma {:induction false} AppendPrefix(p: Bytes, b: Bytes, whole: Bytes)
    requires p <= whole && b <= whole[|p|..]
    ensures p + b <= whole && (b == whole[|p|..] ==> p + b == whole)
  {
  }

  /** At every moment of a body, even if the program stops there, the part is a prefix of the resource. */
  lemma {:induction false} WritingKeepsPrefix(whole: Bytes, f: Files, a: Answer, k: nat)
    requires a.Reply? && k <= |a.chunks| && 200 <= a.status <= 299
    requires PartIsPrefix(whole, f) && Faithful(whole, PartSize(f), a)
    ensures PartIsPrefix(whole, Writing(f, a, k))
    ensures a.end.Eof? ==> Writing(f, a, |a.chunks|).part == Some(whole)
  {
    ConcatPrefix(a.chunks, k);
    assert a.chunks[..|a.chunks|] == a.chunks;
    if Appends(f, a.status) {
      AppendPrefix(f.part.value, Concat(a.chunks[..k]), whole);
      AppendPrefix(f.part.value, Concat(a.chunks), whole);
    } else {
      assert [] + Concat(a.chunks) == Concat(a.chunks) && [] + Concat(a.chunks[..k]) == Concat(a.chunks[..k]);
    }
  }

  /** Part still a prefix; the destination is what it was or the whole resource. */
  ghost predicate Sound(whole: Bytes, f: Files, g: Files) {
    PartIsPrefix(whole, g) && (g.dest == f.dest || g.dest == Some(whole))
  }

  /** A success that rests on downloaded bytes, not on a file that was already there. */
  ghost predicate Delivered(hash: Bytes -> string, opt: Options, whole: Bytes, g: Files) {
    g.dest == Some(whole) || Verifies(hash, opt, g.dest)
  }

  lemma {:induction false} FinalizeSound(hash: Bytes -> string, opt: Options, whole: Bytes, f: Files, faults: Faults)
    requires CollisionFree(hash) && f.part == Some(whole)
    ensures var (g, r) := Finalize(hash, opt, f, faults);
      Sound(whole, f, g) && (r.Ok? ==> Delivered(hash, opt, whole, g))
  {
  }

  lemma {:induction false} AttemptSound(hash: Bytes -> string, opt: Options, whole: Bytes, f: Files, a: Answer)
    requires CollisionFree(hash) && PartIsPrefix(whole, f) && Faithful(whole, PartSize(f), a)
    ensures var (g, v) := Attempt(hash, opt, f, a);
      && Sound(whole, f, g)
      && (v.Done? && v.result.Ok? ==> Delivered(hash, opt, whole, g))
      && (v.Retry? ==> g.dest == f.dest)
  {
    if a.Reply? {
      if a.status == 416 {
        assert f.part.value == whole[..|whole|] == whole;
        FinalizeSound(hash, opt, whole, f, a.faults);
      } else if 200 <= a.status <= 299 {
        WritingKeepsPrefix(whole, f, a, |a.chunks|);
        if a.end.Eof? {
          FinalizeSound(hash, opt, whole, Writing(f, a, |a.chunks|), a.faults);
        }
      }
    }
  }

  lemma {:induction false} AttemptsSound(hash: Bytes -> string, opt: Options, whole: Bytes, f: Files,
      script: seq<Answer>)
    requires CollisionFree(hash) && PartIsPrefix(whole, f) && FaithfulRun(hash, opt, whole, f, script)
    ensures var (g, r) := Attempts(hash, opt, f, script);
      Sound(whole, f, g) && (r.Ok? ==> Delivered(hash, opt, whole, g))
    decreases |script|
  {
    if script != [] {
      AttemptSound(hash, opt, whole, f, script[0]);
      var (g, v) := Attempt(hash, opt, f, script[0]);
      if v.Retry? {
        AttemptsSound(hash, opt, whole, g, script[1..]);
      }
    }
  }

  /** The expected hash, when there is one, is the resource's. */
  ghost predicate HashMatches(hash: Bytes -> string, opt: Options, whole: Bytes) {
    opt.sha1.Some? ==> opt.sha1.value == hash(whole)
  }

  /**
    From faithful servers, through any interruptions: the part stays a prefix, the
    destination keeps its content or becomes the whole resource, and success with a
    hash, or with neither hash nor size, means the whole resource is in place.
  */
  lemma {:induction false} FaithfulDownload(hash: Bytes -> string, opt: Options, whole: Bytes, f: Files,
      setup: Faults, script: seq<Answer>)
    requires CollisionFree(hash) && HashMatches(hash, opt, whole)
    requires PartIsPrefix(whole, f) && FaithfulRun(hash, opt, whole, f, script)
    ensures var (g, r) := Download(hash, opt, f, setup, script);
      && Sound(whole, f, g)
      && (r.Ok? && (opt.sha1.Some? || opt.size.None?) ==> g.dest == Some(whole))
  {
    AttemptsSound(hash, opt, whole, f, script);
    if opt.sha1.Some? && Verifies(hash, opt, f.part) {
      assert f.part == Some(whole);
    }
  }

  /** With only a size, success promises just that: a file of that size, even from unfaithful servers. */
  lemma {:induction false} SizeOnlyGivesSize(hash: Bytes -> string, opt: Options, f: Files, setup: Faults,
      script: seq<Answer>)
    requires CollisionFree(hash) && opt.sha1.None? && opt.size.Some?
    ensures var (g, r) := Download(hash, opt, f, setup, script);
      r.Ok? ==> SizeOf(g.dest) == opt.size
  {
    SizeOnlyAttempts(hash, opt, f, script);
  }

  lemma {:induction false} SizeOnlyAttempts(hash: Bytes -> string, opt: Options, f: Files, script: seq<Answer>)
    requires CollisionFree(hash) && opt.sha1.None? && opt.size.Some?
    ensures var (g, r) := Attempts(hash, opt, f, script);
      r.Ok? ==> SizeOf(g.dest) == opt.size
    decreases |script|
  {
    if script != [] {
      var (g, v) := Attempt(hash, opt, f, script[0]);
      if v.Retry? {
        SizeOnlyAttempts(hash, opt, g, script[1..]);
      }
    }
  }

  /** ... and the file of that size may be one that was there before, with other bytes. */
  lemma {:induction false} SizeOnlyKeepsOldBytes(hash: Bytes -> string, old0: Bytes, whole: Bytes, setup: Faults,
      script: seq<Answer>)
    requires |old0| == |whole| && old0 != whole && !setup.open
    ensures var (g, r) := Download(hash, Options(None, Some(|whole|)), Files(Some(old0), None), setup, script);
      r.Ok? && g.dest != Some(whole)
  {
  }

  // ---- Mirror fallback ----

  /** The mirror continues the same part; the guarantees hold across the switch. */
  lemma {:induction false} MirrorKeepsGuarantees(hash: Bytes -> string, opt: Options, whole: Bytes, f: Files,
                              first: (Faults, seq<Answer>), second: (Faults, seq<Answer>))
    requires CollisionFree(hash) && HashMatches(hash, opt, whole) && PartIsPrefix(whole, f)
    requires FaithfulRun(hash, opt, whole, f, first.1)
    requires var (g, _, fellBack) := ViaMirror(hash, opt, f, first, second);
      fellBack ==> FaithfulRun(hash, opt, whole, Download(hash, opt, f, first.0, first.1).0, second.1)
    ensures var (g, r, _) := ViaMirror(hash, opt, f, first, second);
      && Sound(whole, f, g)
      && (r.Ok? && (opt.sha1.Some? || opt.size.None?) ==> g.dest == Some(whole))
      && (r.Err? ==> g.dest == f.dest || opt.sha1.None?)
  {
    if opt.sha1.Some? {
      HashGuardsDestination(hash, opt, f, first.0, first.1);
    }
    FaithfulDownload(hash, opt, whole, f, first.0, first.1);
    var (g, r) := Download(hash, opt, f, first.0, first.1);
    if r.Err? && IsOutage(r.error) {
      if opt.sha1.Some? {
        HashGuardsDestination(hash, opt, g, second.0, second.1);
      }
      FaithfulDownload(hash, opt, whole, g, second.0, second.1);
    }
  }

  /** The other host is asked exactly when the first one failed with an outage: not for a 4xx, nor a wrong hash. */
  lemma {:induction false} FallsBackIffOutage(hash: Bytes -> string, opt: Options, f: Files,
      first: (Faults, seq<Answer>), second: (Faults, seq<Answer>))
    ensures var (_, r) := Download(hash, opt, f, first.0, first.1);
      ViaMirror(hash, opt, f, first, second).2 <==>
        r.Err? && r.error != Sha1Mismatch && (r.error.Status? ==> r.error.code >= 500)
  {
    var (g, r) := Download(hash, opt, f, first.0, first.1);
    if r.Err? {
      assert IsOutage(r.error) <==> r.error != Sha1Mismatch && (r.error.Status? ==> r.error.code >= 500);
    }
  }

  /** The module's notes speak of network errors and 5xx; a full disk falls back as well. */
  lemma {:induction false} DiskFaultFallsBack(hash: Bytes -> string, whole: Bytes, setup: Faults,
      second: (Faults, seq<Answer>))
    requires !setup.open
    ensures var script := [Reply(200, [whole], DiskError, Faults(false, false, false))];
      ViaMirror(hash, Options(None, None), Files(None, None), (setup, script), second).2
  {
  }

  // ---- Which host comes first ----

  /** Outcome `k` is the last one that fell back for the host. */
  predicate LastFallback(os: seq<Outcome>, host: string, k: nat) {
    && k < |os| && os[k].host == host && os[k].fellBack
    && forall j :: k < j < |os| && os[j].host == host ==> !os[j].fellBack
  }

  lemma {:induction false} NeverFellBack(os: seq<Outcome>, sticky: int, host: string)
    requires forall j :: 0 <= j < |os| && os[j].host == host ==> !os[j].fellBack
    ensures host !in LearnedAll(os, sticky)
  {
    if os != [] {
      NeverFellBack(os[..|os| - 1], sticky, host);
    }
  }

  lemma {:induction false} LastFallbackDecides(os: seq<Outcome>, sticky: int, host: string, k: nat)
    requires LastFallback(os, host, k)
    ensures var until := LearnedAll(os, sticky);
      if os[k].prefer then host !in until else host in until && until[host] == os[k].at + sticky
  {
    if k < |os| - 1 {
      LastFallbackDecides(os[..|os| - 1], sticky, host, k);
    }
  }

  lemma {:induction false} SomeLastFallback(os: seq<Outcome>, host: string) returns (k: nat)
    requires exists j :: 0 <= j < |os| && os[j].host == host && os[j].fellBack
    ensures LastFallback(os, host, k)
  {
    k := |os| - 1;
    if !(os[k].host == host && os[k].fellBack) {
      k := SomeLastFallback(os[..|os| - 1], host);
    }
  }

  /**
    However requests overlap, the mirror of a host is preferred exactly when the last of
    them to fall back left the primary, less than the sticky time ago.
  */
  lemma {:induction false} PreferredIff(os: seq<Outcome>, sticky: int, host: string, now: int)
    ensures Preferred(LearnedAll(os, sticky), host, now)
      <==> exists k: nat :: LastFallback(os, host, k) && !os[k].prefer && now < os[k].at + sticky
  {
    if exists j :: 0 <= j < |os| && os[j].host == host && os[j].fellBack {
      var k := SomeLastFallback(os, host);
      LastFallbackDecides(os, sticky, host, k);
      assert forall j: nat :: LastFallback(os, host, j) ==> j == k;
    } else {
      NeverFellBack(os, sticky, host);
    }
  }
}
