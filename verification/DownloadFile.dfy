/**
  The download as it runs: files changed in place, a loop over attempts and a
  loop over chunks, equal to `DownloadModel` on the files it finds.
*/
module DownloadFile {
  import opened Wrappers
  import opened DownloadModel

  class Disk {
    var dest: Option<Bytes>
    var part: Option<Bytes>

    function View(): (r: Files)
      reads this
    {
      Files(dest, part)
    }

    constructor (files: Files)
      ensures View() == files
    {
      dest, part := files.dest, files.part;
    }

    method RemovePart(fails: bool)
      modifies this`part
      ensures View() == DownloadModel.RemovePart(old(View()), fails)
    {
      if !fails {
        part := None;
      }
    }

    /** False, and no change, when the rename fails or there is nothing to rename. */
    method RenamePart(fails: bool) returns (ok: bool)
      modifies this
      ensures ok == (!fails && old(part).Some?)
      ensures View() == if ok then Files(old(part), None) else old(View())
    {
      if fails || part.None? {
        return false;
      }
      dest, part := part, None;
      ok := true;
    }

    method Finalize(hash: Bytes -> string, opt: Options, faults: Faults) returns (r: Result<(), Error>)
      modifies this
      ensures (View(), r) == DownloadModel.Finalize(hash, opt, old(View()), faults)
    {
      if opt.sha1.None? {
        if part.Some? && HashOf(hash, part) == HashOf(hash, dest) {
          RemovePart(faults.remove);
          return Ok(());
        }
      }
      var renamed := RenamePart(faults.rename);
      if !renamed {
        if opt.sha1.Some? {
          if HashOf(hash, dest) == opt.sha1 {
            return Ok(());
          }
        } else if opt.size.Some? && SizeOf(dest) == opt.size {
          return Ok(());
        }
        return Err(RenameFailed);
      }
      r := Ok(());
    }

    /** Write a body chunk by chunk into the opened part file. */
    method WriteBody(append: bool, chunks: seq<Bytes>)
      requires append ==> part.Some?
      modifies this`part
      ensures View() == old(View()).(part := Some((if append then old(part).value else []) + Concat(chunks)))
    {
      ghost var base := if append then part.value else [];
      if !append {
        part := Some([]);
      }
      var i := 0;
      assert base + [] == base;
      while i < |chunks|
        invariant 0 <= i <= |chunks|
        invariant dest == old(dest) && part == Some(base + Concat(chunks[..i]))
      {
        assert chunks[..i + 1][..i] == chunks[..i];
        assert (base + Concat(chunks[..i])) + chunks[i] == base + Concat(chunks[..i + 1]);
        part := Some(part.value + chunks[i]);
        i := i + 1;
      }
      assert chunks[..i] == chunks;
    }

    method Download(hash: Bytes -> string, opt: Options, setup: Faults, script: seq<Answer>)
        returns (r: Result<(), Error>)
      modifies this
      ensures (View(), r) == DownloadModel.Download(hash, opt, old(View()), setup, script)
    {
      if setup.open {
        return Err(Io);
      }
      if opt.sha1.Some? {
        if HashOf(hash, dest) == opt.sha1 {
          return Ok(());
        }
      } else if opt.size.Some? && SizeOf(dest) == opt.size {
        return Ok(());
      }
      if opt.sha1.Some? && SizeOf(part).GetOr(0) > 0 && HashOf(hash, part) == opt.sha1 {
        r := Finalize(hash, opt, setup);
        return;
      }
      var i := 0;
      while i < |script|
        invariant 0 <= i <= |script|
        invariant Attempts(hash, opt, View(), script[i..]) == Attempts(hash, opt, old(View()), script)
      {
        ghost var before := View();
        assert script[i..][0] == script[i] && script[i..][1..] == script[i + 1..];
        var verdict := Attempt(hash, opt, script[i]);
        i := i + 1;
        if verdict.Done? {
          return verdict.result;
        }
      }
      r := Err(Interrupted);
    }

    /** One pass of the attempt loop. */
    method Attempt(hash: Bytes -> string, opt: Options, answer: Answer) returns (v: Verdict)
      modifies this
      ensures (View(), v) == DownloadModel.Attempt(hash, opt, old(View()), answer)
    {
      var partSize := SizeOf(part).GetOr(0);
      match answer {
        case NoAnswer(timeout) =>
          return Done(Err(if timeout then Timeout else Network));
        case Reply(status, chunks, end, faults) =>
          if status == 416 {
            if opt.sha1.Some? {
              if HashOf(hash, part) == opt.sha1 {
                var r := Finalize(hash, opt, faults);
                return Done(r);
              }
            } else if opt.size.Some? && SizeOf(part) == opt.size {
              var r := Finalize(hash, opt, faults);
              return Done(r);
            }
            RemovePart(faults.remove);
            return Retry;
          }
          if status < 200 || status > 299 {
            return Done(Err(Status(status)));
          }
          if faults.open {
            return Done(Err(Io));
          }
          WriteBody(status == 206 && partSize > 0, chunks);
          assert chunks[..|chunks|] == chunks;
          if end.DiskError? {
            return Done(Err(Io));
          }
          if end.Broken? {
            return Retry;
          }
          if opt.sha1.Some? {
            if HashOf(hash, part) != opt.sha1 {
              RemovePart(faults.remove);
              return Done(Err(Sha1Mismatch));
            }
          } else if opt.size.Some? {
            if SizeOf(part) != opt.size {
              RemovePart(faults.remove);
              return Done(Err(SizeMismatch));
            }
          }
          var r := Finalize(hash, opt, faults);
          v := Done(r);
      }
    }
  }

  /** The client's learned mirror preferences. */
  class HttpClient {
    const sticky: int
    var preferMirrorUntil: map<string, int>

    constructor (sticky: int)
      ensures this.sticky == sticky && preferMirrorUntil == map[]
    {
      this.sticky := sticky;
      preferMirrorUntil := map[];
    }

    /** `primary` and `mirror` are what each host would answer when its turn comes. */
    method ViaMirror(disk: Disk, hash: Bytes -> string, opt: Options, host: string, hasMirror: bool,
        now: int, later: int, primary: (Faults, seq<Answer>), mirror: (Faults, seq<Answer>))
        returns (r: Result<(), Error>)
      modifies disk, this`preferMirrorUntil
      ensures !hasMirror ==> preferMirrorUntil == old(preferMirrorUntil)
      ensures !hasMirror ==>
        (disk.View(), r) == DownloadModel.Download(hash, opt, old(disk.View()), primary.0, primary.1)
      ensures hasMirror ==>
        var prefer := Preferred(old(preferMirrorUntil), host, now);
        var (g, q, fellBack) := DownloadModel.ViaMirror(hash, opt, old(disk.View()),
                                  if prefer then mirror else primary, if prefer then primary else mirror);
        && disk.View() == g && r == q
        && preferMirrorUntil == Learned(old(preferMirrorUntil), Outcome(host, prefer, fellBack, later), sticky)
    {
      if !hasMirror {
        r := disk.Download(hash, opt, primary.0, primary.1);
        return;
      }
      var prefer := host in preferMirrorUntil && preferMirrorUntil[host] > now;
      var first, second := if prefer then mirror else primary, if prefer then primary else mirror;
      r := disk.Download(hash, opt, first.0, first.1);
      if r.Ok? || !IsOutage(r.error) {
        return;
      }
      if !prefer {
        preferMirrorUntil := preferMirrorUntil[host := later + sticky];
      } else {
        preferMirrorUntil := preferMirrorUntil - {host};
      }
      r := disk.Download(hash, opt, second.0, second.1);
      if r.Err? && IsOutage(r.error) {
        r := Err(if r.error.Io? || r.error.RenameFailed? then Network else r.error);
      }
    }
  }
}
