/**
  One verified download as a function of the files it finds and of what the
  network and the disk answer. A script gives one answer per attempt.
*/
module DownloadModel {
  import opened Wrappers

  type Bytes = seq<byte>

  /** The destination and its `.part` file. */
  datatype Files = Files(dest: Option<Bytes>, part: Option<Bytes>)

  datatype Options = Options(sha1: Option<string>, size: Option<nat>)

  /** How a body ended; with `DiskError` the chunks are the bytes that reached the file. */
  datatype End = Eof | Broken | DiskError

  /** Local operations that may fail during an attempt. */
  datatype Faults = Faults(open: bool, remove: bool, rename: bool)

  datatype Answer =
    | NoAnswer(timeout: bool)
    | Reply(status: nat, chunks: seq<Bytes>, end: End, faults: Faults)

  datatype Error =
    | Network | Timeout | Status(code: nat) | Interrupted | Sha1Mismatch | SizeMismatch
    | Io | RenameFailed

  /** What an attempt leaves behind: another try, or the end of the download. */
  datatype Verdict = Retry | Done(result: Result<(), Error>)

  function Concat(chunks: seq<Bytes>): (r: Bytes) {
    if chunks == [] then [] else Concat(chunks[..|chunks| - 1]) + chunks[|chunks| - 1]
  }

  function SizeOf(file: Option<Bytes>): (r: Option<nat>) {
    match file
    case Some(b) => Some(|b|)
    case None => None
  }

  function HashOf(hash: Bytes -> string, file: Option<Bytes>): (r: Option<string>) {
    match file
    case Some(b) => Some(hash(b))
    case None => None
  }

  /** The check a file has to pass: the hash when there is one, otherwise the size when there is one. */
  predicate Verifies(hash: Bytes -> string, opt: Options, file: Option<Bytes>) {
    match opt.sha1
    case Some(s) => HashOf(hash, file) == Some(s)
    case None => opt.size.Some? && SizeOf(file) == opt.size
  }

  function RemovePart(f: Files, fails: bool): (r: Files) { if fails then f else f.(part := None) }

  /** Replace the destination by the part, keeping the file when a hashless download brought the same bytes. */
  function Finalize(hash: Bytes -> string, opt: Options, f: Files, faults: Faults): (r: (Files, Result<(), Error>)) {
    if opt.sha1.None? && f.part.Some? && HashOf(hash, f.part) == HashOf(hash, f.dest) then
      (RemovePart(f, faults.remove), Ok(()))
    else if faults.rename || f.part.None? then
      (f, if Verifies(hash, opt, f.dest) then Ok(()) else Err(RenameFailed))
    else (Files(f.part, None), Ok(()))
  }

  function FinalizeVerdict(hash: Bytes -> string, opt: Options, f: Files, faults: Faults): (r: (Files, Verdict)) {
    var (g, r) := Finalize(hash, opt, f, faults);
    (g, Done(r))
  }

  function PartSize(f: Files): (r: nat) { SizeOf(f.part).GetOr(0) }

  /** The body is appended only to a partial answer for a non-empty part. */
  predicate Appends(f: Files, status: nat) { status == 206 && PartSize(f) > 0 }

  /** The files once the first `k` chunks of a body have been written. */
  function Writing(f: Files, a: Answer, k: nat): (r: Files)
    requires a.Reply? && k <= |a.chunks|
  {
    f.(part := Some((if Appends(f, a.status) then f.part.GetOr([]) else []) + Concat(a.chunks[..k])))
  }

  function AfterBody(hash: Bytes -> string, opt: Options, f: Files, faults: Faults): (r: (Files, Verdict)) {
    if opt.sha1.Some? && !Verifies(hash, opt, f.part) then
      (RemovePart(f, faults.remove), Done(Err(Sha1Mismatch)))
    else if opt.sha1.None? && opt.size.Some? && !Verifies(hash, opt, f.part) then
      (RemovePart(f, faults.remove), Done(Err(SizeMismatch)))
    else FinalizeVerdict(hash, opt, f, faults)
  }

  function Attempt(hash: Bytes -> string, opt: Options, f: Files, a: Answer): (r: (Files, Verdict)) {
    match a
    case NoAnswer(timeout) => (f, Done(Err(if timeout then Timeout else Network)))
    case Reply(status, chunks, end, faults) =>
      if status == 416 then
        if Verifies(hash, opt, f.part) then FinalizeVerdict(hash, opt, f, faults)
        else (RemovePart(f, faults.remove), Retry)
      else if status < 200 || status > 299 then (f, Done(Err(Status(status))))
      else if faults.open then (f, Done(Err(Io)))
      else
        var g := Writing(f, a, |chunks|);
        match end
        case DiskError => (g, Done(Err(Io)))
        case Broken => (g, Retry)
        case Eof => AfterBody(hash, opt, g, faults)
  }

  function Attempts(hash: Bytes -> string, opt: Options, f: Files, script: seq<Answer>): (r: (Files, Result<(), Error>))
    decreases |script|
  {
    if script == [] then (f, Err(Interrupted))
    else
      var (g, v) := Attempt(hash, opt, f, script[0]);
      match v
      case Retry => Attempts(hash, opt, g, script[1..])
      case Done(r) => (g, r)
  }

  /** `setup` are the faults before the first request: `open` stands for the directory. */
  function Download(hash: Bytes -> string, opt: Options, f: Files, setup: Faults, script: seq<Answer>):
      (r: (Files, Result<(), Error>))
  {
    if setup.open then (f, Err(Io))
    else if Verifies(hash, opt, f.dest) then (f, Ok(()))
    else if opt.sha1.Some? && PartSize(f) > 0 && Verifies(hash, opt, f.part) then Finalize(hash, opt, f, setup)
    else Attempts(hash, opt, f, script)
  }

  /** A failure that falls through to the mirror. Local disk failures are among them. */
  predicate IsOutage(e: Error) {
    match e
    case Sha1Mismatch => false
    case Status(code) => code >= 500
    case _ => true
  }

  /** The kind both hosts' failure is reported under. */
  function Unreachable(e: Error): (r: Error) { if e.Io? || e.RenameFailed? then Network else e }

  /** Ask the first host, and the second one only after an outage; the flag tells whether it was asked. */
  function ViaMirror(hash: Bytes -> string, opt: Options, f: Files, first: (Faults, seq<Answer>),
      second: (Faults, seq<Answer>)):
      (r: (Files, Result<(), Error>, bool))
  {
    var (g, r) := Download(hash, opt, f, first.0, first.1);
    if r.Ok? || !IsOutage(r.error) then (g, r, false)
    else
      var (h, q) := Download(hash, opt, g, second.0, second.1);
      (h, if q.Err? && IsOutage(q.error) then Err(Unreachable(q.error)) else q, true)
  }

  predicate Preferred(until: map<string, int>, host: string, now: int) { host in until && until[host] > now }

  /**
    How a request to a host with a mirror went: whether it asked the mirror first, whether
    it fell back to the other one, and when it did.
  */
  datatype Outcome = Outcome(host: string, prefer: bool, fellBack: bool, at: int)

  /** A primary outage prefers the mirror for a while; an outage of the preferred mirror forgets it. */
  function Learned(until: map<string, int>, o: Outcome, sticky: int): (r: map<string, int>) {
    if !o.fellBack then until
    else if o.prefer then until - {o.host}
    else until[o.host := o.at + sticky]
  }

  /** What is left of a run of requests, in the order in which they record their outcome. */
  function LearnedAll(os: seq<Outcome>, sticky: int): (r: map<string, int>) {
    if os == [] then map[] else Learned(LearnedAll(os[..|os| - 1], sticky), os[|os| - 1], sticky)
  }
}
