/** One newline-terminated frame from a stream that comes in pieces. */
module FrameReader {
  import opened Wrappers

  const MAX_FRAME := 64 * 1024
  const CHUNK := 4096
  const NEWLINE: byte := 10

  /**
    What one read of the socket gives: some bytes, the end of the stream, or an error,
    which a read past the deadline is too.
  */
  datatype Read = Got(bytes: seq<byte>) | Closed | Failed

  /** A read fills at most the chunk, and gives no bytes only at the end of the stream. */
  predicate Proper(pieces: seq<Read>) {
    forall i :: 0 <= i < |pieces| && pieces[i].Got? ==> 0 < |pieces[i].bytes| <= CHUNK
  }

  /** The bytes that arrive before the stream ends, fails or runs out of time. */
  function Arrived(pieces: seq<Read>): (r: seq<byte>) {
    if pieces == [] || !pieces[0].Got? then [] else pieces[0].bytes + Arrived(pieces[1..])
  }

  /** The place of the first newline, the length when there is none. */
  function LineEnd(s: seq<byte>): (n: nat)
    ensures n <= |s| && NEWLINE !in s[..n] && (n < |s| ==> s[n] == NEWLINE)
  {
    if s == [] || s[0] == NEWLINE then 0
    else
      var n := LineEnd(s[1..]);
      assert s[..n + 1] == [s[0]] + s[1..][..n];
      n + 1
  }

  function FrameOf(s: seq<byte>): (r: Option<seq<byte>>) {
    if LineEnd(s) < |s| && LineEnd(s) <= MAX_FRAME then Some(s[..LineEnd(s)]) else None
  }

  /** After `k` reads without a newline the buffer holds what has arrived so far. */
  ghost predicate Buffered(pieces: seq<Read>, k: nat, buf: seq<byte>) {
    k <= |pieces| && NEWLINE !in buf && Arrived(pieces) == buf + Arrived(pieces[k..])
  }

  /** Read a frame; `pieces` is what the socket gives in turn, and then the deadline. */
  method ReadFrame(pieces: seq<Read>) returns (frame: Option<seq<byte>>)
    requires Proper(pieces)
    ensures frame == FrameOf(Arrived(pieces))
  {
    var buf: seq<byte> := [];
    var k := 0;
    assert pieces[0..] == pieces && [] + Arrived(pieces) == Arrived(pieces);
    while k < |pieces|
      invariant Buffered(pieces, k, buf) && |buf| <= MAX_FRAME
    {
      if !pieces[k].Got? {
        Ended(pieces, k, buf);
        return None;
      }
      var chunk := pieces[k].bytes;
      var i := Position(chunk);
      if i < |chunk| {
        FoundIn(pieces, k, buf);
        buf := buf + chunk[..i];
        return if |buf| <= MAX_FRAME then Some(buf) else None;
      }
      NotFoundIn(pieces, k, buf);
      buf := buf + chunk;
      if |buf| > MAX_FRAME {
        return None;
      }
      k := k + 1;
    }
    Ended(pieces, k, buf);
    frame := None;
  }

  lemma {:induction false} Ended(pieces: seq<Read>, k: nat, buf: seq<byte>)
    requires Buffered(pieces, k, buf) && (k < |pieces| ==> !pieces[k].Got?)
    ensures FrameOf(Arrived(pieces)) == None
  {
  }

  lemma {:induction false} ArrivedFrom(pieces: seq<Read>, k: nat)
    requires k < |pieces| && pieces[k].Got?
    ensures Arrived(pieces[k..]) == pieces[k].bytes + Arrived(pieces[k + 1..])
  {
  }

  lemma {:induction false} FoundIn(pieces: seq<Read>, k: nat, buf: seq<byte>)
    requires Buffered(pieces, k, buf) && k < |pieces| && pieces[k].Got? && LineEnd(pieces[k].bytes) < |pieces[k].bytes|
    ensures var f := buf + pieces[k].bytes[..LineEnd(pieces[k].bytes)];
      FrameOf(Arrived(pieces)) == if |f| <= MAX_FRAME then Some(f) else None
  {
    ArrivedFrom(pieces, k);
    FoundHere(buf, pieces[k].bytes, Arrived(pieces[k + 1..]));
  }

  lemma {:induction false} NotFoundIn(pieces: seq<Read>, k: nat, buf: seq<byte>)
    requires Buffered(pieces, k, buf) && k < |pieces| && pieces[k].Got? && LineEnd(pieces[k].bytes) == |pieces[k].bytes|
    ensures Buffered(pieces, k + 1, buf + pieces[k].bytes)
    ensures |buf + pieces[k].bytes| > MAX_FRAME ==> FrameOf(Arrived(pieces)) == None
  {
  }

  /** Find the first newline of a chunk. */
  method Position(chunk: seq<byte>) returns (i: nat)
    ensures i == LineEnd(chunk)
  {
    i := 0;
    while i < |chunk| && chunk[i] != NEWLINE
      invariant 0 <= i <= |chunk|
      invariant LineEnd(chunk) == i + LineEnd(chunk[i..])
    {
      assert chunk[i..][1..] == chunk[i + 1..];
      i := i + 1;
    }
  }

  /** Text without a newline only pushes the line's end back. */
  lemma {:induction false} LineEndAfter(before: seq<byte>, after: seq<byte>)
    requires NEWLINE !in before
    ensures LineEnd(before + after) == |before| + LineEnd(after)
  {
    if before == [] {
      assert before + after == after;
    } else {
      assert before[0] in before;
      LineEndAfter(before[1..], after);
      assert (before + after)[1..] == before[1..] + after;
    }
  }

  lemma {:induction false} FoundHere(buf: seq<byte>, chunk: seq<byte>, rest: seq<byte>)
    requires NEWLINE !in buf && LineEnd(chunk) < |chunk|
    ensures var f := buf + chunk[..LineEnd(chunk)];
      FrameOf(buf + (chunk + rest)) == if |f| <= MAX_FRAME then Some(f) else None
  {
    var i := LineEnd(chunk);
    LineEndAfter(chunk[..i], chunk[i..] + rest);
    assert chunk[..i] + (chunk[i..] + rest) == chunk + rest;
    LineEndAfter(buf, chunk + rest);
    assert (buf + (chunk + rest))[..|buf| + i] == buf + chunk[..i];
  }

  /** A frame is read exactly when the bytes start with it and a newline, and it is short enough. */
  lemma {:induction false} FrameIff(s: seq<byte>, f: seq<byte>)
    ensures FrameOf(s) == Some(f) <==> f + [10] <= s && 10 !in f && |f| <= 65536
  {
    if FrameOf(s) == Some(f) {
      assert s[..|f| + 1] == f + [NEWLINE];
    }
    if f + [NEWLINE] <= s && NEWLINE !in f && |f| <= MAX_FRAME {
      assert s[..|f| + 1] == f + [NEWLINE];
      assert s[|f|] == (f + [NEWLINE])[|f|] && s[..|f|] == s[..|f| + 1][..|f|] == f;
      assert s == f + s[|f|..];
      LineEndAfter(f, s[|f|..]);
    }
  }

  /** Cut a stream into reads at the given lengths. */
  function Cut(s: seq<byte>, lengths: seq<nat>): (r: seq<Read>)
    requires Covers(s, lengths)
  {
    if lengths == [] then [] else [Got(s[..lengths[0]])] + Cut(s[lengths[0]..], lengths[1..])
  }

  predicate Covers(s: seq<byte>, lengths: seq<nat>) {
    if lengths == [] then s == []
    else 0 < lengths[0] <= CHUNK && lengths[0] <= |s| && Covers(s[lengths[0]..], lengths[1..])
  }

  /** However a stream is cut into reads, and whatever ends it, the same bytes arrive. */
  lemma {:induction false} CutsDoNotMatter(s: seq<byte>, lengths: seq<nat>, tail: seq<Read>)
    requires Covers(s, lengths) && (tail != [] ==> !tail[0].Got?)
    ensures Arrived(Cut(s, lengths) + tail) == s
    decreases |lengths|
  {
    if lengths == [] {
      assert Cut(s, lengths) + tail == tail;
    } else {
      var (head, rest) := (s[..lengths[0]], s[lengths[0]..]);
      CutsDoNotMatter(rest, lengths[1..], tail);
      CutFirst(s, lengths, tail);
      assert s == head + rest;
    }
  }

  lemma {:induction false} CutFirst(s: seq<byte>, lengths: seq<nat>, tail: seq<Read>)
    requires Covers(s, lengths) && lengths != []
    ensures Arrived(Cut(s, lengths) + tail) == s[..lengths[0]] + Arrived(Cut(s[lengths[0]..], lengths[1..]) + tail)
  {
    var all := Cut(s, lengths) + tail;
    assert all[0] == Got(s[..lengths[0]]) && all[1..] == Cut(s[lengths[0]..], lengths[1..]) + tail;
  }

  /** A frame once complete does not depend on what comes after it. */
  lemma {:induction false} FrameIsFinal(s: seq<byte>, more: seq<byte>)
    requires FrameOf(s).Some?
    ensures FrameOf(s + more) == FrameOf(s)
  {
    var f := FrameOf(s).value;
    FrameIff(s, f);
    assert f + [NEWLINE] <= s + more by {
      assert s[..|f| + 1] == f + [NEWLINE];
      assert (s + more)[..|f| + 1] == f + [NEWLINE];
    }
    FrameIff(s + more, f);
  }
}

/** Second launches handed to the running instance. */
module InstanceState {

  type Args = seq<string>

  datatype State = Starting(queued: seq<Args>) | Running | Closing

  datatype Reply = Ok | Busy | IsClosing

  /** The launches taken and not handed out yet. */
  function Queued(s: State): (r: seq<Args>) { if s.Starting? then s.queued else [] }

  /** Only a starting instance keeps a launch. */
  function AfterLaunch(s: State, args: Args): (r: State) {
    if s.Starting? then Starting(s.queued + [args]) else s
  }

  /** Becoming ready does not reopen a closing instance. */
  function AfterReady(s: State): (r: State) { if s.Starting? then Running else s }

  class Shared {
    var state: State

    constructor ()
      ensures state == Starting([])
    {
      state := Starting([]);
    }

    /** The reply to a second launch; `took` is what the running instance's handler answers. */
    method Take(args: Args, took: bool) returns (reply: Reply)
      modifies this
      ensures state == AfterLaunch(old(state), args)
      ensures reply == Ok <==> old(state).Starting? || (old(state).Running? && took)
      ensures reply == IsClosing <==> old(state).Closing?
    {
      match state
      case Starting(queued) =>
        state := Starting(queued + [args]);
        reply := Ok;
      case Closing => reply := IsClosing;
      case Running => reply := if took then Ok else Busy;
    }

    /** The window is up: hand out the launches queued so far. */
    method Ready() returns (queued: seq<Args>)
      modifies this
      ensures queued == Queued(old(state)) && state == AfterReady(old(state))
    {
      var was := state;
      state := Running;
      if was.Starting? {
        queued := was.queued;
      } else {
        state := was;
        queued := [];
      }
    }

    method Close()
      modifies this
      ensures state == Closing
    {
      state := Closing;
    }
  }
}

/** Every interleaving of second launches with the first instance's start and end. */
module InstanceRuns {
  import opened InstanceState

  /**
    `calls` are launches whose handler call is under way, `accepted` those answered
    `ok`, `served` those the first instance acts on.
  */
  datatype System = System(state: State, calls: seq<Args>, accepted: seq<Args>, served: seq<Args>)

  const INIT := System(Starting([]), [], [], [])

  datatype Event = Launch(args: Args) | Answer(k: nat, took: bool) | Ready | Close

  predicate Enabled(s: System, e: Event) {
    match e
    case Launch(_) => true
    case Answer(k, _) => k < |s.calls|
    case Ready => true
    case Close => true
  }

  function Next(s: System, e: Event): (r: System)
    requires Enabled(s, e)
  {
    match e
    case Launch(args) =>
      s.(state := AfterLaunch(s.state, args),
         accepted := if s.state.Starting? then s.accepted + [args] else s.accepted,
         calls := if s.state.Running? then s.calls + [args] else s.calls)
    case Answer(k, took) =>
      var rest := s.(calls := s.calls[..k] + s.calls[k + 1..]);
      if took then rest.(accepted := s.accepted + [s.calls[k]], served := s.served + [s.calls[k]]) else rest
    case Ready => s.(state := AfterReady(s.state), served := s.served + Queued(s.state))
    case Close => s.(state := Closing)
  }

  predicate EnabledRun(s: System, es: seq<Event>)
    decreases |es|
  {
    es == [] || (Enabled(s, es[0]) && EnabledRun(Next(s, es[0]), es[1..]))
  }

  function Run(s: System, es: seq<Event>): (r: System)
    requires EnabledRun(s, es)
    decreases |es|
  {
    if es == [] then s else Run(Next(s, es[0]), es[1..])
  }

  /** Every launch answered `ok` is served or still queued, in the order of the answers. */
  predicate Kept(s: System) { s.accepted == s.served + Queued(s.state) }

  /** A step keeps every accepted launch exactly unless it closes an instance with launches queued. */
  lemma {:induction false} KeptIff(s: System, e: Event)
    requires Kept(s) && (s.state.Starting? ==> s.calls == []) && Enabled(s, e)
    ensures Kept(Next(s, e)) <==> !(e.Close? && Queued(s.state) != [])
    ensures Next(s, e).state.Starting? ==> Next(s, e).calls == []
  {
  }

  /** No run closes an instance while launches are queued. */
  predicate ClosesEmpty(s: System, es: seq<Event>)
    requires EnabledRun(s, es)
    decreases |es|
  {
    es == [] || (!(es[0].Close? && Queued(s.state) != []) && ClosesEmpty(Next(s, es[0]), es[1..]))
  }

  lemma {:induction false} KeptOnRun(s: System, es: seq<Event>)
    requires Kept(s) && (s.state.Starting? ==> s.calls == []) && EnabledRun(s, es) && ClosesEmpty(s, es)
    ensures Kept(Run(s, es))
    decreases |es|
  {
    if es != [] {
      KeptIff(s, es[0]);
      KeptOnRun(Next(s, es[0]), es[1..]);
    }
  }

  /** What was lost stays lost: an accepted launch that is neither served nor queued never is. */
  lemma {:induction false} LostStaysLost(s: System, es: seq<Event>)
    requires EnabledRun(s, es) && !s.state.Starting? && |s.accepted| > |s.served|
    ensures |Run(s, es).accepted| > |Run(s, es).served| && !Kept(Run(s, es))
    decreases |es|
  {
    if es == [] {
      assert |s.served + Queued(s.state)| == |s.served|;
    } else {
      LostStaysLost(Next(s, es[0]), es[1..]);
    }
  }

  lemma {:induction false} LostOnRun(s: System, es: seq<Event>)
    requires Kept(s) && (s.state.Starting? ==> s.calls == []) && EnabledRun(s, es) && !ClosesEmpty(s, es)
    ensures !Kept(Run(s, es))
    decreases |es|
  {
    if es[0].Close? && Queued(s.state) != [] {
      LostStaysLost(Next(s, es[0]), es[1..]);
    } else {
      KeptIff(s, es[0]);
      LostOnRun(Next(s, es[0]), es[1..]);
    }
  }

  /**
    No launch answered `ok` is dropped exactly when the instance never closes with
    launches queued, which it does only if it closes before its window was ready.
  */
  lemma {:induction false} NoneDroppedIff(es: seq<Event>)
    requires EnabledRun(INIT, es)
    ensures Kept(Run(INIT, es)) <==> ClosesEmpty(INIT, es)
  {
    if ClosesEmpty(INIT, es) {
      KeptOnRun(INIT, es);
    } else {
      LostOnRun(INIT, es);
    }
  }

  /** The shortest run that drops one: a launch is answered `ok`, and the instance closes before it is ready. */
  lemma {:induction false} ClosedWhileStarting(args: Args)
    ensures var es := [Launch(args), Close];
      && EnabledRun(INIT, es) && !Kept(Run(INIT, es))
      && Run(INIT, es).accepted == [args] && Run(INIT, es).served == []
  {
    var s := Next(INIT, Launch(args));
    assert [Launch(args), Close][1..] == [Close] && [Close][1..] == [];
    assert Run(s, [Close]) == Run(Next(s, Close), []);
  }

  /** Once it closes, an instance stays closing, and of later launches none is accepted: only calls under way can be. */
  lemma {:induction false} ClosingIsFinal(s: System, es: seq<Event>)
    requires s.state.Closing? && EnabledRun(s, es)
    ensures var r := Run(s, es);
      r.state.Closing? && |r.accepted| + |r.calls| <= |s.accepted| + |s.calls|
    decreases |es|
  {
    if es != [] {
      ClosingIsFinal(Next(s, es[0]), es[1..]);
    }
  }

  /** Once its window is ready, an instance hands every launch to its handler until it closes, and queues none. */
  lemma {:induction false} ReadyUntilClosed(s: System, es: seq<Event>)
    requires EnabledRun(s, es) && (forall k :: 0 <= k < |es| ==> !es[k].Close?)
    requires s.state.Running? || (s.state.Starting? && exists k :: 0 <= k < |es| && es[k].Ready?)
    ensures Run(s, es).state.Running?
    decreases |es|
  {
    if es != [] {
      var r := Next(s, es[0]);
      if !es[0].Ready? && s.state.Starting? {
        var k :| 0 <= k < |es| && es[k].Ready?;
        assert es[1..][k - 1] == es[k];
      }
      ReadyUntilClosed(r, es[1..]);
    }
  }
}
