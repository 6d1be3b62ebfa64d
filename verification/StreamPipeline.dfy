/**
 The pipeline in front of the processor: it reads the decoded stream in pieces of bounded size,
 counts the bytes before it hands a piece on, and ends with the first error
 (backend/internal/streampipeline/pipeline.go). The callers in desktop_app_stream.go and
 logs_stream.go give the pipeline and the processor the same limit, which is never zero
 (backend/internal/scripts/catalog.go).
 */
module StreamPipeline {
  import opened Text
  import opened ByteStrings
  import opened JsonResultStream

  const CHUNK_BYTES: nat := 32768

  datatype Cause = LimitReached | ReadFailed

  /** The processor's own verdict, or a stop by the pipeline after some events were sent. */
  datatype Outcome = Finished(result: Result) | Stopped(cause: Cause, sent: seq<Event>)

  /**
   `Run` from the state `p`, after `total` bytes: `pieces` are what the reader returns, ending with
   the end of the stream or with an error.
   */
  function PipeFrom(cfg: Config, p: State, total: nat, pieces: seq<Bytes>, eof: bool): Outcome
    decreases |pieces|
  {
    if p.result.failure.Some? then Finished(p.result)
    else if pieces == [] then (if eof then Finished(Finish(cfg, p)) else Stopped(ReadFailed, p.result.events))
    else if pieces[0] == [] then PipeFrom(cfg, p, total, pieces[1..], eof)
    else if total + |pieces[0]| > cfg.max then Stopped(LimitReached, p.result.events)
    else PipeFrom(cfg, Feed(cfg, p, pieces[0]), total + |pieces[0]|, pieces[1..], eof)
  }

  function Pipe(cfg: Config, pieces: seq<Bytes>, eof: bool): Outcome {
    PipeFrom(cfg, INITIAL, 0, pieces, eof)
  }

  /** The reader fills a buffer of fixed size. */
  predicate Readable(pieces: seq<Bytes>) {
    forall i :: 0 <= i < |pieces| ==> |pieces[i]| <= CHUNK_BYTES
  }

  /** The bytes of the pieces that come before the limit would be crossed. */
  function Fitting(room: int, pieces: seq<Bytes>): Bytes {
    if pieces == [] || |pieces[0]| > room then [] else pieces[0] + Fitting(room - |pieces[0]|, pieces[1..])
  }

  /** A stop right after `s`: a failure of the processor comes first. */
  function Cutoff(cfg: Config, s: Bytes, cause: Cause): Outcome {
    var r := After(cfg, s).result;
    if r.failure.Some? then Finished(r) else Stopped(cause, r.events)
  }

  /** What a run must come to, of the stream as a whole and of the bytes that reached the processor. */
  function Expected(cfg: Config, whole: Bytes, fed: Bytes, eof: bool): Outcome {
    if |whole| > cfg.max then Cutoff(cfg, fed, LimitReached)
    else if eof then Finished(OneShot(cfg, whole))
    else Cutoff(cfg, whole, ReadFailed)
  }

  // ---------------------------------------------------------------- every run

  lemma {:induction false} FittingIsPrefix(room: nat, pieces: seq<Bytes>)
    ensures var fed, whole := Fitting(room, pieces), Flatten(pieces);
            && |fed| <= room && fed <= whole
            && (|whole| <= room ==> fed == whole)
            && (|whole| > room && Readable(pieces) ==> |fed| + CHUNK_BYTES > room)
    decreases |pieces|
  {
    if pieces != [] && |pieces[0]| <= room { FittingIsPrefix(room - |pieces[0]|, pieces[1..]); }
  }

  lemma FailedRun(cfg: Config, s: Bytes, more: Bytes, fed: Bytes, eof: bool)
    requires After(cfg, s).result.failure.Some?
    ensures Expected(cfg, s + more, s + fed, eof) == Finished(After(cfg, s).result)
  {
    FailureIsFinal(cfg, s, more);
    FailureIsFinal(cfg, s, fed);
  }

  /** The end of the pieces: nothing more to come. */
  lemma RunEnds(cfg: Config, s: Bytes, eof: bool)
    requires |s| <= cfg.max && After(cfg, s).result.failure.None?
    ensures PipeFrom(cfg, After(cfg, s), |s|, [], eof) == Expected(cfg, s, s, eof)
  {
    RunFromIsOneShot(cfg, s, []);
    assert s + Flatten([]) == s;
  }

  /** Moving the first piece over to what has been read. */
  lemma FirstPiece(s: Bytes, room: int, pieces: seq<Bytes>)
    requires pieces != [] && |pieces[0]| <= room
    ensures s + Flatten(pieces) == (s + pieces[0]) + Flatten(pieces[1..])
    ensures s + Fitting(room, pieces) == (s + pieces[0]) + Fitting(room - |pieces[0]|, pieces[1..])
  {
  }

  /** One piece that fits takes the run from the state for `s` to the state for the longer stream. */
  lemma PieceFits(cfg: Config, s: Bytes, pieces: seq<Bytes>, eof: bool)
    requires pieces != [] && |s + pieces[0]| <= cfg.max && After(cfg, s).result.failure.None?
    ensures var t := s + pieces[0];
            PipeFrom(cfg, After(cfg, s), |s|, pieces, eof) == PipeFrom(cfg, After(cfg, t), |t|, pieces[1..], eof)
  {
    FeedExtends(cfg, s, pieces[0]);
    if pieces[0] == [] { assert s + pieces[0] == s; }
  }

  /** A piece that does not fit ends the run. */
  lemma PieceCrosses(cfg: Config, s: Bytes, pieces: seq<Bytes>, eof: bool)
    requires pieces != [] && |s| <= cfg.max < |s + pieces[0]| && After(cfg, s).result.failure.None?
    ensures PipeFrom(cfg, After(cfg, s), |s|, pieces, eof)
            == Expected(cfg, s + Flatten(pieces), s + Fitting(cfg.max - |s|, pieces), eof)
  {
    assert s + [] == s;
  }

  lemma {:induction false} PipeFromIsExpected(cfg: Config, s: Bytes, pieces: seq<Bytes>, eof: bool)
    requires |s| <= cfg.max
    ensures PipeFrom(cfg, After(cfg, s), |s|, pieces, eof)
            == Expected(cfg, s + Flatten(pieces), s + Fitting(cfg.max - |s|, pieces), eof)
    decreases |pieces|
  {
    if After(cfg, s).result.failure.Some? {
      FailedRun(cfg, s, Flatten(pieces), Fitting(cfg.max - |s|, pieces), eof);
    } else if pieces == [] {
      RunEnds(cfg, s, eof);
      assert s + [] == s;
    } else if |s + pieces[0]| > cfg.max {
      PieceCrosses(cfg, s, pieces, eof);
    } else {
      PieceFits(cfg, s, pieces, eof);
      PipeFromIsExpected(cfg, s + pieces[0], pieces[1..], eof);
      FirstPiece(s, cfg.max - |s|, pieces);
    }
  }

  /**
   Within the limit a run ends with the one-shot result (or, on a read error, after the complete
   lines); beyond it, it ends after the complete lines of a prefix that leaves less than one
   buffer of room.
   */
  lemma PipeIsExpected(cfg: Config, pieces: seq<Bytes>, eof: bool)
    requires Readable(pieces)
    ensures var fed, whole := Fitting(cfg.max, pieces), Flatten(pieces);
            && Pipe(cfg, pieces, eof) == Expected(cfg, whole, fed, eof)
            && fed <= whole
            && (|whole| > cfg.max ==> cfg.max - CHUNK_BYTES < |fed| <= cfg.max)
  {
    RunIsExpected(cfg, pieces, eof);
    FittingIsPrefix(cfg.max, pieces);
  }

  lemma RunIsExpected(cfg: Config, pieces: seq<Bytes>, eof: bool)
    ensures Pipe(cfg, pieces, eof) == Expected(cfg, Flatten(pieces), Fitting(cfg.max, pieces), eof)
  {
    PipeFromIsExpected(cfg, [], pieces, eof);
    assert [] + Flatten(pieces) == Flatten(pieces);
    assert [] + Fitting(cfg.max, pieces) == Fitting(cfg.max, pieces);
  }

  // ---------------------------------------------------------------- what was sent by then

  lemma {:induction false} DeliveryIsTheCompleteLines(cfg: Config, events: seq<Event>, s: Bytes)
    ensures |Lines(s)| > 0
    ensures Deliver(cfg, events, s).result == LinesResult(cfg, events, Lines(s)[..|Lines(s)| - 1])
    decreases |s|
  {
    LinesJoinBack(s);
    var n := FirstNewline(s);
    if n == |s| {
      assert Lines(s)[..0] == [];
      assert events + [] == events;
    } else {
      var later := Lines(s[n + 1..]);
      var r := EmitLine(cfg, events, s[..n]);
      LinesStep(cfg, events, s[..n], later[..|later| - 1]);
      assert Lines(s)[..|Lines(s)| - 1] == [s[..n]] + later[..|later| - 1];
      if r.failure.None? { DeliveryIsTheCompleteLines(cfg, r.events, s[n + 1..]); }
      else { LinesJoinBack(s[n + 1..]); }
    }
  }

  /** A stop sends what the complete lines before it name if they are events, and nothing otherwise. */
  lemma CutoffSendsTheCompleteLines(cfg: Config, s: Bytes, cause: Cause)
    ensures |Lines(s)| > 0
    ensures Cutoff(cfg, s, cause) ==
            match Detect(cfg, s)
            case Rejected(name) => Finished(Result([], Some(DetectedUnsupported(name))))
            case EventStream =>
              var r := LinesResult(cfg, [], Lines(s)[..|Lines(s)| - 1]);
              if r.failure.Some? then Finished(r) else Stopped(cause, r.events)
            case _ => Stopped(cause, [])
  {
    DeliveryIsTheCompleteLines(cfg, [], s);
  }

  // ---------------------------------------------------------------- when the cut shows

  /** No complete line of `s` says anything. */
  predicate OnlyBlankLines(cfg: Config, s: Bytes) {
    var n := FirstNewline(s);
    n < |s| ==> cfg.trim(s[..n]) == [] && OnlyBlankLines(cfg, s[n + 1..])
  }

  /**
   After `s`, the bytes `more` make no difference: the processor has failed, or it forwards events
   and they complete blank lines only, or it still buffers.
   */
  predicate Settled(cfg: Config, s: Bytes, more: Bytes) {
    var p := After(cfg, s);
    || p.result.failure.Some?
    || (if p.mode.ModeEvents? then OnlyBlankLines(cfg, p.pending + more)
        else Detect(cfg, s + more).Unknown? || Detect(cfg, s + more).ObjectStream?)
  }

  lemma {:induction false} BlankLinesSendNothing(cfg: Config, events: seq<Event>, s: Bytes)
    ensures Deliver(cfg, events, s).result == Result(events, None) <==> OnlyBlankLines(cfg, s)
    decreases |s|
  {
    var n := FirstNewline(s);
    if n < |s| {
      if cfg.trim(s[..n]) == [] {
        BlankLinesSendNothing(cfg, events, s[n + 1..]);
      } else {
        DeliveryOnlyAppends(cfg, EmitLine(cfg, events, s[..n]).events, s[n + 1..]);
      }
    }
  }

  lemma {:induction false} FewerBlankLines(cfg: Config, s: Bytes, more: Bytes)
    requires OnlyBlankLines(cfg, s + more)
    ensures OnlyBlankLines(cfg, s)
    decreases |s|
  {
    if FirstNewline(s) < |s| {
      FirstLineOfExtension(s, more);
      FewerBlankLines(cfg, s[FirstNewline(s) + 1..], more);
    }
  }

  lemma SettledEvents(cfg: Config, s: Bytes, more: Bytes, cause: Cause)
    requires After(cfg, s).mode.ModeEvents? && After(cfg, s).result.failure.None?
    ensures Cutoff(cfg, s + more, cause) == Cutoff(cfg, s, cause) <==> Settled(cfg, s, more)
  {
    var p := After(cfg, s);
    DetectionIsStable(cfg, s, more);
    DeliverySplits(cfg, [], s, more);
    BlankLinesSendNothing(cfg, p.result.events, p.pending + more);
  }

  /** Stopping before or after `more` comes to the same exactly when `more` is settled. */
  lemma SettledMeansSame(cfg: Config, s: Bytes, more: Bytes, cause: Cause)
    ensures Cutoff(cfg, s + more, cause) == Cutoff(cfg, s, cause) <==> Settled(cfg, s, more)
  {
    if After(cfg, s).result.failure.Some? {
      FailureIsFinal(cfg, s, more);
    } else if After(cfg, s).mode.ModeEvents? {
      SettledEvents(cfg, s, more, cause);
    } else if Detect(cfg, s + more).EventStream? {
      DetectedEventsAreSent(cfg, s + more);
    }
  }

  lemma SettledEarlier(cfg: Config, s: Bytes, more: Bytes, later: Bytes)
    requires Settled(cfg, s, more + later)
    ensures Settled(cfg, s, more)
  {
    var p := After(cfg, s);
    assert (s + more) + later == s + (more + later);
    assert (p.pending + more) + later == p.pending + (more + later);
    if p.result.failure.None? {
      if p.mode.ModeEvents? {
        FewerBlankLines(cfg, p.pending + more, later);
      } else if !Detect(cfg, s + more).Unknown? {
        DetectionIsStable(cfg, s + more, later);
      }
    }
  }

  // ---------------------------------------------------------------- cuts that stop anywhere

  function Bytewise(s: Bytes): seq<Bytes> {
    if s == [] then [] else [[s[0]]] + Bytewise(s[1..])
  }

  lemma {:induction false} BytewiseReads(s: Bytes)
    ensures Flatten(Bytewise(s)) == s && Readable(Bytewise(s))
    decreases |s|
  {
    if s != [] {
      BytewiseReads(s[1..]);
      assert Bytewise(s)[1..] == Bytewise(s[1..]);
    }
  }

  lemma {:induction false} FlattenJoins(a: seq<Bytes>, b: seq<Bytes>)
    ensures Flatten(a + b) == Flatten(a) + Flatten(b)
    decreases |a|
  {
    if a == [] {
      assert a + b == b;
    } else {
      assert (a + b)[1..] == a[1..] + b;
      FlattenJoins(a[1..], b);
    }
  }

  lemma {:induction false} FittingStopsAt(room: nat, front: seq<Bytes>, read: Bytes, rest: seq<Bytes>)
    requires |Flatten(front)| <= room < |Flatten(front)| + |read|
    ensures Fitting(room, front + ([read] + rest)) == Flatten(front)
    decreases |front|
  {
    var pieces := front + ([read] + rest);
    if front == [] {
      assert pieces[0] == read;
    } else {
      assert pieces[0] == front[0] && pieces[1..] == front[1..] + ([read] + rest);
      FittingStopsAt(room - |front[0]|, front[1..], read, rest);
    }
  }

  /** Some pieces of an over-long stream stop after `n` bytes, if `n` leaves less than one buffer of room. */
  lemma StopsAfter(max: nat, s: Bytes, n: nat) returns (pieces: seq<Bytes>)
    requires max - CHUNK_BYTES < n <= max < |s|
    ensures Readable(pieces) && Flatten(pieces) == s && Fitting(max, pieces) == s[..n]
  {
    var front, read, rest := Bytewise(s[..n]), s[n..max + 1], Bytewise(s[max + 1..]);
    BytewiseReads(s[..n]);
    BytewiseReads(s[max + 1..]);
    FittingStopsAt(max, front, read, rest);
    pieces := front + ([read] + rest);
    FlattenJoins(front, [read] + rest);
    assert ([read] + rest)[1..] == rest;
    assert s == s[..n] + (s[n..max + 1] + s[max + 1..]);
  }

  /** The least number of bytes that reach the processor of an over-long stream. */
  function Least(max: nat): nat {
    if max < CHUNK_BYTES then 0 else max - CHUNK_BYTES + 1
  }

  /** All ways the reader can cut `s` come to the same. */
  ghost predicate ReadsAgree(cfg: Config, s: Bytes, eof: bool) {
    forall a: seq<Bytes>, b: seq<Bytes> ::
      Readable(a) && Readable(b) && Flatten(a) == s && Flatten(b) == s ==> Pipe(cfg, a, eof) == Pipe(cfg, b, eof)
  }

  lemma SettledStop(cfg: Config, s: Bytes, low: nat, n: nat, high: nat)
    requires low <= n <= high <= |s| && Settled(cfg, s[..low], s[low..high])
    ensures Cutoff(cfg, s[..n], LimitReached) == Cutoff(cfg, s[..low], LimitReached)
  {
    assert s[low..high] == s[low..n] + s[n..high];
    SettledEarlier(cfg, s[..low], s[low..n], s[n..high]);
    SettledMeansSame(cfg, s[..low], s[low..n], LimitReached);
    assert s[..low] + s[low..n] == s[..n];
  }

  /** If the last buffer before the limit is settled, every way of reading the stream stops as the earliest does. */
  lemma SettledRun(cfg: Config, s: Bytes, pieces: seq<Bytes>, eof: bool)
    requires |s| > cfg.max && Settled(cfg, s[..Least(cfg.max)], s[Least(cfg.max)..cfg.max])
    requires Readable(pieces) && Flatten(pieces) == s
    ensures Pipe(cfg, pieces, eof) == Cutoff(cfg, s[..Least(cfg.max)], LimitReached)
  {
    PipeIsExpected(cfg, pieces, eof);
    var fed := Fitting(cfg.max, pieces);
    assert fed == s[..|fed|];
    SettledStop(cfg, s, Least(cfg.max), |fed|, cfg.max);
  }

  /** An over-long stream that is not settled can be read in two ways that come to different things. */
  lemma UnsettledReadsDiffer(cfg: Config, s: Bytes, eof: bool) returns (a: seq<Bytes>, b: seq<Bytes>)
    requires |s| > cfg.max && !Settled(cfg, s[..Least(cfg.max)], s[Least(cfg.max)..cfg.max])
    ensures Readable(a) && Readable(b) && Flatten(a) == s && Flatten(b) == s
    ensures Pipe(cfg, a, eof) != Pipe(cfg, b, eof)
  {
    var low := Least(cfg.max);
    a := StopsAfter(cfg.max, s, low);
    b := StopsAfter(cfg.max, s, cfg.max);
    PipeIsExpected(cfg, a, eof);
    PipeIsExpected(cfg, b, eof);
    SettledMeansSame(cfg, s[..low], s[low..cfg.max], LimitReached);
    assert s[..low] + s[low..cfg.max] == s[..cfg.max];
  }

  /**
   Exactly when the reader's cuts are invisible through the pipeline: the stream fits, or nothing
   is sent and nothing fails in the last buffer before the limit.
   */
  lemma ReadsAgreeExactlyWhen(cfg: Config, s: Bytes, eof: bool)
    ensures ReadsAgree(cfg, s, eof)
            <==> |s| <= cfg.max || Settled(cfg, s[..Least(cfg.max)], s[Least(cfg.max)..cfg.max])
  {
    if |s| <= cfg.max || Settled(cfg, s[..Least(cfg.max)], s[Least(cfg.max)..cfg.max]) {
      forall a: seq<Bytes>, b: seq<Bytes> | Readable(a) && Readable(b) && Flatten(a) == s && Flatten(b) == s
        ensures Pipe(cfg, a, eof) == Pipe(cfg, b, eof)
      {
        if |s| > cfg.max {
          SettledRun(cfg, s, a, eof);
          SettledRun(cfg, s, b, eof);
        } else {
          PipeIsExpected(cfg, a, eof);
          PipeIsExpected(cfg, b, eof);
        }
      }
    } else {
      var a, b := UnsettledReadsDiffer(cfg, s, eof);
    }
  }

  // ---------------------------------------------------------------- the loop

  lemma PipeFromStep(cfg: Config, p: State, total: nat, pieces: seq<Bytes>, k: nat, eof: bool)
    requires k < |pieces| && p.result.failure.None?
    ensures PipeFrom(cfg, p, total, pieces[k..], eof) ==
            if pieces[k] == [] then PipeFrom(cfg, p, total, pieces[k + 1..], eof)
            else if total + |pieces[k]| > cfg.max then Stopped(LimitReached, p.result.events)
            else PipeFrom(cfg, Feed(cfg, p, pieces[k]), total + |pieces[k]|, pieces[k + 1..], eof)
  {
    assert pieces[k..][0] == pieces[k] && pieces[k..][1..] == pieces[k + 1..];
  }

  /** `Pipeline.Run` with the processor as its only one. */
  method RunPipeline(cfg: Config, pieces: seq<Bytes>, eof: bool) returns (outcome: Outcome)
    ensures outcome == Pipe(cfg, pieces, eof)
  {
    var processor := new Processor(cfg);
    var decodedBytes: nat := 0;
    for k := 0 to |pieces|
      invariant processor.cfg == cfg && processor.failure.None?
      invariant !processor.mode.ModeEvents? ==> processor.sent == []
      invariant PipeFrom(cfg, processor.View(), decodedBytes, pieces[k..], eof) == Pipe(cfg, pieces, eof)
    {
      PipeFromStep(cfg, processor.View(), decodedBytes, pieces, k, eof);
      if |pieces[k]| > 0 {
        decodedBytes := decodedBytes + |pieces[k]|;
        if decodedBytes > cfg.max { return Stopped(LimitReached, processor.sent); }
        processor.OnChunk(pieces[k]);
        if processor.failure.Some? { return Finished(Result(processor.sent, processor.failure)); }
      }
    }
    if !eof { return Stopped(ReadFailed, processor.sent); }
    processor.OnFinish();
    outcome := Finished(Result(processor.sent, processor.failure));
  }
}
