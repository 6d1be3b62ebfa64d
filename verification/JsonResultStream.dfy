/**
 The processor that decodes a remote result stream while it arrives: it sniffs whether the
 stream is one JSON object or newline-delimited events, and then buffers or forwards
 accordingly (backend/internal/httpapi/json_stream_collect.go).

 The JSON parser, the byte-level trimming and the event sink are parameters (`Config`).
 `Feed` and `Finish` say what one call does to the processor's state; `OneShot` is the
 reference: it reads the whole stream at once.
 */
module JsonResultStream {
  import opened Text
  import opened ByteStrings

  datatype Json =
    | JString(text: string)
    | JBool(flag: bool)
    | JMap(fields: map<string, Json>)
    | JOther(raw: string)

  /** What `json.Unmarshal` into a `map[string]any` makes of some bytes; `null` leaves the map nil. */
  datatype Parsed = Invalid | NullMap | Object(fields: map<string, Json>)

  datatype Event = Event(event: string, ok: Option<bool>, name: string, data: map<string, Json>, error: string)

  datatype Failure =
    | BufferLimit
    | LineLimit
    | DetectedUnsupported(name: string)
    | InvalidLine
    | UnsupportedEvent(name: string)
    | NotAnObject
    | NilMapWrite
    | SinkFailed

  /** What one non-blank line says. */
  datatype Line = Garbage | Unnamed | Unsupported(name: string) | Named(event: Event)

  /**
   What the processor is given: byte trimming, the JSON parser for a finished object, the
   reading of one event line, and the sink, where `accepts(sent, e)` says whether it takes
   `e` after having taken `sent`. `Worker` builds the configuration the backend uses.
   */
  datatype Config = Config(
    trim: Bytes -> Bytes,
    parse: Bytes -> Parsed,
    decode: Bytes -> Line,
    accepts: (seq<Event>, Event) -> bool,
    max: nat,
    resultName: string,
    app: Json,
    transport: Json
  )

  /** What the caller of a run observes: the events that reached the sink, and the error. */
  datatype Result = Result(events: seq<Event>, failure: Option<Failure>)

  // ---------------------------------------------------------------- one event line

  function TextOf(raw: map<string, Json>, key: string): string {
    if key in raw && raw[key].JString? then raw[key].text else ""
  }

  predicate Allowed(name: string) {
    name == "meta" || name == "row" || name == "chunk" || name == "done" || name == "error"
  }

  predicate EnvelopeKey(key: string) {
    || key == "event" || key == "ok" || key == "name"
    || key == "error" || key == "stats" || key == "transport"
  }

  function WithoutEnvelope(raw: map<string, Json>): map<string, Json> {
    map key | key in raw && !EnvelopeKey(key) :: raw[key]
  }

  function EventOf(name: string, raw: map<string, Json>): Event {
    var data := if "data" in raw && raw["data"].JMap? then raw["data"].fields else WithoutEnvelope(raw);
    var full := if "transport" in raw && raw["transport"].JMap? then data["transport" := raw["transport"]] else data;
    var ok := if "ok" in raw && raw["ok"].JBool? then Some(raw["ok"].flag) else None;
    Event(name, ok, TextOf(raw, "name"), full, TextOf(raw, "error"))
  }

  function DecodeLine(parse: Bytes -> Parsed, text: Bytes): Line {
    match parse(text)
    case Invalid => Garbage
    case NullMap => Unnamed
    case Object(raw) =>
      var name := TrimSpace(TextOf(raw, "event"));
      if name == "" then Unnamed else if Allowed(name) then Named(EventOf(name, raw)) else Unsupported(name)
  }

  /** `newJSONResultStreamProcessor`: the defaults for the limit and the result event's name. */
  function Worker(trim: Bytes -> Bytes, parse: Bytes -> Parsed, accepts: (seq<Event>, Event) -> bool,
                  max: int, resultName: string, app: Json, transport: Json): Config
  {
    Config(trim, parse, text => DecodeLine(parse, text), accepts,
           if max <= 0 then 33554432 else max,
           if TrimSpace(resultName) == "" then "result" else resultName, app, transport)
  }

  function Emit(cfg: Config, events: seq<Event>, e: Event): Result {
    if cfg.accepts(events, e) then Result(events + [e], None) else Result(events, Some(SinkFailed))
  }

  function EmitLine(cfg: Config, events: seq<Event>, line: Bytes): Result {
    var text := cfg.trim(line);
    if text == [] then Result(events, None)
    else
      match cfg.decode(text)
      case Garbage => Result(events, Some(InvalidLine))
      case Unnamed => Result(events, Some(UnsupportedEvent("")))
      case Unsupported(name) => Result(events, Some(UnsupportedEvent(name)))
      case Named(e) => Emit(cfg, events, e)
  }

  // ---------------------------------------------------------------- whole streams

  /** The position of the first newline, or the length when there is none. */
  function FirstNewline(s: Bytes): (n: nat)
    ensures n <= |s|
  {
    if s == [] || s[0] == NEWLINE then 0 else 1 + FirstNewline(s[1..])
  }

  lemma {:induction false} FirstNewlineIsFirst(s: Bytes)
    ensures var n := FirstNewline(s);
            && (n < |s| ==> s[n] == NEWLINE)
            && (forall i :: 0 <= i < n ==> s[i] != NEWLINE)
    decreases |s|
  {
    if s != [] && s[0] != NEWLINE { FirstNewlineIsFirst(s[1..]); }
  }

  datatype Detection = Unknown | ObjectStream | EventStream | Rejected(name: string)

  function DetectLine(cfg: Config, text: Bytes): Detection {
    match cfg.decode(text)
    case Garbage => ObjectStream
    case Unnamed => ObjectStream
    case Unsupported(name) => Rejected(name)
    case Named(_) => EventStream
  }

  /** The verdict of the first complete line that is not blank. */
  function Detect(cfg: Config, s: Bytes): Detection {
    var n := FirstNewline(s);
    if n == |s| then Unknown
    else
      var text := cfg.trim(s[..n]);
      if text == [] then Detect(cfg, s[n + 1..]) else DetectLine(cfg, text)
  }

  /** Delivery of every complete line of `s`, up to the first failure; `rest` is what is left over. */
  datatype Delivery = Delivery(result: Result, rest: Bytes)

  function Deliver(cfg: Config, events: seq<Event>, s: Bytes): (d: Delivery)
    ensures |d.rest| <= |s|
    decreases |s|
  {
    var n := FirstNewline(s);
    if n == |s| then Delivery(Result(events, None), s)
    else
      var r := EmitLine(cfg, events, s[..n]);
      if r.failure.Some? then Delivery(r, s[n + 1..]) else Deliver(cfg, r.events, s[n + 1..])
  }

  function ResultEvent(cfg: Config, payload: map<string, Json>): Event {
    Event(cfg.resultName, Some(true), "",
          map["app" := cfg.app,
              "result" := JMap(payload["_shellorchestra_transport" := cfg.transport]),
              "transport" := cfg.transport], "")
  }

  function FinishObject(cfg: Config, s: Bytes): Result {
    var parsed := cfg.parse(s);
    if parsed.Invalid? then Result([], Some(NotAnObject))
    else if parsed.NullMap? then Result([], Some(NilMapWrite))
    else Emit(cfg, [], ResultEvent(cfg, parsed.fields))
  }

  function FinishLine(cfg: Config, events: seq<Event>, rest: Bytes): Result {
    if cfg.trim(rest) == [] then Result(events, None) else EmitLine(cfg, events, rest)
  }

  /** The reference: the meaning of a stream that is available all at once. */
  function OneShot(cfg: Config, s: Bytes): Result {
    match Detect(cfg, s)
    case Rejected(name) => Result([], Some(DetectedUnsupported(name)))
    case EventStream =>
      var d := Deliver(cfg, [], s);
      if d.result.failure.Some? then d.result else FinishLine(cfg, d.result.events, d.rest)
    case _ => FinishObject(cfg, s)
  }

  // ---------------------------------------------------------------- what the reference means

  /** The lines of a stream, the unfinished one at the end included. */
  function Lines(s: Bytes): (lines: seq<Bytes>)
    decreases |s|
  {
    var n := FirstNewline(s);
    if n == |s| then [s] else [s[..n]] + Lines(s[n + 1..])
  }

  function JoinLines(lines: seq<Bytes>): Bytes {
    if lines == [] then [] else if |lines| == 1 then lines[0] else lines[0] + [NEWLINE] + JoinLines(lines[1..])
  }

  predicate GoodLine(cfg: Config, line: Bytes) {
    cfg.trim(line) == [] || cfg.decode(cfg.trim(line)).Named?
  }

  function LineEvents(cfg: Config, line: Bytes): seq<Event>
    requires GoodLine(cfg, line)
  {
    if cfg.trim(line) == [] then [] else [cfg.decode(cfg.trim(line)).event]
  }

  predicate GoodLines(cfg: Config, lines: seq<Bytes>) {
    lines != [] ==> GoodLine(cfg, lines[0]) && GoodLines(cfg, lines[1..])
  }

  /** The events the non-blank lines name, in order, up to the first bad line. */
  function NamedEvents(cfg: Config, lines: seq<Bytes>): seq<Event> {
    if lines == [] || !GoodLine(cfg, lines[0]) then [] else LineEvents(cfg, lines[0]) + NamedEvents(cfg, lines[1..])
  }

  /** What is wrong with the first bad line, if there is one. */
  function FirstFault(cfg: Config, lines: seq<Bytes>): Option<Failure> {
    if lines == [] then None
    else if GoodLine(cfg, lines[0]) then FirstFault(cfg, lines[1..])
    else
      match cfg.decode(cfg.trim(lines[0]))
      case Unsupported(name) => Some(UnsupportedEvent(name))
      case Unnamed => Some(UnsupportedEvent(""))
      case _ => Some(InvalidLine)
  }

  /** How many of the `named` events the sink takes before it first refuses one. */
  function Taken(cfg: Config, events: seq<Event>, named: seq<Event>): (n: nat)
    ensures n <= |named|
    decreases |named|
  {
    if named == [] || !cfg.accepts(events, named[0]) then 0 else 1 + Taken(cfg, events + [named[0]], named[1..])
  }

  /** What reading `lines` amounts to: the named events the sink takes, and then the first thing that went wrong. */
  function LinesResult(cfg: Config, events: seq<Event>, lines: seq<Bytes>): Result {
    var named := NamedEvents(cfg, lines);
    var n := Taken(cfg, events, named);
    Result(events + named[..n], if n < |named| then Some(SinkFailed) else FirstFault(cfg, lines))
  }

  lemma {:induction false} LinesJoinBack(s: Bytes)
    ensures |Lines(s)| > 0 && JoinLines(Lines(s)) == s
    ensures forall line :: line in Lines(s) ==> NEWLINE !in line
    decreases |s|
  {
    var n := FirstNewline(s);
    FirstNewlineIsFirst(s);
    if n < |s| {
      LinesJoinBack(s[n + 1..]);
      assert s == s[..n] + [NEWLINE] + s[n + 1..];
    }
  }

  function DeliverAndFinish(cfg: Config, events: seq<Event>, s: Bytes): Result {
    var d := Deliver(cfg, events, s);
    if d.result.failure.Some? then d.result else FinishLine(cfg, d.result.events, d.rest)
  }

  /** A line that names an event, or none, put before the others. */
  lemma LinesStep(cfg: Config, events: seq<Event>, line: Bytes, later: seq<Bytes>)
    ensures var r := EmitLine(cfg, events, line);
            LinesResult(cfg, events, [line] + later)
            == if r.failure.Some? then r else LinesResult(cfg, r.events, later)
  {
    var lines := [line] + later;
    assert lines[1..] == later;
    var named := NamedEvents(cfg, lines);
    if !GoodLine(cfg, line) {
      assert events + [] == events;
    } else if cfg.trim(line) == [] {
      assert named == NamedEvents(cfg, later);
    } else {
      var e := cfg.decode(cfg.trim(line)).event;
      assert named == [e] + NamedEvents(cfg, later);
      TakenStep(cfg, events, e, NamedEvents(cfg, later));
    }
  }

  lemma TakenStep(cfg: Config, events: seq<Event>, e: Event, later: seq<Event>)
    ensures var n := Taken(cfg, events, [e] + later);
            if cfg.accepts(events, e) then
              n == 1 + Taken(cfg, events + [e], later)
              && events + ([e] + later)[..n] == events + [e] + later[..n - 1]
            else n == 0 && events + ([e] + later)[..n] == events
  {
    assert ([e] + later)[1..] == later;
  }

  lemma {:induction false} DeliveryMeansLines(cfg: Config, events: seq<Event>, s: Bytes)
    ensures DeliverAndFinish(cfg, events, s) == LinesResult(cfg, events, Lines(s))
    decreases |s|
  {
    var n := FirstNewline(s);
    if n == |s| {
      LinesStep(cfg, events, s, []);
      assert [s] + [] == [s];
    } else {
      LinesStep(cfg, events, s[..n], Lines(s[n + 1..]));
      var r := EmitLine(cfg, events, s[..n]);
      if r.failure.None? { DeliveryMeansLines(cfg, r.events, s[n + 1..]); }
    }
  }

  /** A sink that takes everything: all named events, and an error exactly for a bad line. */
  lemma {:induction false} WillingSinkTakesAll(cfg: Config, events: seq<Event>, named: seq<Event>)
    requires forall sent, e :: cfg.accepts(sent, e)
    ensures Taken(cfg, events, named) == |named|
    decreases |named|
  {
    if named != [] { WillingSinkTakesAll(cfg, events + [named[0]], named[1..]); }
  }

  lemma {:induction false} NoFaultMeansGood(cfg: Config, lines: seq<Bytes>)
    ensures FirstFault(cfg, lines).None? <==> GoodLines(cfg, lines)
    decreases |lines|
  {
    if lines != [] { NoFaultMeansGood(cfg, lines[1..]); }
  }

  /**
   An event stream sends the events its lines name, in line order and once each, up to the first
   bad line or the first event the sink refuses; with a willing sink it succeeds exactly when
   every non-blank line names an event.
   */
  lemma EventStreamsAreTheirLines(cfg: Config, s: Bytes)
    requires Detect(cfg, s).EventStream?
    ensures OneShot(cfg, s) == LinesResult(cfg, [], Lines(s))
    ensures (forall sent, e :: cfg.accepts(sent, e)) ==>
              && OneShot(cfg, s).events == NamedEvents(cfg, Lines(s))
              && (OneShot(cfg, s).failure.None? <==> GoodLines(cfg, Lines(s)))
  {
    DeliveryMeansLines(cfg, [], s);
    NoFaultMeansGood(cfg, Lines(s));
    if forall sent, e :: cfg.accepts(sent, e) { WillingSinkTakesAll(cfg, [], NamedEvents(cfg, Lines(s))); }
  }

  /** A decoded event never carries an envelope field of its own line as data, `transport` objects apart. */
  lemma DecodedLineDropsTheEnvelope(parse: Bytes -> Parsed, text: Bytes, raw: map<string, Json>)
    requires parse(text) == Object(raw)
    ensures DecodeLine(parse, text).Named? <==> Allowed(TrimSpace(TextOf(raw, "event")))
    ensures DecodeLine(parse, text).Named? && ("data" !in raw || !raw["data"].JMap?) ==>
              forall key :: key in DecodeLine(parse, text).event.data <==>
                key in raw && (!EnvelopeKey(key) || (key == "transport" && raw[key].JMap?))
    ensures DecodeLine(parse, text).Named? && "data" in raw && raw["data"].JMap? ==>
              var data, payload := DecodeLine(parse, text).event.data, raw["data"].fields;
              && (forall key :: key != "transport" ==> (key in data <==> key in payload))
              && (forall key :: key in payload && key != "transport" ==> data[key] == payload[key])
              && ("transport" in data <==> "transport" in payload || ("transport" in raw && raw["transport"].JMap?))
  {
    assert Allowed(TrimSpace(TextOf(raw, "event"))) ==> TrimSpace(TextOf(raw, "event")) != "";
  }

  /** `text` is what the string field `key` says; a field that is absent or no string says nothing. */
  predicate SaysText(raw: map<string, Json>, key: string, text: string) {
    text != "" ==> key in raw && raw[key] == JString(text)
  }

  /** The fields of a decoded event are those of its line, each in its place. */
  lemma DecodedLineSays(parse: Bytes -> Parsed, text: Bytes, raw: map<string, Json>)
    requires parse(text) == Object(raw) && DecodeLine(parse, text).Named?
    ensures var e := DecodeLine(parse, text).event;
            && e.event in {"meta", "row", "chunk", "done", "error"}
            && (exists name :: "event" in raw && raw["event"] == JString(name) && e.event == TrimSpace(name))
            && SaysText(raw, "name", e.name) && SaysText(raw, "error", e.error)
            && (forall s :: "name" in raw && raw["name"] == JString(s) ==> e.name == s)
            && (forall s :: "error" in raw && raw["error"] == JString(s) ==> e.error == s)
            && (forall b :: e.ok == Some(b) <==> "ok" in raw && raw["ok"] == JBool(b))
            && ("transport" in raw && raw["transport"].JMap? ==>
                  "transport" in e.data && e.data["transport"] == raw["transport"])
    ensures "data" !in raw || !raw["data"].JMap? ==>
              forall key :: key in DecodeLine(parse, text).event.data ==>
                key in raw && DecodeLine(parse, text).event.data[key] == raw[key]
  {
    assert TrimSpace("") == "";
    assert raw["event"] == JString(raw["event"].text);
  }

  /** Every line that names one of the five events is decoded, and every other object line is refused by its name. */
  lemma LinesAreDecodedByName(parse: Bytes -> Parsed, text: Bytes)
    ensures DecodeLine(parse, text).Garbage? <==> parse(text).Invalid?
    ensures forall raw, name :: parse(text) == Object(raw) && "event" in raw && raw["event"] == JString(name) ==>
              if TrimSpace(name) in {"meta", "row", "chunk", "done", "error"} then DecodeLine(parse, text).Named?
              else if TrimSpace(name) == "" then DecodeLine(parse, text).Unnamed?
              else DecodeLine(parse, text) == Unsupported(TrimSpace(name))
  {
  }

  /** What the backend's processors are set up with. */
  lemma WorkerDefaults(trim: Bytes -> Bytes, parse: Bytes -> Parsed, accepts: (seq<Event>, Event) -> bool,
                       max: int, resultName: string, app: Json, transport: Json)
    ensures var cfg := Worker(trim, parse, accepts, max, resultName, app, transport);
            && cfg.max > 0 && (max > 0 ==> cfg.max == max) && (max <= 0 ==> cfg.max == 32 * 1024 * 1024)
            && TrimSpace(cfg.resultName) != "" && (TrimSpace(resultName) != "" ==> cfg.resultName == resultName)
            && cfg.app == app && cfg.transport == transport
  {
    TrimSpaceTrims("result");
  }

  // ---------------------------------------------------------------- chunk by chunk

  datatype Mode = ModeUnknown | ModeObject | ModeEvents

  datatype State = State(mode: Mode, buffer: Bytes, pending: Bytes, result: Result)

  const INITIAL := State(ModeUnknown, [], [], Result([], None))

  function Fail(p: State, f: Failure): State {
    p.(result := p.result.(failure := Some(f)))
  }

  /** `processEventChunk`. */
  function FeedEvents(cfg: Config, p: State, chunk: Bytes): State {
    if chunk == [] then p
    else if |p.pending + chunk| > cfg.max then Fail(p.(pending := p.pending + chunk), LineLimit)
    else
      var d := Deliver(cfg, p.result.events, p.pending + chunk);
      p.(pending := d.rest, result := d.result)
  }

  /** `OnChunk`. */
  function Feed(cfg: Config, p: State, chunk: Bytes): State {
    if p.mode.ModeEvents? then FeedEvents(cfg, p, chunk)
    else if |p.buffer + chunk| > cfg.max then Fail(p, BufferLimit)
    else
      var q := p.(buffer := p.buffer + chunk);
      if p.mode.ModeObject? then q
      else
        match Detect(cfg, q.buffer)
        case Unknown => q
        case ObjectStream => q.(mode := ModeObject)
        case Rejected(name) => Fail(q, DetectedUnsupported(name))
        case EventStream => FeedEvents(cfg, q.(mode := ModeEvents, buffer := []), q.buffer)
  }

  /** `OnFinish`. */
  function Finish(cfg: Config, p: State): Result {
    if p.mode.ModeEvents? then FinishLine(cfg, p.result.events, p.pending)
    else FinishObject(cfg, p.buffer)
  }

  /** The pipeline: chunks in order, stopping at the first error; `OnFinish` only after no error. */
  function FeedAll(cfg: Config, p: State, chunks: seq<Bytes>): State
    decreases |chunks|
  {
    if chunks == [] || p.result.failure.Some? then p else FeedAll(cfg, Feed(cfg, p, chunks[0]), chunks[1..])
  }

  function RunFrom(cfg: Config, p: State, chunks: seq<Bytes>): Result {
    var q := FeedAll(cfg, p, chunks);
    if q.result.failure.Some? then q.result else Finish(cfg, q)
  }

  function Run(cfg: Config, chunks: seq<Bytes>): Result {
    RunFrom(cfg, INITIAL, chunks)
  }

  function Flatten(chunks: seq<Bytes>): Bytes {
    if chunks == [] then [] else chunks[0] + Flatten(chunks[1..])
  }

  // ---------------------------------------------------------------- chunk independence

  lemma {:induction false} FirstNewlineOfExtension(s: Bytes, t: Bytes)
    requires FirstNewline(s) < |s|
    ensures FirstNewline(s + t) == FirstNewline(s)
    decreases |s|
  {
    if s[0] != NEWLINE {
      assert (s + t)[1..] == s[1..] + t;
      FirstNewlineOfExtension(s[1..], t);
    }
  }

  /** The first line of a stream is the first line of every extension. */
  lemma FirstLineOfExtension(s: Bytes, t: Bytes)
    requires FirstNewline(s) < |s|
    ensures var n := FirstNewline(s);
            && FirstNewline(s + t) == n
            && (s + t)[..n] == s[..n]
            && (s + t)[n + 1..] == s[n + 1..] + t
  {
    FirstNewlineOfExtension(s, t);
  }

  /** Once the kind of stream is known, more bytes do not change the verdict. */
  lemma {:induction false} DetectionIsStable(cfg: Config, s: Bytes, t: Bytes)
    requires !Detect(cfg, s).Unknown?
    ensures Detect(cfg, s + t) == Detect(cfg, s)
    decreases |s|
  {
    var n := FirstNewline(s);
    FirstLineOfExtension(s, t);
    if cfg.trim(s[..n]) == [] { DetectionIsStable(cfg, s[n + 1..], t); }
  }

  /** Delivering in two parts, carrying the unfinished line over, is delivering in one. */
  lemma {:induction false} DeliverySplits(cfg: Config, events: seq<Event>, s: Bytes, t: Bytes)
    ensures var d := Deliver(cfg, events, s);
            if d.result.failure.Some? then Deliver(cfg, events, s + t).result == d.result
            else Deliver(cfg, events, s + t) == Deliver(cfg, d.result.events, d.rest + t)
    decreases |s|
  {
    var n := FirstNewline(s);
    if n < |s| {
      FirstLineOfExtension(s, t);
      var r := EmitLine(cfg, events, s[..n]);
      if r.failure.None? { DeliverySplits(cfg, r.events, s[n + 1..], t); }
    }
  }

  /** The unfinished line of `s`, the part after its last newline, starts at `k`. */
  predicate UnfinishedAt(s: Bytes, k: int) {
    && 0 <= k <= |s|
    && NEWLINE !in s[k..]
    && (k > 0 ==> s[k - 1] == NEWLINE)
  }

  lemma UnfinishedLater(s: Bytes, n: nat, j: int)
    requires n < |s| && s[n] == NEWLINE && UnfinishedAt(s[n + 1..], j)
    ensures UnfinishedAt(s, n + 1 + j) && s[n + 1 + j..] == s[n + 1..][j..]
  {
    assert s[n + 1 + j..] == s[n + 1..][j..];
    if j > 0 { assert s[n + j] == s[n + 1..][j - 1]; }
  }

  /** What is carried over is the part of the stream after its last newline. */
  lemma {:induction false} PendingIsTheUnfinishedLine(cfg: Config, events: seq<Event>, s: Bytes)
    requires Deliver(cfg, events, s).result.failure.None?
    ensures var rest := Deliver(cfg, events, s).rest;
            UnfinishedAt(s, |s| - |rest|) && rest == s[|s| - |rest|..]
    decreases |s|
  {
    var n := FirstNewline(s);
    FirstNewlineIsFirst(s);
    if n < |s| {
      var later := s[n + 1..];
      PendingIsTheUnfinishedLine(cfg, EmitLine(cfg, events, s[..n]).events, later);
      UnfinishedLater(s, n, |later| - |Deliver(cfg, events, s).rest|);
    }
  }

  /** The state the processor must be in once it has seen `s` without an error. */
  function After(cfg: Config, s: Bytes): State {
    match Detect(cfg, s)
    case Unknown => State(ModeUnknown, s, [], Result([], None))
    case ObjectStream => State(ModeObject, s, [], Result([], None))
    case Rejected(name) => State(ModeUnknown, s, [], Result([], Some(DetectedUnsupported(name))))
    case EventStream =>
      var d := Deliver(cfg, [], s);
      State(ModeEvents, [], d.rest, d.result)
  }

  lemma FeedDecided(cfg: Config, s: Bytes, chunk: Bytes)
    requires !Detect(cfg, s).Unknown? && After(cfg, s).result.failure.None?
    requires |s + chunk| <= cfg.max
    ensures Feed(cfg, After(cfg, s), chunk) == After(cfg, s + chunk)
  {
    DetectionIsStable(cfg, s, chunk);
    DeliverySplits(cfg, [], s, chunk);
    if chunk == [] { assert s + chunk == s; }
  }

  /** One more chunk takes the state for `s` to the state for `s + chunk`. */
  lemma FeedExtends(cfg: Config, s: Bytes, chunk: Bytes)
    requires After(cfg, s).result.failure.None?
    requires |s + chunk| <= cfg.max
    ensures Feed(cfg, After(cfg, s), chunk) == After(cfg, s + chunk)
  {
    if !Detect(cfg, s).Unknown? {
      FeedDecided(cfg, s, chunk);
    } else if Detect(cfg, s + chunk).EventStream? {
      assert [] + (s + chunk) == s + chunk;
      assert s + chunk != [];
    }
  }

  /** An error, and the events sent before it, are final. */
  lemma FailureIsFinal(cfg: Config, s: Bytes, t: Bytes)
    requires After(cfg, s).result.failure.Some?
    ensures After(cfg, s + t).result == After(cfg, s).result == OneShot(cfg, s)
    ensures OneShot(cfg, s + t) == OneShot(cfg, s)
  {
    DetectionIsStable(cfg, s, t);
    DeliverySplits(cfg, [], s, t);
  }

  lemma {:induction false} RunFromIsOneShot(cfg: Config, s: Bytes, chunks: seq<Bytes>)
    requires |s + Flatten(chunks)| <= cfg.max
    ensures RunFrom(cfg, After(cfg, s), chunks) == OneShot(cfg, s + Flatten(chunks))
    decreases chunks
  {
    var p := After(cfg, s);
    if p.result.failure.Some? {
      FailureIsFinal(cfg, s, Flatten(chunks));
    } else if chunks == [] {
      assert s + Flatten(chunks) == s;
    } else {
      FeedExtends(cfg, s, chunks[0]);
      assert s + Flatten(chunks) == (s + chunks[0]) + Flatten(chunks[1..]);
      RunFromIsOneShot(cfg, s + chunks[0], chunks[1..]);
    }
  }

  /** Every way of cutting a stream within the limit gives the one-shot events and error. */
  lemma ChunkingIsInvisible(cfg: Config, chunks: seq<Bytes>)
    requires |Flatten(chunks)| <= cfg.max
    ensures Run(cfg, chunks) == OneShot(cfg, Flatten(chunks))
  {
    assert [] + Flatten(chunks) == Flatten(chunks);
    RunFromIsOneShot(cfg, [], chunks);
  }

  // ---------------------------------------------------------------- one object

  /** The event of a finished object: the whole payload, with the transport facts added. */
  predicate IsResultOf(cfg: Config, fields: map<string, Json>, e: Event) {
    && e.event == cfg.resultName && e.ok == Some(true) && e.name == "" && e.error == ""
    && e.data.Keys == {"app", "result", "transport"}
    && e.data["app"] == cfg.app && e.data["transport"] == cfg.transport
    && e.data["result"].JMap?
    && var result := e.data["result"].fields;
       && result.Keys == fields.Keys + {"_shellorchestra_transport"}
       && result["_shellorchestra_transport"] == cfg.transport
       && forall key :: key in fields && key != "_shellorchestra_transport" ==> result[key] == fields[key]
  }

  lemma ResultEventKeepsThePayload(cfg: Config, fields: map<string, Json>)
    ensures IsResultOf(cfg, fields, ResultEvent(cfg, fields))
  {
  }

  /**
   A stream that fits and is not taken for events sends its object, whole, as the one result event;
   it fails if it is no object, or if the sink refuses that event.
   */
  lemma ObjectStreamsSendTheirObject(cfg: Config, chunks: seq<Bytes>)
    requires |Flatten(chunks)| <= cfg.max
    requires Detect(cfg, Flatten(chunks)).Unknown? || Detect(cfg, Flatten(chunks)).ObjectStream?
    ensures cfg.parse(Flatten(chunks)).Invalid? <==> Run(cfg, chunks) == Result([], Some(NotAnObject))
    ensures cfg.parse(Flatten(chunks)).Object? ==>
              exists e :: IsResultOf(cfg, cfg.parse(Flatten(chunks)).fields, e)
                && Run(cfg, chunks) == if cfg.accepts([], e) then Result([e], None) else Result([], Some(SinkFailed))
  {
    ChunkingIsInvisible(cfg, chunks);
    var parsed := cfg.parse(Flatten(chunks));
    if parsed.Object? {
      ResultEventKeepsThePayload(cfg, parsed.fields);
      assert [] + [ResultEvent(cfg, parsed.fields)] == [ResultEvent(cfg, parsed.fields)];
    }
  }

  // ---------------------------------------------------------------- the verdict on a stream

  /** The first of some lines that is not blank. */
  function FirstSolid(cfg: Config, lines: seq<Bytes>): Option<Bytes> {
    if lines == [] then None
    else if cfg.trim(lines[0]) != [] then Some(cfg.trim(lines[0]))
    else FirstSolid(cfg, lines[1..])
  }

  /** The first complete line that is not blank decides, by what it names. */
  lemma {:induction false} FirstSolidLineDecides(cfg: Config, s: Bytes)
    ensures |Lines(s)| > 0
    ensures var first := FirstSolid(cfg, Lines(s)[..|Lines(s)| - 1]);
            && (Detect(cfg, s).Unknown? <==> first.None?)
            && (Detect(cfg, s).EventStream? <==> first.Some? && cfg.decode(first.value).Named?)
            && (Detect(cfg, s).ObjectStream?
                <==> first.Some? && (cfg.decode(first.value).Garbage? || cfg.decode(first.value).Unnamed?))
            && forall name :: Detect(cfg, s) == Rejected(name)
                              <==> first.Some? && cfg.decode(first.value) == Unsupported(name)
    decreases |s|
  {
    LinesJoinBack(s);
    var n := FirstNewline(s);
    if n < |s| {
      LinesJoinBack(s[n + 1..]);
      var complete, later := Lines(s)[..|Lines(s)| - 1], Lines(s[n + 1..]);
      assert complete == [s[..n]] + later[..|later| - 1];
      assert complete[1..] == later[..|later| - 1];
      FirstSolidLineDecides(cfg, s[n + 1..]);
    }
  }

  // ---------------------------------------------------------------- null

  lemma {:induction false} DeliveryNeverMeetsNil(cfg: Config, events: seq<Event>, s: Bytes)
    ensures Deliver(cfg, events, s).result.failure != Some(NilMapWrite)
    decreases |s|
  {
    var n := FirstNewline(s);
    if n < |s| {
      var r := EmitLine(cfg, events, s[..n]);
      if r.failure.None? { DeliveryNeverMeetsNil(cfg, r.events, s[n + 1..]); }
    }
  }

  /** `OnFinish` writes to a nil map exactly when a stream not taken for events parses as `null`. */
  lemma NilMapIsWrittenExactlyWhen(cfg: Config, chunks: seq<Bytes>)
    requires |Flatten(chunks)| <= cfg.max
    ensures var s := Flatten(chunks);
            Run(cfg, chunks).failure == Some(NilMapWrite)
            <==> (Detect(cfg, s).Unknown? || Detect(cfg, s).ObjectStream?) && cfg.parse(s).NullMap?
  {
    ChunkingIsInvisible(cfg, chunks);
    OneShotMeetsNil(cfg, Flatten(chunks));
  }

  lemma OneShotMeetsNil(cfg: Config, s: Bytes)
    ensures OneShot(cfg, s).failure == Some(NilMapWrite)
            <==> (Detect(cfg, s).Unknown? || Detect(cfg, s).ObjectStream?) && cfg.parse(s).NullMap?
  {
    DeliveryNeverMeetsNil(cfg, [], s);
  }

  const NULL: Bytes := [110, 117, 108, 108]

  /** The four bytes `null` do it, in one chunk or several. */
  lemma NullStreamWritesToNilMap(cfg: Config, chunks: seq<Bytes>)
    requires cfg.max >= 4 && cfg.parse(NULL) == NullMap && Flatten(chunks) == NULL
    ensures Run(cfg, chunks) == Result([], Some(NilMapWrite))
  {
    FirstNewlineIsFirst(NULL);
    ChunkingIsInvisible(cfg, chunks);
  }

  // ---------------------------------------------------------------- beyond the limit

  // The processor on its own, handed any chunks at all. `StreamPipeline` says what becomes of an
  // over-long stream behind the pipeline, which bounds the chunks and counts before it hands on.

  /**
   Forwarding events, the processor fails for the length of a line exactly if the unfinished line
   and the chunk together exceed the limit, and then sends nothing of the chunk; otherwise it
   delivers, however much came before.
   */
  lemma LineLimitExactlyWhen(cfg: Config, p: State, chunk: Bytes)
    requires p.mode.ModeEvents? && p.result.failure.None?
    ensures var q := Feed(cfg, p, chunk);
            && (q.result.failure == Some(LineLimit) <==> chunk != [] && |p.pending| + |chunk| > cfg.max)
            && (q.result.failure == Some(LineLimit) ==> q.result.events == p.result.events)
            && (|p.pending| + |chunk| <= cfg.max && chunk != [] ==>
                  q.result == Deliver(cfg, p.result.events, p.pending + chunk).result)
            && q.mode.ModeEvents? && q.buffer == p.buffer
  {
    if chunk != [] && |p.pending| + |chunk| <= cfg.max {
      DeliveryNeverMeetsLimit(cfg, p.result.events, p.pending + chunk);
    }
  }

  lemma {:induction false} DeliveryNeverMeetsLimit(cfg: Config, events: seq<Event>, s: Bytes)
    ensures Deliver(cfg, events, s).result.failure != Some(LineLimit)
    decreases |s|
  {
    var n := FirstNewline(s);
    if n < |s| {
      var r := EmitLine(cfg, events, s[..n]);
      if r.failure.None? { DeliveryNeverMeetsLimit(cfg, r.events, s[n + 1..]); }
    }
  }

  /** All ways of cutting `s` give the same events and error. */
  ghost predicate CutsAgree(cfg: Config, s: Bytes) {
    forall a: seq<Bytes>, b: seq<Bytes> :: Flatten(a) == s && Flatten(b) == s ==> Run(cfg, a) == Run(cfg, b)
  }

  /** The bytes that fit in the buffer leave the stream undecided or make it one object. */
  predicate BuffersToTheLimit(cfg: Config, s: Bytes)
    requires |s| > cfg.max
  {
    Detect(cfg, s[..cfg.max]).Unknown? || Detect(cfg, s[..cfg.max]).ObjectStream?
  }

  /** While such a stream still fits, it is being buffered. */
  lemma StillBuffering(cfg: Config, s: Bytes, whole: Bytes)
    requires |s| <= cfg.max < |whole| && s <= whole && BuffersToTheLimit(cfg, whole)
    ensures Detect(cfg, s).Unknown? || Detect(cfg, s).ObjectStream?
  {
    var kept := whole[..cfg.max];
    assert kept == s + kept[|s|..];
    if !Detect(cfg, s).Unknown? { DetectionIsStable(cfg, s, kept[|s|..]); }
  }

  lemma {:induction false} OverfullBufferFails(cfg: Config, s: Bytes, chunks: seq<Bytes>)
    requires |s| <= cfg.max < |s + Flatten(chunks)|
    requires BuffersToTheLimit(cfg, s + Flatten(chunks))
    ensures RunFrom(cfg, After(cfg, s), chunks) == Result([], Some(BufferLimit))
    decreases |chunks|
  {
    StillBuffering(cfg, s, s + Flatten(chunks));
    var chunk, later := chunks[0], chunks[1..];
    RunFromUnfolds(cfg, After(cfg, s), chunks);
    if |s + chunk| <= cfg.max {
      FeedExtends(cfg, s, chunk);
      assert s + Flatten(chunks) == (s + chunk) + Flatten(later);
      OverfullBufferFails(cfg, s + chunk, later);
    }
  }

  lemma RunFromUnfolds(cfg: Config, p: State, chunks: seq<Bytes>)
    requires chunks != [] && p.result.failure.None?
    ensures RunFrom(cfg, p, chunks) == RunFrom(cfg, Feed(cfg, p, chunks[0]), chunks[1..])
  {
  }

  lemma {:induction false} DeliveryOnlyAppends(cfg: Config, events: seq<Event>, s: Bytes)
    ensures |events| <= |Deliver(cfg, events, s).result.events|
    decreases |s|
  {
    var n := FirstNewline(s);
    if n < |s| { DeliveryOnlyAppends(cfg, EmitLine(cfg, events, s[..n]).events, s[n + 1..]); }
  }

  /** A stream detected as events has sent one by then, unless the sink refused it. */
  lemma {:induction false} DetectedEventsAreSent(cfg: Config, s: Bytes)
    requires Detect(cfg, s).EventStream?
    ensures var r := Deliver(cfg, [], s).result; r.events != [] || r.failure == Some(SinkFailed)
    decreases |s|
  {
    var n := FirstNewline(s);
    if cfg.trim(s[..n]) == [] {
      DetectedEventsAreSent(cfg, s[n + 1..]);
    } else {
      DeliveryOnlyAppends(cfg, EmitLine(cfg, [], s[..n]).events, s[n + 1..]);
    }
  }

  lemma {:induction false} SentEventsStay(cfg: Config, p: State, chunks: seq<Bytes>)
    requires p.mode.ModeEvents?
    ensures |p.result.events| <= |RunFrom(cfg, p, chunks).events|
    decreases |chunks|
  {
    if chunks != [] && p.result.failure.None? {
      RunFromUnfolds(cfg, p, chunks);
      DeliveryOnlyAppends(cfg, p.result.events, p.pending + chunks[0]);
      SentEventsStay(cfg, Feed(cfg, p, chunks[0]), chunks[1..]);
    }
  }

  /** An over-long stream in one piece never gets past the buffer. */
  lemma OnePieceOverflows(cfg: Config, s: Bytes)
    requires |s| > cfg.max
    ensures Flatten([s]) == s
    ensures Run(cfg, [s]) == Result([], Some(BufferLimit))
  {
    assert Flatten([s]) == s + Flatten([]) == s;
    assert [] + s == s;
    RunFromUnfolds(cfg, INITIAL, [s]);
  }

  lemma TwoPieces(cfg: Config, head: Bytes, tail: Bytes)
    requires |head| <= cfg.max
    ensures Flatten([head, tail]) == head + tail
    ensures Run(cfg, [head, tail]) == RunFrom(cfg, After(cfg, head), [tail])
  {
    var pieces := [head, tail];
    assert pieces[1..] == [tail];
    assert Flatten([tail]) == tail + Flatten([]) == tail;
    assert [] + head == head;
    FeedExtends(cfg, [], head);
    RunFromUnfolds(cfg, INITIAL, pieces);
  }

  /** Two cuts of an over-long stream that is decided within the limit, with different results. */
  lemma EarlyDecisionSplitsTheCuts(cfg: Config, s: Bytes)
    requires |s| > cfg.max && !BuffersToTheLimit(cfg, s)
    ensures Flatten([s]) == Flatten([s[..cfg.max], s[cfg.max..]]) == s
    ensures Run(cfg, [s]) != Run(cfg, [s[..cfg.max], s[cfg.max..]])
  {
    var head, tail := s[..cfg.max], s[cfg.max..];
    OnePieceOverflows(cfg, s);
    TwoPieces(cfg, head, tail);
    if Detect(cfg, head).EventStream? {
      DetectedEventsAreSent(cfg, head);
      SentEventsStay(cfg, After(cfg, head), [tail]);
    }
  }

  /**
   Exactly when cutting is invisible to the processor on its own: the stream fits, or what fits of it has not been
   recognised as (or rejected for) events.
   */
  lemma CutsAgreeExactlyWhen(cfg: Config, s: Bytes)
    ensures CutsAgree(cfg, s) <==> |s| <= cfg.max || BuffersToTheLimit(cfg, s)
  {
    if |s| <= cfg.max || BuffersToTheLimit(cfg, s) {
      forall a: seq<Bytes>, b: seq<Bytes> | Flatten(a) == s && Flatten(b) == s
        ensures Run(cfg, a) == Run(cfg, b)
      {
        assert [] + s == s;
        if |s| <= cfg.max {
          ChunkingIsInvisible(cfg, a);
          ChunkingIsInvisible(cfg, b);
        } else {
          OverfullBufferFails(cfg, [], a);
          OverfullBufferFails(cfg, [], b);
        }
      }
    } else {
      EarlyDecisionSplitsTheCuts(cfg, s);
    }
  }

  // ---------------------------------------------------------------- the processor itself

  /** `detectRemoteEventStream`. */
  method DetectRemoteEventStream(cfg: Config, bytes: Bytes) returns (d: Detection)
    ensures d == Detect(cfg, bytes)
  {
    var buffer := bytes;
    while true
      invariant Detect(cfg, buffer) == Detect(cfg, bytes)
      decreases |buffer|
    {
      var newline := FirstNewline(buffer);
      if newline == |buffer| { return Unknown; }
      var line := cfg.trim(buffer[..newline]);
      buffer := buffer[newline + 1..];
      if line == [] { continue; }
      return DetectLine(cfg, line);
    }
  }

  class Processor {
    const cfg: Config
    var buffer: Bytes
    var mode: Mode
    var pendingLine: Bytes
    /** The events the sink has taken, and the error returned, if any. */
    var sent: seq<Event>
    var failure: Option<Failure>

    function View(): State
      reads this
    {
      State(mode, buffer, pendingLine, Result(sent, failure))
    }

    constructor (cfg: Config)
      ensures this.cfg == cfg && View() == INITIAL
    {
      this.cfg := cfg;
      buffer, mode, pendingLine, sent, failure := [], ModeUnknown, [], [], None;
    }

    method EmitRemoteEventLine(line: Bytes)
      requires failure.None?
      modifies this`sent, this`failure
      ensures Result(sent, failure) == EmitLine(cfg, old(sent), line)
    {
      var trimmed := cfg.trim(line);
      if trimmed == [] { return; }
      match cfg.decode(trimmed)
      case Garbage => failure := Some(InvalidLine);
      case Unnamed => failure := Some(UnsupportedEvent(""));
      case Unsupported(name) => failure := Some(UnsupportedEvent(name));
      case Named(e) => SinkEmit(e);
    }

    method SinkEmit(e: Event)
      requires failure.None?
      modifies this`sent, this`failure
      ensures Result(sent, failure) == Emit(cfg, old(sent), e)
    {
      if cfg.accepts(sent, e) { sent := sent + [e]; } else { failure := Some(SinkFailed); }
    }

    method ProcessEventChunk(chunk: Bytes)
      requires failure.None?
      modifies this`pendingLine, this`sent, this`failure
      ensures View() == FeedEvents(cfg, old(View()), chunk)
    {
      if |chunk| == 0 { return; }
      pendingLine := pendingLine + chunk;
      if |pendingLine| > cfg.max {
        failure := Some(LineLimit);
        return;
      }
      while true
        invariant failure.None?
        invariant Deliver(cfg, sent, pendingLine) == Deliver(cfg, old(sent), old(pendingLine) + chunk)
        decreases |pendingLine|
      {
        var newline := FirstNewline(pendingLine);
        if newline == |pendingLine| { return; }
        var line := pendingLine[..newline];
        pendingLine := pendingLine[newline + 1..];
        EmitRemoteEventLine(line);
        if failure.Some? { return; }
      }
    }

    method OnChunk(chunk: Bytes)
      requires failure.None?
      modifies this
      ensures View() == Feed(cfg, old(View()), chunk)
    {
      if mode == ModeEvents {
        ProcessEventChunk(chunk);
        return;
      }
      if |buffer| + |chunk| > cfg.max {
        failure := Some(BufferLimit);
        return;
      }
      buffer := buffer + chunk;
      if mode == ModeObject { return; }
      var detected := DetectRemoteEventStream(cfg, buffer);
      match detected
      case Unknown =>
      case ObjectStream => mode := ModeObject;
      case Rejected(name) => failure := Some(DetectedUnsupported(name));
      case EventStream =>
        mode := ModeEvents;
        var buffered := buffer;
        buffer := [];
        ProcessEventChunk(buffered);
    }

    method OnFinish()
      requires failure.None?
      requires !mode.ModeEvents? ==> sent == []
      modifies this`sent, this`failure
      ensures Result(sent, failure) == Finish(cfg, old(View()))
    {
      if mode == ModeEvents {
        if cfg.trim(pendingLine) != [] { EmitRemoteEventLine(pendingLine); }
        return;
      }
      var parsed := cfg.parse(buffer);
      match parsed
      case Invalid => failure := Some(NotAnObject);
      case NullMap => failure := Some(NilMapWrite);
      case Object(payload) => SinkEmit(ResultEvent(cfg, payload));
    }
  }

  /** A whole run over a fresh processor; `chunks` is whatever the reader happened to return. */
  method Process(cfg: Config, chunks: seq<Bytes>) returns (result: Result)
    ensures result == Run(cfg, chunks)
    ensures |Flatten(chunks)| <= cfg.max ==> result == OneShot(cfg, Flatten(chunks))
  {
    if |Flatten(chunks)| <= cfg.max { ChunkingIsInvisible(cfg, chunks); }
    var p := new Processor(cfg);
    for i := 0 to |chunks|
      invariant p.cfg == cfg && p.failure.None?
      invariant !p.mode.ModeEvents? ==> p.sent == []
      invariant RunFrom(cfg, p.View(), chunks[i..]) == Run(cfg, chunks)
    {
      assert chunks[i..][0] == chunks[i] && chunks[i..][1..] == chunks[i + 1..];
      RunFromUnfolds(cfg, p.View(), chunks[i..]);
      p.OnChunk(chunks[i]);
      if p.failure.Some? { return Result(p.sent, p.failure); }
    }
    p.OnFinish();
    result := Result(p.sent, p.failure);
  }
}
