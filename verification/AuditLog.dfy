/**
 The hash-chained, signed audit log: `Append` extends it, `Verify` walks it
 (backend/internal/auditlog/store.go). The rows are listed in ascending sequence order, as
 the table's queries return them.
 */
module AuditLog {
  import opened Text

  /** The columns that are hashed as they are stored. */
  datatype Details = Details(
    id: string, kind: string, actorDeviceID: string, actorLabel: string, clientIP: string,
    serverID: string, operation: string, pathHash: string, path: string, beforeHash: string,
    afterHash: string, versionID: string, requestID: string
  )

  datatype Row = Row(
    sequence: int, details: Details, metadataJSON: string, prevHash: string,
    createdAt: string, hash: string, signature: string
  )

  /** What `canonicalEvent` marshals: metadata compacted, the time re-formatted. */
  datatype Payload = Payload(sequence: int, details: Details, metadata: string, prevHash: string, createdAt: string)

  /** Hashing, signing, JSON and time formatting. */
  datatype Scheme = Scheme(
    digest: string -> string,
    canonical: Payload -> string,
    sign: string -> string,
    verifies: (string, string) -> bool,
    marshal: map<string, string> -> string,
    isMetadata: string -> bool,
    compact: string -> string,
    parseTime: string -> Option<int>,
    formatTime: int -> string
  )

  /** What is written can be read back. */
  ghost predicate RoundTrips(c: Scheme) {
    && (forall h :: c.verifies(h, c.sign(h)))
    && (forall m :: c.isMetadata(c.marshal(m)))
    && (forall t :: c.parseTime(c.formatTime(t)) == Some(t))
  }

  /** Different payloads never share a hash, and no hash is the empty string. */
  ghost predicate Binding(c: Scheme) {
    && (forall a, b :: c.digest(a) == c.digest(b) ==> a == b)
    && (forall a, b :: c.canonical(a) == c.canonical(b) ==> a == b)
    && (forall a :: c.digest(a) != "")
  }

  function Hash(c: Scheme, p: Payload): string {
    c.digest(c.canonical(p))
  }

  function PayloadOf(c: Scheme, row: Row): Payload
    requires c.parseTime(row.createdAt).Some?
  {
    Payload(row.sequence, row.details, c.compact(row.metadataJSON), row.prevHash,
            c.formatTime(c.parseTime(row.createdAt).value))
  }

  // ---------------------------------------------------------------- what a valid log is

  function HashBefore(log: seq<Row>, i: nat): string
    requires i <= |log|
  {
    if i == 0 then "" else log[i - 1].hash
  }

  /** Row `i` is in its place, chained to the row before it, hashed and signed. */
  predicate ValidAt(c: Scheme, log: seq<Row>, i: nat)
    requires i < |log|
  {
    var row := log[i];
    && c.parseTime(row.createdAt).Some?
    && row.sequence == i + 1
    && row.prevHash == HashBefore(log, i)
    && c.isMetadata(row.metadataJSON)
    && row.hash == Hash(c, PayloadOf(c, row))
    && c.verifies(row.hash, row.signature)
  }

  predicate ValidUpTo(c: Scheme, log: seq<Row>, n: nat)
    requires n <= |log|
  {
    forall i :: 0 <= i < n ==> ValidAt(c, log, i)
  }

  predicate ValidLog(c: Scheme, log: seq<Row>) {
    ValidUpTo(c, log, |log|)
  }

  /** Row `n` is the first that is not valid, because its time cannot be parsed. */
  predicate UnreadableAt(c: Scheme, log: seq<Row>, n: nat)
    requires n < |log|
  {
    ValidUpTo(c, log, n) && c.parseTime(log[n].createdAt).None?
  }

  // ---------------------------------------------------------------- Verify

  datatype VerifyResult =
    | Unreadable
    | Verdict(ok: bool, events: nat, headHash: string)

  method Verify(c: Scheme, log: seq<Row>) returns (r: VerifyResult)
    ensures r.Verdict? ==>
              && r.events <= |log|
              && r.headHash == HashBefore(log, r.events)
              && (r.ok <==> ValidLog(c, log))
              && (r.ok ==> r.events == |log|)
              && forall k: nat :: k <= |log| ==> (ValidLog(c, log[..k]) <==> k <= r.events)
    ensures r.Unreadable? <==> exists n: nat :: n < |log| && UnreadableAt(c, log, n)
  {
    var events: nat, headHash := 0, "";
    var expectedSequence, previousHash := 1, "";
    for i := 0 to |log|
      invariant events == i && headHash == previousHash == HashBefore(log, i) && expectedSequence == i + 1
      invariant ValidUpTo(c, log, i)
    {
      var row := log[i];
      var created := c.parseTime(row.createdAt);
      if created.None? {
        assert UnreadableAt(c, log, i);
        return Unreadable;
      }
      var valid :=
        && row.sequence == expectedSequence
        && row.prevHash == previousHash
        && c.isMetadata(row.metadataJSON)
        && Hash(c, PayloadOf(c, row)) == row.hash
        && c.verifies(row.hash, row.signature);
      if !valid {
        assert !ValidAt(c, log, i);
        FirstInvalidRow(c, log, i);
        return Verdict(false, events, headHash);
      }
      events, headHash := row.sequence, row.hash;
      previousHash := row.hash;
      expectedSequence := expectedSequence + 1;
    }
    PrefixesOfValid(c, log);
    ValidLogIsReadable(c, log);
    return Verdict(true, events, headHash);
  }

  lemma ValidLogIsReadable(c: Scheme, log: seq<Row>)
    requires ValidLog(c, log)
    ensures forall n: nat :: n < |log| ==> !UnreadableAt(c, log, n)
  {
    forall n: nat | n < |log| ensures !UnreadableAt(c, log, n) { assert ValidAt(c, log, n); }
  }

  lemma ValidPrefix(c: Scheme, log: seq<Row>, k: nat)
    requires k <= |log|
    ensures ValidLog(c, log[..k]) <==> ValidUpTo(c, log, k)
  {
    var short := log[..k];
    forall i | 0 <= i < k ensures ValidAt(c, short, i) <==> ValidAt(c, log, i) {
      assert HashBefore(short, i) == HashBefore(log, i);
    }
  }

  /** Every prefix of a valid log is valid. */
  lemma PrefixesOfValid(c: Scheme, log: seq<Row>)
    requires ValidLog(c, log)
    ensures forall k: nat :: k <= |log| ==> ValidLog(c, log[..k])
  {
    forall k: nat | k <= |log| ensures ValidLog(c, log[..k]) { ValidPrefix(c, log, k); }
  }

  /** The rows before the first invalid one are the longest prefix that is valid on its own. */
  lemma FirstInvalidRow(c: Scheme, log: seq<Row>, n: nat)
    requires n < |log| && ValidUpTo(c, log, n) && !ValidAt(c, log, n)
    ensures forall k: nat :: k <= |log| ==> (ValidLog(c, log[..k]) <==> k <= n)
    ensures forall m: nat :: m < |log| && UnreadableAt(c, log, m) ==> m == n
  {
    forall k: nat | k <= |log| ensures ValidLog(c, log[..k]) <==> k <= n { ValidPrefix(c, log, k); }
    forall m: nat | m < |log| && UnreadableAt(c, log, m) ensures m == n {
      assert !ValidAt(c, log, m);
    }
  }

  // ---------------------------------------------------------------- Append

  /** A normalised input, with the identifier and the time `Append` draws. */
  datatype Input = Input(details: Details, metadata: map<string, string>, now: int)

  /** `Append` refuses an event without a type, and an identifier already in the table. */
  predicate Accepted(log: seq<Row>, input: Input) {
    input.details.kind != "" && forall row :: row in log ==> row.details.id != input.details.id
  }

  function NextRow(c: Scheme, log: seq<Row>, input: Input): Row {
    var sequence := if log == [] then 1 else log[|log| - 1].sequence + 1;
    var prevHash := if log == [] then "" else log[|log| - 1].hash;
    var details := input.details.(pathHash := c.digest(input.details.path));
    var json := c.marshal(input.metadata);
    var created := c.formatTime(input.now);
    var hash := Hash(c, Payload(sequence, details, c.compact(json), prevHash, created));
    Row(sequence, details, json, prevHash, created, hash, c.sign(hash))
  }

  function Append(c: Scheme, log: seq<Row>, input: Input): seq<Row> {
    if Accepted(log, input) then log + [NextRow(c, log, input)] else log
  }

  function AppendAll(c: Scheme, log: seq<Row>, inputs: seq<Input>): seq<Row>
    decreases |inputs|
  {
    if inputs == [] then log else AppendAll(c, Append(c, log, inputs[0]), inputs[1..])
  }

  /** The number of appends that succeed. */
  function Successes(c: Scheme, log: seq<Row>, inputs: seq<Input>): nat
    decreases |inputs|
  {
    if inputs == [] then 0
    else (if Accepted(log, inputs[0]) then 1 else 0) + Successes(c, Append(c, log, inputs[0]), inputs[1..])
  }

  lemma AppendKeepsValid(c: Scheme, log: seq<Row>, input: Input)
    requires RoundTrips(c) && ValidLog(c, log)
    ensures ValidLog(c, Append(c, log, input))
  {
    var longer := Append(c, log, input);
    if longer != log {
      ValidPrefix(c, longer, |log|);
      assert longer[..|log|] == log;
      if log != [] { assert ValidAt(c, log, |log| - 1); }
      var row := longer[|log|];
      assert c.parseTime(row.createdAt) == Some(input.now);
      assert ValidAt(c, longer, |log|);
    }
  }

  /** Row `row` is about `input`: what was to be recorded is stored as it was given. */
  predicate Records(c: Scheme, row: Row, input: Input) {
    && row.details == input.details.(pathHash := c.digest(input.details.path))
    && row.metadataJSON == c.marshal(input.metadata)
    && row.createdAt == c.formatTime(input.now)
  }

  /** An accepted event becomes the last row, and a refused one leaves the log as it is. */
  lemma AppendRecordsTheEvent(c: Scheme, log: seq<Row>, input: Input)
    ensures input.details.kind == "" || (exists row :: row in log && row.details.id == input.details.id) ==>
              Append(c, log, input) == log
    ensures input.details.kind != "" && (forall row :: row in log ==> row.details.id != input.details.id) ==>
              && |Append(c, log, input)| == |log| + 1 && log <= Append(c, log, input)
              && Records(c, Append(c, log, input)[|log|], input)
  {
  }

  /** The inputs that become rows: those with a type whose identifier is not in the log by then. */
  function AcceptedInputs(c: Scheme, log: seq<Row>, inputs: seq<Input>): seq<Input>
    decreases |inputs|
  {
    if inputs == [] then []
    else
      (if Accepted(log, inputs[0]) then [inputs[0]] else []) +
      AcceptedInputs(c, Append(c, log, inputs[0]), inputs[1..])
  }

  /** The rows of `all` after the first `n` record `inputs`, one each and in order. */
  predicate RecordsFrom(c: Scheme, all: seq<Row>, n: nat, inputs: seq<Input>) {
    |all| == n + |inputs| && forall j :: 0 <= j < |inputs| ==> Records(c, all[n + j], inputs[j])
  }

  lemma OneMoreRecorded(c: Scheme, all: seq<Row>, n: nat, first: Input, later: seq<Input>)
    requires RecordsFrom(c, all, n + 1, later) && Records(c, all[n], first)
    ensures RecordsFrom(c, all, n, [first] + later)
  {
    forall j | 0 <= j < |later| + 1 ensures Records(c, all[n + j], ([first] + later)[j]) {
      if j > 0 { assert Records(c, all[n + 1 + (j - 1)], later[j - 1]); }
    }
  }

  /** Over any appends, the new rows record the accepted inputs, one each and in order. */
  lemma {:induction false} ProducedLogsRecordTheEvents(c: Scheme, log: seq<Row>, inputs: seq<Input>)
    ensures log <= AppendAll(c, log, inputs)
    ensures RecordsFrom(c, AppendAll(c, log, inputs), |log|, AcceptedInputs(c, log, inputs))
    decreases |inputs|
  {
    if inputs != [] {
      var longer := Append(c, log, inputs[0]);
      var later := AcceptedInputs(c, longer, inputs[1..]);
      AppendRecordsTheEvent(c, log, inputs[0]);
      ProducedLogsRecordTheEvents(c, longer, inputs[1..]);
      if Accepted(log, inputs[0]) {
        assert AppendAll(c, log, inputs)[|log|] == longer[|log|];
        OneMoreRecorded(c, AppendAll(c, log, inputs), |log|, inputs[0], later);
      } else {
        assert AcceptedInputs(c, log, inputs) == later;
      }
    }
  }

  /** No two rows have one identifier, and every row has a type. */
  predicate Identified(log: seq<Row>) {
    && (forall i :: 0 <= i < |log| ==> log[i].details.kind != "")
    && (forall i, j :: 0 <= i < j < |log| ==> log[i].details.id != log[j].details.id)
  }

  lemma {:induction false} ProducedLogsAreIdentified(c: Scheme, log: seq<Row>, inputs: seq<Input>)
    requires Identified(log)
    ensures Identified(AppendAll(c, log, inputs))
    decreases |inputs|
  {
    if inputs != [] {
      AppendRecordsTheEvent(c, log, inputs[0]);
      ProducedLogsAreIdentified(c, Append(c, log, inputs[0]), inputs[1..]);
    }
  }

  /** What row `i` must show: its place, its chain to the row before, its hash and its signature. */
  predicate Sealed(c: Scheme, log: seq<Row>, i: nat)
    requires i < |log|
  {
    var row := log[i];
    && row.sequence == i + 1
    && row.prevHash == (if i == 0 then "" else log[i - 1].hash)
    && c.verifies(row.hash, row.signature)
    && c.isMetadata(row.metadataJSON)
    && c.parseTime(row.createdAt).Some?
    && row.hash == c.digest(c.canonical(Payload(row.sequence, row.details, c.compact(row.metadataJSON), row.prevHash,
                                                c.formatTime(c.parseTime(row.createdAt).value))))
  }

  /** A log verifies exactly if every row is sealed to the one before it; any that is not is found. */
  lemma ValidRowsAreSealed(c: Scheme, log: seq<Row>)
    ensures ValidLog(c, log) <==> forall i :: 0 <= i < |log| ==> Sealed(c, log, i)
  {
    forall i | 0 <= i < |log| ensures ValidAt(c, log, i) <==> Sealed(c, log, i) {}
  }

  /** Every log the producer can build satisfies the checker, row for row. */
  lemma {:induction false} ProducedLogsVerify(c: Scheme, log: seq<Row>, inputs: seq<Input>)
    requires RoundTrips(c) && ValidLog(c, log)
    ensures ValidLog(c, AppendAll(c, log, inputs))
    ensures |AppendAll(c, log, inputs)| == |log| + Successes(c, log, inputs)
    ensures log <= AppendAll(c, log, inputs)
    decreases |inputs|
  {
    if inputs != [] {
      AppendKeepsValid(c, log, inputs[0]);
      ProducedLogsVerify(c, Append(c, log, inputs[0]), inputs[1..]);
    }
  }

  // ---------------------------------------------------------------- binding

  /** Equal in everything that is hashed; metadata up to compaction, the time up to formatting. */
  predicate SameEvent(c: Scheme, a: Row, b: Row) {
    && a.sequence == b.sequence && a.details == b.details
    && c.compact(a.metadataJSON) == c.compact(b.metadataJSON)
    && a.prevHash == b.prevHash && a.hash == b.hash
    && c.parseTime(a.createdAt).Some? && c.parseTime(b.createdAt).Some?
    && c.formatTime(c.parseTime(a.createdAt).value) == c.formatTime(c.parseTime(b.createdAt).value)
  }

  lemma EqualHashesBind(c: Scheme, a: seq<Row>, b: seq<Row>, i: nat, j: nat)
    requires Binding(c) && i < |a| && j < |b| && ValidAt(c, a, i) && ValidAt(c, b, j)
    requires a[i].hash == b[j].hash
    ensures i == j && SameEvent(c, a[i], b[j])
    ensures HashBefore(a, i) == HashBefore(b, j)
  {
    var p, q := PayloadOf(c, a[i]), PayloadOf(c, b[j]);
    assert c.canonical(p) == c.canonical(q);
    assert p == q;
  }

  /** One hash fixes the whole history before it. */
  lemma {:induction false} HashBindsHistory(c: Scheme, a: seq<Row>, b: seq<Row>, n: nat, i: nat)
    requires Binding(c) && n <= |a| && n <= |b| && ValidUpTo(c, a, n) && ValidUpTo(c, b, n)
    requires HashBefore(a, n) == HashBefore(b, n)
    requires i < n
    ensures SameEvent(c, a[i], b[i])
    decreases n
  {
    EqualHashesBind(c, a, b, n - 1, n - 1);
    if i < n - 1 { HashBindsHistory(c, a, b, n - 1, i); }
  }

  /**
   Two logs that verify with the same head hash have the same length and agree, position by
   position, in every hashed field.
   */
  lemma HeadHashBindsTheLog(c: Scheme, a: seq<Row>, b: seq<Row>)
    requires Binding(c) && ValidLog(c, a) && ValidLog(c, b)
    requires HashBefore(a, |a|) == HashBefore(b, |b|)
    ensures |a| == |b|
    ensures forall i :: 0 <= i < |a| ==> SameEvent(c, a[i], b[i])
  {
    if a != [] { assert ValidAt(c, a, |a| - 1); }
    if b != [] { assert ValidAt(c, b, |b| - 1); }
    if a != [] && b != [] { EqualHashesBind(c, a, b, |a| - 1, |b| - 1); }
    forall i | 0 <= i < |a| ensures SameEvent(c, a[i], b[i]) { HashBindsHistory(c, a, b, |a|, i); }
  }

  /** A head remembered from earlier and still found in a valid log vouches for all that preceded it. */
  lemma RememberedHeadVouches(c: Scheme, earlier: seq<Row>, now: seq<Row>, j: nat, i: nat)
    requires Binding(c) && ValidLog(c, earlier) && ValidLog(c, now)
    requires earlier != [] && j < |now| && now[j].hash == earlier[|earlier| - 1].hash
    requires i < |earlier|
    ensures j == |earlier| - 1 && SameEvent(c, earlier[i], now[i])
  {
    var n := |earlier| - 1;
    assert ValidAt(c, earlier, n) && ValidAt(c, now, j);
    EqualHashesBind(c, earlier, now, n, j);
    HashBindsHistory(c, earlier, now, n + 1, i);
  }

  // ---------------------------------------------------------------- the store

  datatype Head = Head(sequence: int, hash: string, signature: string)

  class Store {
    const scheme: Scheme
    var rows: seq<Row>

    constructor (scheme: Scheme)
      ensures this.scheme == scheme && rows == []
    {
      this.scheme := scheme;
      rows := [];
    }

    /** One transaction: read the head, build the row on it, insert it. */
    method AppendEvent(input: Input) returns (row: Option<Row>)
      modifies this
      ensures rows == Append(scheme, old(rows), input)
      ensures row.Some? <==> Accepted(old(rows), input)
      ensures row.Some? <==> && input.details.kind != ""
                             && forall other :: other in old(rows) ==> other.details.id != input.details.id
      ensures row.Some? ==> rows == old(rows) + [row.value] && Records(scheme, row.value, input)
      ensures row.None? ==> rows == old(rows)
    {
      if input.details.kind == "" { return None; }
      var details := input.details.(pathHash := scheme.digest(input.details.path));
      var sequence, prevHash := 1, "";
      if rows != [] {
        var head := rows[|rows| - 1];
        sequence, prevHash := head.sequence + 1, head.hash;
      }
      var json, created := scheme.marshal(input.metadata), scheme.formatTime(input.now);
      var hash := Hash(scheme, Payload(sequence, details, scheme.compact(json), prevHash, created));
      if exists other :: other in rows && other.details.id == details.id { return None; }
      var next := Row(sequence, details, json, prevHash, created, hash, scheme.sign(hash));
      rows := rows + [next];
      return Some(next);
    }

    method CurrentHead() returns (head: Option<Head>)
      ensures head.None? <==> rows == []
      ensures head.Some? ==> head.value.hash == HashBefore(rows, |rows|)
      ensures head.Some? && ValidLog(scheme, rows) ==>
                head.value.sequence == |rows| && scheme.verifies(head.value.hash, head.value.signature)
    {
      if rows == [] { return None; }
      var last := rows[|rows| - 1];
      assert ValidLog(scheme, rows) ==> ValidAt(scheme, rows, |rows| - 1);
      return Some(Head(last.sequence, last.hash, last.signature));
    }
  }

  /** Producer and checker together: whatever is appended, the head and the verdict agree. */
  method AppendThenVerify(c: Scheme, inputs: seq<Input>) returns (r: VerifyResult, head: Option<Head>)
    requires RoundTrips(c)
    ensures r.Verdict? && r.ok && r.events == Successes(c, [], inputs)
    ensures r.headHash == if head.Some? then head.value.hash else ""
    ensures head.Some? ==> head.value.sequence == r.events
  {
    var store := new Store(c);
    for i := 0 to |inputs|
      invariant store.scheme == c
      invariant AppendAll(c, store.rows, inputs[i..]) == AppendAll(c, [], inputs)
    {
      assert inputs[i..][0] == inputs[i] && inputs[i..][1..] == inputs[i + 1..];
      var row := store.AppendEvent(inputs[i]);
    }
    ProducedLogsVerify(c, [], inputs);
    r := Verify(c, store.rows);
    ValidLogIsReadable(c, store.rows);
    head := store.CurrentHead();
  }
}
