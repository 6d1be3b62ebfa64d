/**
 The gateway's fixed-window rate limiter (backend/internal/gateway/gateway.go). Times are
 nanoseconds since Go's zero time, so an item that was never written has start 0.
 */
module RateLimiter {
  import opened Text
  import opened Clock
  import opened Arithmetic

  datatype Item = Item(start: int, count: int)

  type Items = map<string, Item>

  datatype Call = Call(key: string, limit: int, now: int)

  function KeyOf(raw: string): string {
    var key := TrimSpace(raw);
    if key == "" then "unknown" else key
  }

  /** Entries more than two windows old are dropped. */
  function Evict(items: Items, window: int, now: int): Items {
    map key | key in items && now - items[key].start <= 2 * window :: items[key]
  }

  /** Does a call at `now` open a new window? */
  predicate Opens(items: Items, window: int, key: string, now: int) {
    key !in items || items[key].start == 0 || now - items[key].start >= window || now < items[key].start
  }

  predicate Admits(items: Items, window: int, c: Call) {
    Opens(items, window, c.key, c.now) || items[c.key].count < c.limit
  }

  function Count(items: Items, window: int, c: Call): Items {
    if Opens(items, window, c.key, c.now) then items[c.key := Item(c.now, 1)]
    else if items[c.key].count < c.limit then items[c.key := Item(items[c.key].start, items[c.key].count + 1)]
    else items
  }

  /** The table before a call is counted: with or without eviction. */
  function Swept(items: Items, window: int, evicting: bool, now: int): Items {
    if evicting then Evict(items, window, now) else items
  }

  // ---------------------------------------------------------------- traces

  /** Calls with positive limits, in the order they take the mutex. */
  datatype Trace = Start | Then(before: Trace, call: Call)

  /** The table after a trace. */
  function After(window: int, evicting: bool, t: Trace): Items {
    match t
    case Start => map[]
    case Then(before, c) => Count(Swept(After(window, evicting, before), window, evicting, c.now), window, c)
  }

  /** The answer to call `c` after a trace. */
  predicate Answer(window: int, evicting: bool, before: Trace, c: Call) {
    Admits(Swept(After(window, evicting, before), window, evicting, c.now), window, c)
  }

  /** The clock has left the zero time. */
  predicate Positive(t: Trace) {
    t.Then? ==> Positive(t.before) && t.call.now > 0
  }

  /** The latest clock read so far. */
  function Latest(t: Trace): int {
    match t
    case Start => 0
    case Then(before, c) => if c.now > Latest(before) then c.now else Latest(before)
  }

  /**
   Every call reads the clock before it takes the mutex, so it may come late; none comes more than
   `slack` behind the latest clock read so far.
   */
  predicate Punctual(t: Trace, slack: int) {
    t.Then? ==> Punctual(t.before, slack) && t.call.now >= Latest(t.before) - slack
  }

  // ---------------------------------------------------------------- eviction is invisible

  /** The evicting table is the full one without (some) entries over two windows old. */
  ghost predicate Agree(kept: Items, full: Items, window: int, latest: int) {
    && (forall key :: key in kept ==> key in full && kept[key] == full[key])
    && (forall key :: key in full ==> full[key].start <= latest)
    && (forall key :: key in full && key !in kept ==> latest - full[key].start > 2 * window)
  }

  lemma {:induction false} TablesAgree(window: int, t: Trace)
    requires window > 0 && Punctual(t, window + 1)
    ensures Agree(After(window, true, t), After(window, false, t), window, Latest(t))
  {
    if t.Then? {
      TablesAgree(window, t.before);
    }
  }

  /**
   Over any interleaving of keys, dropping old entries never changes an answer, as long as no call
   comes more than a window and a nanosecond behind the latest clock read.
   */
  lemma EvictionIsInvisible(window: int, before: Trace, c: Call)
    requires window > 0 && Punctual(Then(before, c), window + 1)
    ensures Answer(window, true, before, c) <==> Answer(window, false, before, c)
  {
    TablesAgree(window, before);
  }

  /** One nanosecond more is too much: a call that late finds its full window forgotten. */
  lemma EvictionShowsBeyond(window: int, key: string, other: string) returns (before: Trace, c: Call)
    requires window >= 1 && key != other
    ensures Positive(Then(before, c)) && Punctual(Then(before, c), window + 2)
    ensures Answer(window, true, before, c) && !Answer(window, false, before, c)
  {
    var first := Then(Start, Call(key, 1, 1));
    before := Then(first, Call(other, 1, 2 * window + 2));
    c := Call(key, 1, window);
    assert After(window, true, Start) == After(window, false, Start) == map[];
    assert After(window, true, first) == After(window, false, first) == map[key := Item(1, 1)];
    assert key !in After(window, true, before);
    assert key in After(window, false, before) && After(window, false, before)[key] == Item(1, 1);
    assert Positive(Start) && Positive(first) && Positive(before);
    assert Punctual(Start, window + 2) && Punctual(first, window + 2) && Punctual(before, window + 2);
    assert Latest(Start) == 0 && Latest(first) == 1;
  }

  // ---------------------------------------------------------------- windows opened early

  /** How many calls for `key` at times in `[from, to)` were admitted. */
  function Admitted(window: int, evicting: bool, t: Trace, key: string, from: int, to: int): nat {
    match t
    case Start => 0
    case Then(before, c) =>
      Admitted(window, evicting, before, key, from, to) +
      (if c.key == key && from <= c.now < to && Answer(window, evicting, before, c) then 1 else 0)
  }

  predicate LimitOf(t: Trace, key: string, limit: int) {
    t.Then? ==> LimitOf(t.before, key, limit) && (t.call.key == key ==> t.call.limit == limit)
  }

  /** Does call `c` open a window after a trace? */
  predicate OpensAfter(window: int, evicting: bool, before: Trace, c: Call) {
    Opens(Swept(After(window, evicting, before), window, evicting, c.now), window, c.key, c.now)
  }

  /** When the last window for `key` was opened, whether or not it is still in the table; 0 if never. */
  function LastStart(window: int, evicting: bool, t: Trace, key: string): int {
    match t
    case Start => 0
    case Then(before, c) =>
      if c.key == key && OpensAfter(window, evicting, before, c) then c.now
      else LastStart(window, evicting, before, key)
  }

  /** A call that opens a window although the last one for its key has not passed. */
  predicate Reopens(window: int, evicting: bool, before: Trace, c: Call) {
    && OpensAfter(window, evicting, before, c)
    && 0 < LastStart(window, evicting, before, c.key)
    && c.now < LastStart(window, evicting, before, c.key) + window
  }

  function Reopenings(window: int, evicting: bool, t: Trace, key: string): nat {
    match t
    case Start => 0
    case Then(before, c) =>
      Reopenings(window, evicting, before, key) +
      (if c.key == key && Reopens(window, evicting, before, c) then 1 else 0)
  }

  /** The table holds the last window of a key, or has dropped it for its age. */
  ghost predicate Linked(items: Items, window: int, evicting: bool, key: string, last: int, latest: int) {
    && 0 <= last <= latest
    && (key in items ==> items[key].start == last > 0 && items[key].count >= 1)
    && (key !in items && last > 0 ==> evicting && latest - last > 2 * window)
  }

  lemma {:induction false} TableLinks(window: int, evicting: bool, t: Trace, key: string)
    requires window > 0 && Positive(t)
    ensures Linked(After(window, evicting, t), window, evicting, key, LastStart(window, evicting, t, key), Latest(t))
  {
    if t.Then? { TableLinks(window, evicting, t.before, key); }
  }

  /** Without eviction a window is opened early exactly by a call that finds its window in the future. */
  lemma ReopeningIsTheFutureBranch(window: int, before: Trace, c: Call)
    requires window > 0 && Positive(before) && c.now > 0
    ensures var items := After(window, false, before);
            Reopens(window, false, before, c) <==> c.key in items && c.now < items[c.key].start
  {
    TableLinks(window, false, before, c.key);
  }

  /** How many calls for `key` came after the mutex had been taken with a later clock read. */
  function Late(t: Trace, key: string): nat {
    match t
    case Start => 0
    case Then(before, c) => Late(before, key) + (if c.key == key && c.now < Latest(before) then 1 else 0)
  }

  /** Only late calls open windows early. */
  lemma {:induction false} OnlyLateCallsReopen(window: int, evicting: bool, t: Trace, key: string)
    requires window > 0 && Positive(t)
    ensures Reopenings(window, evicting, t, key) <= Late(t, key)
  {
    if t.Then? {
      OnlyLateCallsReopen(window, evicting, t.before, key);
      TableLinks(window, evicting, t.before, key);
    }
  }

  /** The latest clock read of the calls for `key`. */
  function LatestOf(t: Trace, key: string): int {
    match t
    case Start => 0
    case Then(before, c) => if c.key == key && c.now > LatestOf(before, key) then c.now else LatestOf(before, key)
  }

  /** How many calls for `key` were overtaken by a call for `key`. */
  function Overtaken(t: Trace, key: string): nat {
    match t
    case Start => 0
    case Then(before, c) => Overtaken(before, key) + (if c.key == key && c.now < LatestOf(before, key) then 1 else 0)
  }

  lemma {:induction false} LastStartWasRead(window: int, evicting: bool, t: Trace, key: string)
    requires Positive(t)
    ensures 0 <= LastStart(window, evicting, t, key) <= LatestOf(t, key)
  {
    if t.Then? { LastStartWasRead(window, evicting, t.before, key); }
  }

  lemma SameOpening(window: int, before: Trace, c: Call)
    requires window > 0 && Punctual(Then(before, c), window + 1)
    ensures OpensAfter(window, true, before, c) <==> OpensAfter(window, false, before, c)
  {
    TablesAgree(window, before);
  }

  /** Without eviction, a call that is not overtaken by one for its key opens no window early. */
  lemma OvertakenIfReopens(window: int, before: Trace, c: Call)
    requires window > 0 && Positive(before) && Reopens(window, false, before, c)
    ensures c.now < LatestOf(before, c.key)
  {
    TableLinks(window, false, before, c.key);
    LastStartWasRead(window, false, before, c.key);
  }

  /** Punctual calls reopen no window unless overtaken by another call for the same key. */
  lemma {:induction false} OnlyOvertakenCallsReopen(window: int, t: Trace, key: string)
    requires window > 0 && Positive(t) && Punctual(t, window + 1)
    ensures Reopenings(window, true, t, key) == Reopenings(window, false, t, key) <= Overtaken(t, key)
    ensures LastStart(window, true, t, key) == LastStart(window, false, t, key)
  {
    if t.Then? {
      OnlyOvertakenCallsReopen(window, t.before, key);
      SameOpening(window, t.before, t.call);
      if Reopens(window, false, t.before, t.call) { OvertakenIfReopens(window, t.before, t.call); }
    }
  }

  // ---------------------------------------------------------------- the sliding-window bound

  function CeilDiv(t: int, w: int): int
    requires w > 0
  {
    (t + w - 1) / w
  }

  lemma CeilDivCovers(m: nat, t: int, w: int)
    requires w > 0 && m * w < t
    ensures m + 1 <= CeilDiv(t, w)
  {
    var q := CeilDiv(t, w);
    assert t <= q * w;
    if q <= m { Scale(q, m, w); }
  }

  lemma OneWindow(window: int)
    requires window > 0
    ensures CeilDiv(window, window) == 1
  {
    var q := CeilDiv(window, window);
    CeilDivCovers(0, window, window);
    if q >= 2 { Scale(2, q, window); }
  }

  /** The bound on the calls one key gets admitted in an interval of length `t` by windows a window apart. */
  function Bound(window: int, limit: int, t: int): int
    requires window > 0
  {
    limit * (CeilDiv(t, window) + 1) - 1
  }

  /**
   The calls admitted since the last early opening, against the last window: `m` full windows lie
   between `from` and its start, and it has taken at most `count` calls.
   */
  predicate Accounted(last: int, count: int, window: int, limit: int, from: int, admitted: nat, m: nat) {
    if last == 0 then admitted == 0
    else
      && 1 <= count <= limit
      && (last < from ==> admitted <= count - 1)
      && (last + window <= from ==> admitted == 0)
      && (last >= from ==> last - from >= m * window && admitted <= count + (limit - 1) + limit * m)
  }

  /** A window opens once the last one has passed. */
  lemma NextWindow(last: int, count: int, window: int, limit: int, from: int, admitted: nat, m: nat, now: int,
                   added: nat)
      returns (m': nat)
    requires window > 0 && limit > 0 && now > 0 && (last == 0 || now >= last + window)
    requires Accounted(last, count, window, limit, from, admitted, m)
    requires added <= if now < from then 0 else 1
    ensures Accounted(now, 1, window, limit, from, admitted + added, m')
  {
    m' := 0;
    if last != 0 && last >= from {
      m' := m + 1;
      assert m' * window == m * window + window;
      assert limit * m' == limit * m + limit;
    }
  }

  lemma WithinBound(last: int, count: int, window: int, limit: int, from: int, to: int, admitted: nat, m: nat)
    requires window > 0 && limit > 0 && from < to && 0 < last < to
    requires Accounted(last, count, window, limit, from, admitted, m)
    ensures admitted <= Bound(window, limit, to - from)
  {
    var q := CeilDiv(to - from, window);
    if last >= from {
      CeilDivCovers(m, to - from, window);
      Scale(m + 2, q + 1, limit);
      assert limit * (m + 2) == limit * m + 2 * limit;
    } else {
      CeilDivCovers(0, to - from, window);
      Scale(1, q + 1, limit);
    }
  }

  /** What the table says about the last window: a dropped one may have been full. */
  function CountOf(items: Items, key: string, limit: int): int {
    if key in items then items[key].count else limit
  }

  /** Whether a call counts towards the interval, as a number. */
  function Added(items: Items, window: int, c: Call, from: int, to: int): nat {
    if from <= c.now < to && Admits(items, window, c) then 1 else 0
  }

  /** The account after a call for the key, in a table that links to the account; an early opening starts it anew. */
  lemma CallStep(items: Items, window: int, last: int, limit: int, from: int, to: int, admitted: nat, m: nat, c: Call)
      returns (admitted': nat, m': nat)
    requires window > 0 && limit > 0 && from < to && c.limit == limit && c.now > 0 && last >= 0
    requires c.key in items ==> items[c.key].start == last > 0
    requires c.key !in items || items[c.key].count <= limit
    requires Accounted(last, CountOf(items, c.key, limit), window, limit, from, admitted, m)
    requires admitted <= Bound(window, limit, to - from)
    ensures var opens := Opens(items, window, c.key, c.now);
            && Accounted(if opens then c.now else last, CountOf(Count(items, window, c), c.key, limit),
                         window, limit, from, admitted', m')
            && admitted' == (if opens && 0 < last && c.now < last + window then 0 else admitted)
                            + Added(items, window, c, from, to)
            && admitted' <= Bound(window, limit, to - from)
  {
    var opens, added := Opens(items, window, c.key, c.now), Added(items, window, c, from, to);
    admitted', m' := admitted + added, m;
    if opens && 0 < last && c.now < last + window {
      admitted' := added;
      m' := NextWindow(0, 1, window, limit, from, 0, 0, c.now, added);
    } else if opens {
      m' := NextWindow(last, CountOf(items, c.key, limit), window, limit, from, admitted, m, c.now, added);
    }
    if added == 1 {
      WithinBound(if opens then c.now else last, CountOf(Count(items, window, c), c.key, limit),
                  window, limit, from, to, admitted', m');
    }
  }

  /** Sweeping can only make the last window look fuller. */
  lemma SweepStep(items: Items, window: int, evicting: bool, now: int, key: string, last: int, limit: int, from: int,
                  admitted: nat, m: nat)
    requires Accounted(last, CountOf(items, key, limit), window, limit, from, admitted, m)
    requires limit > 0 && (key !in items || items[key].count <= limit)
    ensures Accounted(last, CountOf(Swept(items, window, evicting, now), key, limit), window, limit, from, admitted, m)
  {
  }

  /**
   A trace splits at its early openings: `admitted` calls since the last of them are accounted for,
   and each stretch before it stays within the bound.
   */
  predicate Balanced(window: int, evicting: bool, t: Trace, key: string, limit: int, from: int, to: int,
                     admitted: nat, m: nat)
    requires window > 0
  {
    && Accounted(LastStart(window, evicting, t, key), CountOf(After(window, evicting, t), key, limit),
                 window, limit, from, admitted, m)
    && admitted <= Bound(window, limit, to - from)
    && Admitted(window, evicting, t, key, from, to)
       <= Reopenings(window, evicting, t, key) * Bound(window, limit, to - from) + admitted
  }

  lemma LimitsHold(window: int, evicting: bool, t: Trace, key: string, limit: int)
    requires LimitOf(t, key, limit) && limit > 0
    ensures key in After(window, evicting, t) ==> After(window, evicting, t)[key].count <= limit
  {
  }

  /** The early opening closes a stretch, within the bound. */
  lemma CloseStretch(total: int, r: nat, bound: int, admitted: nat)
    requires total <= r * bound + admitted && admitted <= bound
    ensures total <= (r + 1) * bound
  {
    assert (r + 1) * bound == r * bound + bound;
  }

  lemma OtherCall(window: int, evicting: bool, t: Trace, key: string, limit: int, from: int, to: int,
                  admitted: nat, m: nat)
    requires window > 0 && limit > 0 && t.Then? && t.call.key != key && LimitOf(t, key, limit)
    requires Balanced(window, evicting, t.before, key, limit, from, to, admitted, m)
    ensures Balanced(window, evicting, t, key, limit, from, to, admitted, m)
  {
    LimitsHold(window, evicting, t.before, key, limit);
    SweepStep(After(window, evicting, t.before), window, evicting, t.call.now, key,
              LastStart(window, evicting, t.before, key), limit, from, admitted, m);
  }

  lemma OwnCall(window: int, evicting: bool, t: Trace, limit: int, from: int, to: int, admitted: nat, m: nat)
      returns (admitted': nat, m': nat)
    requires window > 0 && limit > 0 && from < to && t.Then? && Positive(t) && LimitOf(t, t.call.key, limit)
    requires Balanced(window, evicting, t.before, t.call.key, limit, from, to, admitted, m)
    ensures Balanced(window, evicting, t, t.call.key, limit, from, to, admitted', m')
  {
    var c, items := t.call, After(window, evicting, t.before);
    var last, swept := LastStart(window, evicting, t.before, c.key), Swept(items, window, evicting, c.now);
    LimitsHold(window, evicting, t.before, c.key, limit);
    SweepStep(items, window, evicting, c.now, c.key, last, limit, from, admitted, m);
    TableLinks(window, evicting, t.before, c.key);
    admitted', m' := CallStep(swept, window, last, limit, from, to, admitted, m, c);
    CloseStretch(Admitted(window, evicting, t.before, c.key, from, to), Reopenings(window, evicting, t.before, c.key),
                 Bound(window, limit, to - from), admitted);
  }

  lemma {:induction false} AccountedAlways(window: int, evicting: bool, t: Trace, key: string, limit: int, from: int,
                                            to: int)
      returns (admitted: nat, m: nat)
    requires window > 0 && limit > 0 && from < to && Positive(t) && LimitOf(t, key, limit)
    ensures Balanced(window, evicting, t, key, limit, from, to, admitted, m)
  {
    if t.Start? { return 0, 0; }
    admitted, m := AccountedAlways(window, evicting, t.before, key, limit, from, to);
    if t.call.key == key {
      admitted, m := OwnCall(window, evicting, t, limit, from, to, admitted, m);
    } else {
      OtherCall(window, evicting, t, key, limit, from, to, admitted, m);
    }
  }

  /**
   With one limit for the key, an interval of length `length` admits at most
   `limit * (ceil(length / window) + 1) - 1` of its calls for each early opening and once more,
   whatever the other keys do and however late calls come; that is `2 * limit - 1` each for one
   window's length. Without late calls there is no early opening.
   */
  lemma SlidingWindowBound(window: int, evicting: bool, t: Trace, key: string, limit: int, from: int, length: int)
    requires window > 0 && limit > 0 && length > 0 && Positive(t) && LimitOf(t, key, limit)
    ensures Admitted(window, evicting, t, key, from, from + length)
            <= (Reopenings(window, evicting, t, key) + 1) * (limit * (CeilDiv(length, window) + 1) - 1)
    ensures length == window ==>
              Admitted(window, evicting, t, key, from, from + length)
              <= (Reopenings(window, evicting, t, key) + 1) * (2 * limit - 1)
    ensures Reopenings(window, evicting, t, key) <= Late(t, key)
  {
    var admitted, m := AccountedAlways(window, evicting, t, key, limit, from, from + length);
    CloseStretch(Admitted(window, evicting, t, key, from, from + length), Reopenings(window, evicting, t, key),
                 Bound(window, limit, length), admitted);
    OneWindow(window);
    OnlyLateCallsReopen(window, evicting, t, key);
  }

  // ---------------------------------------------------------------- the bound is reached

  /** `k` calls in one window, each overtaken by the one before it: a limit of one admits them all. */
  function Overtaking(key: string, k: nat, n: nat): Trace
    requires n <= k
  {
    if n == 0 then Start else Then(Overtaking(key, k, n - 1), Call(key, 1, k - n + 1))
  }

  lemma {:induction false} OvertakenCallsPassAnyLimit(window: int, key: string, k: nat, n: nat)
    requires window > 0 && n <= k <= window
    ensures var t := Overtaking(key, k, n);
            && Positive(t) && LimitOf(t, key, 1)
            && (n > 0 ==> After(window, true, t) == map[key := Item(k - n + 1, 1)])
            && (n == 0 ==> After(window, true, t) == map[])
            && Admitted(window, true, t, key, 1, 1 + window) == n
    decreases n
  {
    if n > 0 {
      OvertakenCallsPassAnyLimit(window, key, k, n - 1);
      var before, c := Overtaking(key, k, n - 1), Call(key, 1, k - n + 1);
      assert Evict(After(window, true, before), window, c.now) == After(window, true, before);
    }
  }

  function Repeat(t: Trace, c: Call, n: nat): Trace {
    if n == 0 then t else Then(Repeat(t, c, n - 1), c)
  }

  /** `n` more calls inside an open window with room for them are all admitted. */
  lemma {:induction false} RepeatFills(window: int, t: Trace, c: Call, n: nat, from: int, to: int)
    requires c.key in After(window, false, t) && from <= c.now < to
    requires var item := After(window, false, t)[c.key];
             0 < item.start <= c.now < item.start + window && item.count + n <= c.limit
    ensures var item, filled := After(window, false, t)[c.key], After(window, false, Repeat(t, c, n));
            c.key in filled && filled[c.key] == Item(item.start, item.count + n)
    ensures Admitted(window, false, Repeat(t, c, n), c.key, from, to) == Admitted(window, false, t, c.key, from, to) + n
    ensures Reopenings(window, false, Repeat(t, c, n), c.key) == Reopenings(window, false, t, c.key)
    decreases n
  {
    if n > 0 { RepeatFills(window, t, c, n - 1, from, to); }
  }

  /** Every clock read so far lies between 1 and `until`, and every call for the key has the limit. */
  predicate Early(t: Trace, key: string, limit: int, until: int) {
    t.Then? ==>
      && Early(t.before, key, limit, until)
      && 1 <= t.call.now <= until
      && (t.call.key == key ==> t.call.limit == limit)
  }

  lemma {:induction false} RepeatIsEarly(t: Trace, c: Call, n: nat, until: int)
    requires Early(t, c.key, c.limit, until) && 1 <= c.now <= until
    ensures Early(Repeat(t, c, n), c.key, c.limit, until)
    decreases n
  {
    if n > 0 { RepeatIsEarly(t, c, n - 1, until); }
  }

  lemma {:induction false} EarlyIsPunctual(t: Trace, key: string, limit: int, until: int)
    requires Early(t, key, limit, until) && until >= 0
    ensures Positive(t) && LimitOf(t, key, limit) && Punctual(t, until) && 0 <= Latest(t) <= until
  {
    if t.Then? { EarlyIsPunctual(t.before, key, limit, until); }
  }

  lemma {:induction false} SameAdmissions(window: int, t: Trace, key: string, from: int, to: int)
    requires window > 0 && Punctual(t, window + 1)
    ensures Admitted(window, true, t, key, from, to) == Admitted(window, false, t, key, from, to)
  {
    if t.Then? {
      SameAdmissions(window, t.before, key, from, to);
      EvictionIsInvisible(window, t.before, t.call);
    }
  }

  /** The trace so far has filled the window that starts at `start`. */
  ghost predicate Full(window: int, t: Trace, key: string, limit: int, start: int, admitted: int, reopened: int) {
    && Early(t, key, limit, window + 1)
    && key in After(window, false, t) && After(window, false, t)[key] == Item(start, limit)
    && Admitted(window, false, t, key, 2, 2 + window) == admitted
    && Reopenings(window, false, t, key) == reopened
  }

  /** A window that has just begun is filled by calls at `now`. */
  lemma FillWindow(window: int, begun: Trace, key: string, limit: int, now: int) returns (t: Trace)
    requires limit > 0 && 2 <= now <= window + 1 && Early(begun, key, limit, window + 1)
    requires key in After(window, false, begun)
    requires var item := After(window, false, begun)[key];
             item.count == 1 && 0 < item.start <= now < item.start + window
    ensures Full(window, t, key, limit, After(window, false, begun)[key].start,
                 Admitted(window, false, begun, key, 2, 2 + window) + limit - 1, Reopenings(window, false, begun, key))
  {
    var c := Call(key, limit, now);
    t := Repeat(begun, c, limit - 1);
    RepeatFills(window, begun, c, limit - 1, 2, 2 + window);
    RepeatIsEarly(begun, c, limit - 1, window + 1);
  }

  /** A call at 1 opens a window, early if there was one before, and calls at its end fill it. */
  lemma FirstHalf(window: int, before: Trace, key: string, limit: int) returns (t: Trace)
    requires window >= 2 && limit > 0 && Early(before, key, limit, window + 1)
    requires before == Start
             || (key in After(window, false, before) && After(window, false, before)[key].start == window + 1)
    ensures Full(window, t, key, limit, 1, Admitted(window, false, before, key, 2, 2 + window) + limit - 1,
                 Reopenings(window, false, before, key) + if before == Start then 0 else 1)
  {
    var c := Call(key, limit, 1);
    var begun := Then(before, c);
    if before == Start {
      assert After(window, false, before) == map[];
    } else {
      EarlyIsPunctual(before, key, limit, window + 1);
      TableLinks(window, false, before, key);
    }
    assert OpensAfter(window, false, before, c);
    assert After(window, false, begun)[key] == Item(1, 1);
    t := FillWindow(window, begun, key, limit, window);
  }

  /** The next window opens as soon as it can, and is filled at once. */
  lemma SecondHalf(window: int, before: Trace, key: string, limit: int, admitted: int, reopened: int) returns (t: Trace)
    requires window >= 2 && limit > 0 && Full(window, before, key, limit, 1, admitted, reopened)
    ensures Full(window, t, key, limit, window + 1, admitted + limit, reopened)
  {
    var c := Call(key, limit, window + 1);
    var begun := Then(before, c);
    EarlyIsPunctual(before, key, limit, window + 1);
    TableLinks(window, false, before, key);
    assert OpensAfter(window, false, before, c) && Answer(window, false, before, c);
    assert After(window, false, begun)[key] == Item(window + 1, 1);
    t := FillWindow(window, begun, key, limit, window + 1);
  }

  lemma {:induction false} Rounds(window: int, limit: int, key: string, r: nat) returns (t: Trace)
    requires window >= 2 && limit > 0
    ensures t.Then? && Full(window, t, key, limit, window + 1, (r + 1) * (2 * limit - 1), r)
    decreases r
  {
    var before := Start;
    if r > 0 { before := Rounds(window, limit, key, r - 1); }
    assert (r + 1) * (2 * limit - 1) == r * (2 * limit - 1) + (2 * limit - 1);
    var half := FirstHalf(window, before, key, limit);
    t := SecondHalf(window, half, key, limit, r * (2 * limit - 1) + limit - 1, r);
    assert t.Then?;
  }

  /**
   For every limit and every number of early openings the bound is reached within one window's
   length, with calls late enough to be overtaken and not too late for eviction to show.
   */
  lemma BoundIsReached(window: int, limit: int, key: string, r: nat) returns (t: Trace)
    requires window >= 2 && limit > 0
    ensures Positive(t) && LimitOf(t, key, limit) && Punctual(t, window + 1)
    ensures Reopenings(window, true, t, key) == r
    ensures Admitted(window, true, t, key, 2, 2 + window) == (r + 1) * (2 * limit - 1)
  {
    t := Rounds(window, limit, key, r);
    EarlyIsPunctual(t, key, limit, window + 1);
    SameAdmissions(window, t, key, 2, 2 + window);
    OnlyOvertakenCallsReopen(window, t, key);
  }

  // ---------------------------------------------------------------- the limiter itself

  class Limiter {
    var window: int
    var items: Items

    constructor (window: int)
      ensures this.window == window && items == map[]
    {
      this.window := window;
      items := map[];
    }

    method Purge(now: int)
      modifies this`items
      ensures items == Evict(old(items), window, now)
    {
      var unseen := items.Keys;
      while unseen != {}
        invariant unseen <= items.Keys <= old(items).Keys
        invariant forall k :: k in items ==> items[k] == old(items)[k]
        invariant forall k :: k in old(items) && k !in unseen ==>
                    (k in items <==> now - old(items)[k].start <= 2 * window)
        decreases unseen
      {
        var itemKey :| itemKey in unseen;
        unseen := unseen - {itemKey};
        if now - items[itemKey].start > 2 * window { items := items - {itemKey}; }
      }
    }

    /** The part of `Allow` under the mutex. */
    method Hit(key: string, limit: int, now: int) returns (allowed: bool)
      requires limit > 0
      modifies this
      ensures window == if old(window) <= 0 then MINUTE else old(window)
      ensures allowed == Admits(Evict(old(items), window, now), window, Call(key, limit, now))
      ensures items == Count(Evict(old(items), window, now), window, Call(key, limit, now))
      ensures forall kept :: kept in items ==> now - items[kept].start <= 2 * window
    {
      if window <= 0 { window := MINUTE; }
      Purge(now);
      if key !in items || items[key].start == 0 || now - items[key].start >= window || now < items[key].start {
        items := items[key := Item(now, 1)];
        return true;
      }
      var item := items[key];
      if item.count >= limit { return false; }
      items := items[key := Item(item.start, item.count + 1)];
      return true;
    }

    method Allow(rawKey: string, limit: int, now: int) returns (allowed: bool)
      modifies this
      ensures limit <= 0 ==> allowed && items == old(items) && window == old(window)
      ensures limit > 0 ==>
                && window == (if old(window) <= 0 then MINUTE else old(window))
                && allowed == Admits(Evict(old(items), window, now), window, Call(KeyOf(rawKey), limit, now))
                && items == Count(Evict(old(items), window, now), window, Call(KeyOf(rawKey), limit, now))
                && forall kept :: kept in items ==> now - items[kept].start <= 2 * window
      ensures limit > 0 ==>
                var key := if Blank(rawKey) then "unknown" else TrimSpace(rawKey);
                && key in items
                && (forall other :: other != key ==>
                      (other in items <==> other in old(items) && now - old(items)[other].start <= 2 * window))
                && (forall other :: other != key && other in items ==> items[other] == old(items)[other])
    {
      if limit <= 0 { return true; }
      BlankMeansNothingLeft(rawKey);
      allowed := Hit(KeyOf(rawKey), limit, now);
    }
  }
  /** Two clients never share a window: on an empty table both are let in, whatever the limit. */
  method TwoClients(window: int, limit: int, a: string, b: string, now: int) returns (first: bool, second: bool)
    requires !Blank(a) && !Blank(b) && TrimSpace(a) != TrimSpace(b)
    ensures first && second
  {
    var limiter := new Limiter(window);
    first := limiter.Allow(a, limit, now);
    second := limiter.Allow(b, limit, now);
  }

  /** One client, whatever the white space around its address, shares one. */
  method OneClient(window: int, a: string, b: string, now: int) returns (first: bool, second: bool)
    requires TrimSpace(a) == TrimSpace(b) && now > 0
    ensures first && !second
  {
    var limiter := new Limiter(window);
    first := limiter.Allow(a, 1, now);
    second := limiter.Allow(b, 1, now);
  }
}
