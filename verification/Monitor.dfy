/**
 Monitored data of a desktop app: requests share a cached result per key, and at most one
 background loop per key refreshes it (backend/internal/desktopapps/service.go). Every lock
 section is one step; requests, loops and their script runs interleave freely.
 */
module Monitor {
  import opened Text

  type Key = string
  type Payload = string

  /** How a script run ends; a run may succeed without a result object. */
  datatype Outcome = Ok(result: Option<Payload>) | Err(text: string)

  datatype Entry = Entry(result: Option<Payload>, errText: string, updatedAt: int, lastAccess: int, refreshing: bool)

  type Entries = map<Key, Entry>

  const NO_ENTRY := Entry(None, "", 0, 0, false)

  function Lookup(entries: Entries, key: Key): Entry {
    if key in entries then entries[key] else NO_ENTRY
  }

  /** `monitoredEntry`. */
  function Touch(entries: Entries, key: Key, now: int): Entries {
    entries[key := Lookup(entries, key).(lastAccess := now)]
  }

  /** `storeMonitoredDataResult`: a failure keeps the result that is there. */
  function Store(entries: Entries, key: Key, o: Outcome, now: int): Entries {
    var e := Lookup(entries, key).(updatedAt := now);
    entries[key := match o
                   case Ok(result) => e.(result := result, errText := "")
                   case Err(text) => e.(errText := text)]
  }

  predicate NeedsLoad(e: Entry) {
    e.result.None? && e.errText == ""
  }

  predicate Stale(entries: Entries, key: Key, now: int, ttl: int) {
    key !in entries || now - entries[key].lastAccess > ttl
  }

  // ---------------------------------------------------------------- requests and loops

  datatype Request = Touched(key: Key) | Loading(key: Key) | Ensuring(key: Key)

  datatype Loop = Waiting(key: Key) | Refreshing(key: Key)

  /** The shared map, the requests and refresher loops under way, and (as history) what was stored. */
  datatype State = State(
    entries: Entries,
    requests: map<nat, Request>,
    loops: map<nat, Loop>,
    stores: map<Key, seq<Outcome>>
  )

  const INITIAL := State(map[], map[], map[], map[])

  datatype Step =
    | Arrive(r: nat, key: Key, now: int)
    | Look(r: nat)
    | Loaded(r: nat, o: Outcome, now: int)
    | Ensure(r: nat, spawned: nat, now: int)
    | Ticker(l: nat, now: int)
    | Refreshed(l: nat, o: Outcome, now: int)

  function Stores(s: State, key: Key): seq<Outcome> {
    if key in s.stores then s.stores[key] else []
  }

  function Stored(s: State, key: Key, o: Outcome, now: int): State {
    s.(entries := Store(s.entries, key, o, now), stores := s.stores[key := Stores(s, key) + [o]])
  }

  /** One step; a step that is not enabled does nothing. A spawned loop has a new identity. */
  function Apply(ttl: int, s: State, step: Step): State {
    match step
    case Arrive(r, key, now) =>
      if r in s.requests then s
      else s.(entries := Touch(s.entries, key, now), requests := s.requests[r := Touched(key)])
    case Look(r) =>
      if r in s.requests && s.requests[r].Touched? then
        var key := s.requests[r].key;
        s.(requests := s.requests[r := if NeedsLoad(Lookup(s.entries, key)) then Loading(key) else Ensuring(key)])
      else s
    case Loaded(r, o, now) =>
      if r in s.requests && s.requests[r].Loading? then
        var key := s.requests[r].key;
        Stored(s, key, o, now).(requests := if o.Ok? then s.requests[r := Ensuring(key)] else s.requests - {r})
      else s
    case Ensure(r, spawned, now) =>
      if r in s.requests && s.requests[r].Ensuring? && spawned !in s.loops then
        var key := s.requests[r].key;
        var e := if key in s.entries then s.entries[key] else NO_ENTRY.(lastAccess := now);
        var t := s.(requests := s.requests - {r});
        if e.refreshing then t
        else t.(entries := s.entries[key := e.(refreshing := true)], loops := s.loops[spawned := Waiting(key)])
      else s
    case Ticker(l, now) =>
      if l in s.loops && s.loops[l].Waiting? then
        var key := s.loops[l].key;
        if Stale(s.entries, key, now, ttl) then
          s.(loops := s.loops - {l},
             entries := if key in s.entries then s.entries[key := s.entries[key].(refreshing := false)] else s.entries)
        else s.(loops := s.loops[l := Refreshing(key)])
      else s
    case Refreshed(l, o, now) =>
      if l in s.loops && s.loops[l].Refreshing? then
        Stored(s, s.loops[l].key, o, now).(loops := s.loops[l := Waiting(s.loops[l].key)])
      else s
  }

  datatype Trace = Start | Then(before: Trace, step: Step)

  function After(ttl: int, t: Trace): State {
    match t
    case Start => INITIAL
    case Then(before, step) => Apply(ttl, After(ttl, before), step)
  }

  ghost predicate Reachable(ttl: int, s: State) {
    exists t :: After(ttl, t) == s
  }

  // ---------------------------------------------------------------- one loop per key

  predicate IsRefreshing(s: State, key: Key) {
    Lookup(s.entries, key).refreshing
  }

  ghost predicate LiveFor(s: State, l: nat, key: Key) {
    l in s.loops && s.loops[l].key == key
  }

  /** `refreshing` marks exactly the keys with a live loop, and no key has two. */
  ghost predicate OneLoopPerKey(s: State) {
    && (forall l :: l in s.loops ==> IsRefreshing(s, s.loops[l].key))
    && (forall l, m :: l in s.loops && m in s.loops && s.loops[l].key == s.loops[m].key ==> l == m)
    && (forall key :: IsRefreshing(s, key) ==> exists l :: LiveFor(s, l, key))
  }

  /** Steps that neither mark, unmark, start nor end anything. */
  lemma SameLoops(s: State, next: State)
    requires OneLoopPerKey(s)
    requires forall key :: IsRefreshing(next, key) == IsRefreshing(s, key)
    requires next.loops.Keys == s.loops.Keys && forall l :: l in s.loops ==> next.loops[l].key == s.loops[l].key
    ensures OneLoopPerKey(next)
  {
    forall key | IsRefreshing(next, key) ensures exists l :: LiveFor(next, l, key) {
      assert IsRefreshing(s, key);
      var l :| LiveFor(s, l, key);
      assert LiveFor(next, l, key);
    }
  }

  lemma LoopStarts(s: State, next: State, key: Key, l: nat)
    requires OneLoopPerKey(s) && l !in s.loops && !IsRefreshing(s, key)
    requires next.loops == s.loops[l := Waiting(key)]
    requires forall k :: IsRefreshing(next, k) <==> IsRefreshing(s, k) || k == key
    ensures OneLoopPerKey(next)
  {
    forall k | IsRefreshing(next, k) ensures exists m :: LiveFor(next, m, k) {
      if k == key {
        assert LiveFor(next, l, k);
      } else {
        var m :| LiveFor(s, m, k);
        assert LiveFor(next, m, k);
      }
    }
  }

  lemma LoopEnds(s: State, next: State, l: nat)
    requires OneLoopPerKey(s) && l in s.loops
    requires next.loops == s.loops - {l}
    requires forall k :: IsRefreshing(next, k) <==> IsRefreshing(s, k) && k != s.loops[l].key
    ensures OneLoopPerKey(next)
  {
    forall k | IsRefreshing(next, k) ensures exists m :: LiveFor(next, m, k) {
      var m :| LiveFor(s, m, k);
      assert LiveFor(next, m, k);
    }
  }

  lemma ArriveKeepsOneLoop(ttl: int, s: State, step: Step)
    requires OneLoopPerKey(s) && step.Arrive?
    ensures OneLoopPerKey(Apply(ttl, s, step))
  {
    SameLoops(s, Apply(ttl, s, step));
  }

  lemma LoadedKeepsOneLoop(ttl: int, s: State, step: Step)
    requires OneLoopPerKey(s) && step.Loaded?
    ensures OneLoopPerKey(Apply(ttl, s, step))
  {
    SameLoops(s, Apply(ttl, s, step));
  }

  lemma RefreshedKeepsOneLoop(ttl: int, s: State, step: Step)
    requires OneLoopPerKey(s) && step.Refreshed?
    ensures OneLoopPerKey(Apply(ttl, s, step))
  {
    SameLoops(s, Apply(ttl, s, step));
  }

  lemma EnsureKeepsOneLoop(ttl: int, s: State, step: Step)
    requires OneLoopPerKey(s) && step.Ensure?
    ensures OneLoopPerKey(Apply(ttl, s, step))
  {
    var next := Apply(ttl, s, step);
    if next.loops != s.loops { LoopStarts(s, next, s.requests[step.r].key, step.spawned); } else { SameLoops(s, next); }
  }

  lemma TickerKeepsOneLoop(ttl: int, s: State, step: Step)
    requires OneLoopPerKey(s) && step.Ticker?
    ensures OneLoopPerKey(Apply(ttl, s, step))
  {
    var next := Apply(ttl, s, step);
    if step.l in s.loops && step.l !in next.loops {
      StaleLoopUnmarks(ttl, s, step);
      LoopEnds(s, next, step.l);
    } else {
      SameLoops(s, next);
    }
  }

  lemma StaleLoopUnmarks(ttl: int, s: State, step: Step)
    requires step.Ticker? && step.l in s.loops && step.l !in Apply(ttl, s, step).loops
    ensures var next := Apply(ttl, s, step);
            && next.loops == s.loops - {step.l}
            && forall k :: IsRefreshing(next, k) <==> IsRefreshing(s, k) && k != s.loops[step.l].key
  {
  }

  lemma StepKeepsOneLoop(ttl: int, s: State, step: Step)
    requires OneLoopPerKey(s)
    ensures OneLoopPerKey(Apply(ttl, s, step))
  {
    match step
    case Arrive(_, _, _) => ArriveKeepsOneLoop(ttl, s, step);
    case Look(_) => SameLoops(s, Apply(ttl, s, step));
    case Loaded(_, _, _) => LoadedKeepsOneLoop(ttl, s, step);
    case Ensure(_, _, _) => EnsureKeepsOneLoop(ttl, s, step);
    case Ticker(_, _) => TickerKeepsOneLoop(ttl, s, step);
    case Refreshed(_, _, _) => RefreshedKeepsOneLoop(ttl, s, step);
  }

  // ---------------------------------------------------------------- when a key was last asked for

  /** The instant of the last request for `key`, if there was one. */
  function LastAsked(ttl: int, t: Trace, key: Key): Option<int> {
    match t
    case Start => None
    case Then(before, step) =>
      if step.Arrive? && step.key == key && step.r !in After(ttl, before).requests then Some(step.now)
      else LastAsked(ttl, before, key)
  }

  /** Whoever is under way for a key has an entry to work on. */
  ghost predicate HaveEntries(s: State) {
    && (forall r :: r in s.requests ==> s.requests[r].key in s.entries)
    && (forall l :: l in s.loops ==> s.loops[l].key in s.entries)
  }

  lemma StepKeepsEntries(ttl: int, s: State, step: Step)
    requires HaveEntries(s)
    ensures HaveEntries(Apply(ttl, s, step))
  {
  }

  /** Only a request for the key moves the time of its last access, or makes its entry. */
  lemma OnlyArrivalsTouch(ttl: int, s: State, step: Step, key: Key)
    requires HaveEntries(s)
    ensures var next := Apply(ttl, s, step);
            if step.Arrive? && step.key == key && step.r !in s.requests then
              key in next.entries && next.entries[key].lastAccess == step.now
            else
              (key in next.entries <==> key in s.entries)
              && (key in s.entries ==> next.entries[key].lastAccess == s.entries[key].lastAccess)
  {
  }

  /** Over all interleavings, a key has an entry exactly if it was asked for, with the instant it was last asked for. */
  lemma {:induction false} AccessIsTheLastRequest(ttl: int, t: Trace, key: Key)
    ensures HaveEntries(After(ttl, t))
    ensures key in After(ttl, t).entries <==> LastAsked(ttl, t, key).Some?
    ensures key in After(ttl, t).entries ==>
              After(ttl, t).entries[key].lastAccess == LastAsked(ttl, t, key).value
    decreases t
  {
    if t.Then? {
      AccessIsTheLastRequest(ttl, t.before, key);
      StepKeepsEntries(ttl, After(ttl, t.before), t.step);
      OnlyArrivalsTouch(ttl, After(ttl, t.before), t.step, key);
    }
  }

  /** A loop ends only when a tick finds that nobody has asked for the key for longer than the time to live. */
  lemma LoopEndsOnlyWhenStale(ttl: int, t: Trace, step: Step, key: Key)
    requires IsRefreshing(After(ttl, t), key) && !IsRefreshing(Apply(ttl, After(ttl, t), step), key)
    ensures step.Ticker? && LiveFor(After(ttl, t), step.l, key)
    ensures LastAsked(ttl, t, key).Some? && step.now - LastAsked(ttl, t, key).value > ttl
  {
    AccessIsTheLastRequest(ttl, t, key);
    OneTickEnds(ttl, After(ttl, t), step, key);
  }

  lemma OneTickEnds(ttl: int, s: State, step: Step, key: Key)
    requires IsRefreshing(s, key) && !IsRefreshing(Apply(ttl, s, step), key) && key in s.entries
    ensures step.Ticker? && LiveFor(s, step.l, key) && step.now - s.entries[key].lastAccess > ttl
  {
  }

  /** A tick ends a waiting loop exactly if the key was last asked for longer ago; otherwise the loop refreshes. */
  lemma TickEndsExactlyWhenStale(ttl: int, t: Trace, l: nat, now: int)
    requires l in After(ttl, t).loops && After(ttl, t).loops[l].Waiting?
    ensures var key, next := After(ttl, t).loops[l].key, Apply(ttl, After(ttl, t), Ticker(l, now));
            && LastAsked(ttl, t, key).Some?
            && (if now - LastAsked(ttl, t, key).value > ttl then l !in next.loops && !IsRefreshing(next, key)
                else l in next.loops && next.loops[l] == Refreshing(key))
  {
    AccessIsTheLastRequest(ttl, t, After(ttl, t).loops[l].key);
  }

  /** A request that gets to its end leaves a live loop behind. */
  lemma EnsureLeavesALoop(ttl: int, s: State, step: Step)
    requires OneLoopPerKey(s) && step.Ensure?
    requires step.r in s.requests && s.requests[step.r].Ensuring? && step.spawned !in s.loops
    ensures var next, key := Apply(ttl, s, step), s.requests[step.r].key;
            IsRefreshing(next, key) && exists l :: LiveFor(next, l, key)
  {
    StepKeepsOneLoop(ttl, s, step);
  }

  // ---------------------------------------------------------------- what is served

  /** The result of the last successful store. */
  function LastGood(stores: seq<Outcome>): Option<Payload> {
    if stores == [] then None
    else
      var last := stores[|stores| - 1];
      if last.Ok? then last.result else LastGood(stores[..|stores| - 1])
  }

  function LastError(stores: seq<Outcome>): string {
    if stores == [] || stores[|stores| - 1].Ok? then "" else stores[|stores| - 1].text
  }

  /** The entry of a key holds its last good result and the error of its last store. */
  predicate ServesKey(s: State, key: Key) {
    && Lookup(s.entries, key).result == LastGood(Stores(s, key))
    && Lookup(s.entries, key).errText == LastError(Stores(s, key))
  }

  ghost predicate ServesHistory(s: State) {
    forall key :: ServesKey(s, key)
  }

  lemma StoreServes(s: State, key: Key, o: Outcome, now: int, other: Key)
    requires ServesKey(s, other)
    ensures ServesKey(Stored(s, key, o, now), other)
  {
    if other == key {
      var longer := Stores(s, key) + [o];
      assert longer[..|longer| - 1] == Stores(s, key);
      assert Stores(Stored(s, key, o, now), key) == longer;
    }
  }

  lemma StepKeepsServing(ttl: int, s: State, step: Step, key: Key)
    requires ServesKey(s, key)
    ensures ServesKey(Apply(ttl, s, step), key)
  {
    var next := Apply(ttl, s, step);
    if step.Loaded? && step.r in s.requests && s.requests[step.r].Loading? {
      StoreServes(s, s.requests[step.r].key, step.o, step.now, key);
    } else if step.Refreshed? && step.l in s.loops && s.loops[step.l].Refreshing? {
      StoreServes(s, s.loops[step.l].key, step.o, step.now, key);
    }
  }

  lemma {:induction false} TraceKeeps(ttl: int, t: Trace)
    ensures OneLoopPerKey(After(ttl, t)) && ServesHistory(After(ttl, t))
    decreases t
  {
    if t.Then? {
      TraceKeeps(ttl, t.before);
      StepKeepsOneLoop(ttl, After(ttl, t.before), t.step);
      forall key ensures ServesKey(After(ttl, t), key) { StepKeepsServing(ttl, After(ttl, t.before), t.step, key); }
    }
  }

  /** A request loads by itself exactly if nothing good was ever stored last and no error is on record. */
  lemma LoadsExactlyWhen(ttl: int, s: State, r: nat)
    requires Reachable(ttl, s) && r in s.requests && s.requests[r].Touched?
    ensures var key, next := s.requests[r].key, Apply(ttl, s, Look(r));
            && r in next.requests && next.requests[r].key == key && next.entries == s.entries
            && (next.requests[r].Loading? <==> LastGood(Stores(s, key)) == None && LastError(Stores(s, key)) == "")
            && (next.requests[r].Ensuring? <==> !next.requests[r].Loading?)
  {
    CacheIsTheLastGoodResult(ttl, s, s.requests[r].key);
  }

  /** Over all interleavings: `refreshing` holds exactly when one loop is live for the key. */
  lemma RefreshingMeansOneLoop(ttl: int, s: State, key: Key)
    requires Reachable(ttl, s)
    ensures IsRefreshing(s, key) <==> exists l :: LiveFor(s, l, key)
    ensures forall l, m :: LiveFor(s, l, key) && LiveFor(s, m, key) ==> l == m
  {
    var t :| After(ttl, t) == s;
    TraceKeeps(ttl, t);
  }

  /** Over all interleavings: the cache is the last good result, and the error text the last store's. */
  lemma CacheIsTheLastGoodResult(ttl: int, s: State, key: Key)
    requires Reachable(ttl, s)
    ensures Lookup(s.entries, key).result == LastGood(Stores(s, key))
    ensures Lookup(s.entries, key).errText == LastError(Stores(s, key))
  {
    var t :| After(ttl, t) == s;
    TraceKeeps(ttl, t);
    assert ServesKey(s, key);
  }

  /** After a store the error text is empty exactly if it was a success, or an error without a text. */
  lemma ErrorTextTellsTheOutcome(entries: Entries, key: Key, o: Outcome, now: int)
    ensures var after := Store(entries, key, o, now)[key];
            && (after.errText == "" <==> o.Ok? || o.text == "")
            && (o.Err? ==> after.result == Lookup(entries, key).result)
            && after.refreshing == Lookup(entries, key).refreshing
            && after.lastAccess == Lookup(entries, key).lastAccess
            && after.updatedAt == now && (o.Ok? ==> after.result == o.result)
  {
  }

  /** A request whose own load fails ends there and starts no loop; one whose load succeeds goes on to ensure one. */
  lemma LoadSays(ttl: int, s: State, r: nat, o: Outcome, now: int)
    requires r in s.requests && s.requests[r].Loading?
    ensures var next := Apply(ttl, s, Loaded(r, o, now));
            && next.loops == s.loops
            && (o.Err? ==> r !in next.requests)
            && (o.Ok? ==> r in next.requests && next.requests[r] == Ensuring(s.requests[r].key))
            && Stores(next, s.requests[r].key) == Stores(s, s.requests[r].key) + [o]
  {
  }

  /**
   What is served after a failure, and whether it is loaded again, is the same as after a success
   that returned what was there before, exactly if the error has no text.
   */
  lemma TextlessFailurePassesForSuccess(entries: Entries, key: Key, text: string, now: int)
    ensures Store(entries, key, Err(text), now) == Store(entries, key, Ok(Lookup(entries, key).result), now)
            <==> text == ""
  {
    var failed := Store(entries, key, Err(text), now)[key];
    var passed := Store(entries, key, Ok(Lookup(entries, key).result), now)[key];
    assert failed == passed <==> text == "";
  }

  /** The first load of a key fails without a text: the next request still sees nothing wrong, and loads again. */
  lemma TextlessFirstFailure(now: int)
    ensures var e := Store(map[], "pve/1", Err(""), now)["pve/1"];
            e.errText == "" && e.result.None? && NeedsLoad(e)
  {
  }

  // ---------------------------------------------------------------- the service

  class Service {
    var entries: Entries

    constructor ()
      ensures entries == map[]
    {
      entries := map[];
    }

    method MonitoredEntry(key: Key, now: int)
      modifies this
      ensures entries == Touch(old(entries), key, now)
      ensures key in entries && entries[key].lastAccess == now
      ensures key in old(entries) ==> entries[key] == old(entries)[key].(lastAccess := now)
      ensures entries - {key} == old(entries) - {key}
    {
      var e := NO_ENTRY;
      if key in entries { e := entries[key]; }
      entries := entries[key := e.(lastAccess := now)];
    }

    method StoreResult(key: Key, o: Outcome, now: int)
      modifies this
      ensures entries == Store(old(entries), key, o, now)
    {
      var e := NO_ENTRY;
      if key in entries { e := entries[key]; }
      e := e.(updatedAt := now);
      match o {
        case Err(text) => e := e.(errText := text);
        case Ok(result) => e := e.(result := result, errText := "");
      }
      entries := entries[key := e];
    }

    /** `ensurePVEMonitor` up to the spawn: the caller starts a loop exactly if `spawn`. */
    method EnsureMonitor(key: Key, now: int) returns (spawn: bool)
      modifies this
      ensures spawn <==> !Lookup(old(entries), key).refreshing
      ensures spawn ==>
                entries == old(entries)[key := (if key in old(entries) then old(entries)[key]
                                                else NO_ENTRY.(lastAccess := now)).(refreshing := true)]
      ensures !spawn ==> entries == old(entries)
    {
      var e := NO_ENTRY.(lastAccess := now);
      if key in entries { e := entries[key]; }
      if e.refreshing { return false; }
      entries := entries[key := e.(refreshing := true)];
      return true;
    }

    /** One tick of the loop: it ends when nobody asked for `ttl`. */
    method Tick(key: Key, now: int, ttl: int) returns (ends: bool)
      modifies this
      ensures ends <==> Stale(old(entries), key, now, ttl)
      ensures entries == if ends && key in old(entries)
                         then old(entries)[key := old(entries)[key].(refreshing := false)] else old(entries)
    {
      if key in entries && now - entries[key].lastAccess <= ttl { return false; }
      if key in entries { entries := entries[key := entries[key].(refreshing := false)]; }
      return true;
    }
  }
}
