/**
 Connecting every server after its jump server: a depth-first search over the jump graph that
 keeps a map of what is being visited and a map of what is connected
 (backend/internal/httpapi/app.go).
 */
module ConnectAll {
  import opened Text
  import opened Arithmetic
  import opened JumpChains

  /** One call of `Runtime.Connect` and whether it reported a connection. */
  datatype Attempt = Attempt(id: string, ok: bool)

  datatype Status =
    | Connected
    | CycleFound
    | JumpMissing
    | JumpDown(reason: Status)
    | ConnectFailed

  /** The status text of a failure quotes the jump server's. */
  predicate BlamesCycle(s: Status) {
    match s
    case CycleFound => true
    case JumpDown(reason) => BlamesCycle(reason)
    case _ => false
  }

  // ---------------------------------------------------------------- which servers can connect

  /** `id` can be connected along a chain of at most `n` servers, each of which connects. */
  predicate ConnectableIn(inv: Inventory, ok: string -> bool, n: nat, id: string)
    decreases n
  {
    n > 0 && id in inv && ok(id) && (inv[id].chained ==> ConnectableIn(inv, ok, n - 1, inv[id].jumpID))
  }

  ghost predicate Connectable(inv: Inventory, ok: string -> bool, id: string) {
    exists n: nat :: ConnectableIn(inv, ok, n, id)
  }

  /** A set that holds every server that connects and is direct or has its jump server in the set. */
  ghost predicate Closed(inv: Inventory, ok: string -> bool, s: set<string>) {
    forall id :: id in inv && ok(id) && (inv[id].chained ==> inv[id].jumpID in s) ==> id in s
  }

  lemma {:induction false} ConnectableInMore(inv: Inventory, ok: string -> bool, n: nat, m: nat, id: string)
    requires ConnectableIn(inv, ok, n, id) && n <= m
    ensures ConnectableIn(inv, ok, m, id)
    decreases n
  {
    if inv[id].chained { ConnectableInMore(inv, ok, n - 1, m - 1, inv[id].jumpID); }
  }

  lemma {:induction false} InEveryClosedSet(inv: Inventory, ok: string -> bool, s: set<string>, n: nat, id: string)
    requires Closed(inv, ok, s) && ConnectableIn(inv, ok, n, id)
    ensures id in s
    decreases n
  {
    if inv[id].chained { InEveryClosedSet(inv, ok, s, n - 1, inv[id].jumpID); }
  }

  /** The connectable servers are the least closed set. */
  lemma ConnectableIsLeastClosed(inv: Inventory, ok: string -> bool, s: set<string>)
    requires forall id :: id in s <==> Connectable(inv, ok, id)
    ensures Closed(inv, ok, s)
    ensures forall t: set<string> :: Closed(inv, ok, t) ==> s <= t
  {
    forall id | id in inv && ok(id) && (inv[id].chained ==> inv[id].jumpID in s)
      ensures id in s
    {
      if inv[id].chained {
        var n: nat :| ConnectableIn(inv, ok, n, inv[id].jumpID);
        assert ConnectableIn(inv, ok, n + 1, id);
      } else {
        assert ConnectableIn(inv, ok, 1, id);
      }
    }
    forall t: set<string>, id | Closed(inv, ok, t) && id in s
      ensures id in t
    {
      var n: nat :| ConnectableIn(inv, ok, n, id);
      InEveryClosedSet(inv, ok, t, n, id);
    }
  }

  /** `v` waits for `id`: if `v` can be connected, then `id` can be along a shorter chain. */
  ghost predicate WaitsFor(inv: Inventory, ok: string -> bool, v: string, id: string) {
    forall n: nat :: ConnectableIn(inv, ok, n, v) ==> n > 0 && ConnectableIn(inv, ok, n - 1, id)
  }

  lemma WaitsForJump(inv: Inventory, ok: string -> bool, v: string, id: string)
    requires id in inv && inv[id].chained
    requires v == id || WaitsFor(inv, ok, v, id)
    ensures WaitsFor(inv, ok, v, inv[id].jumpID)
  {
    forall n: nat | ConnectableIn(inv, ok, n, v)
      ensures n > 0 && ConnectableIn(inv, ok, n - 1, inv[id].jumpID)
    {
      if v != id { ConnectableInMore(inv, ok, n - 2, n - 1, inv[id].jumpID); }
    }
  }

  /** A chained server connects exactly when it can be dialled and its jump server connects. */
  lemma ConnectableStep(inv: Inventory, ok: string -> bool, id: string)
    requires id in inv
    ensures Connectable(inv, ok, id) <==>
              ok(id) && (inv[id].chained ==> inv[id].jumpID in inv && Connectable(inv, ok, inv[id].jumpID))
  {
    if ok(id) && inv[id].chained && Connectable(inv, ok, inv[id].jumpID) {
      var n: nat :| ConnectableIn(inv, ok, n, inv[id].jumpID);
      assert ConnectableIn(inv, ok, n + 1, id);
    }
    if ok(id) && !inv[id].chained { assert ConnectableIn(inv, ok, 1, id); }
    if n: nat :| ConnectableIn(inv, ok, n, id) {
      assert inv[id].chained ==> ConnectableIn(inv, ok, n - 1, inv[id].jumpID);
    }
  }

  /** The chain from `v` arrives at `id` after at least one jump. */
  ghost predicate LeadsTo(inv: Inventory, v: string, id: string) {
    exists n: nat :: n > 0 && Follow(inv, v, n) == Some(id)
  }

  lemma LeadsToJump(inv: Inventory, v: string, id: string)
    requires id in inv && inv[id].chained
    requires v == id || LeadsTo(inv, v, id)
    ensures LeadsTo(inv, v, inv[id].jumpID)
  {
    if v == id {
      assert Follow(inv, id, 1) == Some(inv[id].jumpID);
    } else {
      var n: nat :| n > 0 && Follow(inv, v, n) == Some(id);
      FollowOnwards(inv, v, n, 1);
      assert Follow(inv, v, n + 1) == Some(inv[id].jumpID);
    }
  }

  lemma {:induction false} WaitingForItselfFails(inv: Inventory, ok: string -> bool, id: string, n: nat)
    requires WaitsFor(inv, ok, id, id)
    ensures !ConnectableIn(inv, ok, n, id)
  {
    if ConnectableIn(inv, ok, n, id) { WaitingForItselfFails(inv, ok, id, n - 1); }
  }

  // ---------------------------------------------------------------- chains that never end

  ghost predicate NeverEnds(inv: Inventory, id: string) {
    forall n: nat :: Follow(inv, id, n).Some?
  }

  lemma NeverEndsOnward(inv: Inventory, id: string)
    ensures NeverEnds(inv, id) <==> id in inv && inv[id].chained && NeverEnds(inv, inv[id].jumpID)
  {
    if NeverEnds(inv, id) {
      assert Follow(inv, id, 1).Some?;
      forall n: nat ensures Follow(inv, inv[id].jumpID, n).Some? { assert Follow(inv, id, n + 1).Some?; }
    }
    if id in inv && inv[id].chained && NeverEnds(inv, inv[id].jumpID) {
      forall n: nat ensures Follow(inv, id, n).Some? {}
    }
  }

  lemma {:induction false} FollowFewer(inv: Inventory, id: string, n: nat, m: nat)
    requires Follow(inv, id, n).Some? && m <= n
    ensures Follow(inv, id, m).Some?
    decreases m
  {
    if m > 0 { FollowFewer(inv, inv[id].jumpID, n - 1, m - 1); }
  }

  /** A chain that leads back to its start never ends. */
  lemma RoundNeverEnds(inv: Inventory, id: string)
    requires LeadsTo(inv, id, id)
    ensures NeverEnds(inv, id)
  {
    var period: nat :| period > 0 && Follow(inv, id, period) == Some(id);
    forall n: nat ensures Follow(inv, id, n).Some? {
      LoopsForever(inv, id, period, n);
      MultiplesGrow(n, period);
      FollowFewer(inv, id, n * period, n);
    }
  }

  /** A chain that never ends runs into a cycle: there are only so many servers. */
  lemma NeverEndingIsCyclic(inv: Inventory, id: string)
    requires NeverEnds(inv, id)
    ensures !Acyclic(inv)
  {
    var walk := (k: nat) => if Follow(inv, id, k).Some? then Follow(inv, id, k).value else "";
    forall k: nat ensures walk(k) in inv.Keys {
      FollowOnwards(inv, id, k, 1);
      assert Follow(inv, id, k + 1).Some?;
    }
    if j: nat, k: nat :| j < k && walk(j) == walk(k) {
      assert Follow(inv, id, j).Some? && Follow(inv, id, k).Some?;
      FollowOnwards(inv, id, j, k - j);
      assert Follow(inv, walk(j), k - j) == Some(walk(j));
    } else {
      Pigeonhole(walk, |inv.Keys| + 1, inv.Keys);
      assert false;
    }
  }

  /** The status of `id`, if there is one, blames a cycle exactly if its chain never ends. */
  ghost predicate Truthful(inv: Inventory, recorded: map<string, Status>, id: string) {
    id in recorded ==> (BlamesCycle(recorded[id]) <==> NeverEnds(inv, id))
  }

  ghost predicate StaysTruthful(inv: Inventory, before: map<string, Status>, after: map<string, Status>) {
    forall id :: Truthful(inv, before, id) ==> Truthful(inv, after, id)
  }

  // ---------------------------------------------------------------- the order of attempts

  predicate Succeeded(attempts: seq<Attempt>, id: string) {
    Attempt(id, true) in attempts
  }

  /** Chained servers are tried only after their jump server connected; nobody connects twice. */
  predicate WellOrdered(inv: Inventory, attempts: seq<Attempt>)
  {
    attempts != [] ==>
      var last, before := attempts[|attempts| - 1], attempts[..|attempts| - 1];
      && WellOrdered(inv, before)
      && last.id in inv
      && (inv[last.id].chained ==> Succeeded(before, inv[last.id].jumpID))
      && !Succeeded(before, last.id)
  }

  lemma {:induction false} OrderOfAttempts(inv: Inventory, attempts: seq<Attempt>, i: nat)
    requires WellOrdered(inv, attempts) && i < |attempts|
    ensures attempts[i].id in inv
    ensures inv[attempts[i].id].chained ==>
              exists j :: 0 <= j < i && attempts[j] == Attempt(inv[attempts[i].id].jumpID, true)
    ensures forall j :: 0 <= j < i && attempts[j].ok ==> attempts[j].id != attempts[i].id
    decreases |attempts|
  {
    var before := attempts[..|attempts| - 1];
    if i < |attempts| - 1 {
      OrderOfAttempts(inv, before, i);
      assert forall j :: 0 <= j <= i ==> before[j] == attempts[j];
    } else {
      if inv[attempts[i].id].chained {
        var j :| 0 <= j < |before| && before[j] == Attempt(inv[attempts[i].id].jumpID, true);
        assert attempts[j] == before[j];
      }
      forall j | 0 <= j < i && attempts[j].ok ensures attempts[j].id != attempts[i].id {
        assert before[j] == attempts[j] == Attempt(attempts[j].id, true);
      }
    }
  }

  // ---------------------------------------------------------------- the search

  /** Only chains that end get connected. */
  lemma {:induction false} SucceededEnds(inv: Inventory, attempts: seq<Attempt>, id: string)
    requires WellOrdered(inv, attempts) && Succeeded(attempts, id)
    ensures !NeverEnds(inv, id)
    decreases |attempts|
  {
    var k := |attempts| - 1;
    NeverEndsOnward(inv, id);
    if Succeeded(attempts[..k], id) {
      SucceededEnds(inv, attempts[..k], id);
    } else if id in inv && inv[id].chained {
      SucceededEnds(inv, attempts[..k], inv[id].jumpID);
    }
  }

  /** Only connectable servers are connected. */
  ghost predicate Sound(inv: Inventory, ok: string -> bool, connected: set<string>) {
    forall id :: id in connected ==> Connectable(inv, ok, id)
  }

  /** Everything being visited waits for `id`. */
  ghost predicate AllWaitFor(inv: Inventory, ok: string -> bool, visiting: set<string>, id: string) {
    forall v :: v in visiting ==> WaitsFor(inv, ok, v, id)
  }

  /** Everything being visited leads to `id`. */
  ghost predicate AllLeadTo(inv: Inventory, visiting: set<string>, id: string) {
    forall v :: v in visiting ==> LeadsTo(inv, v, id)
  }

  /** Entering `id` makes everything visited wait for, and lead to, its jump server. */
  lemma JumpIsWaitedFor(inv: Inventory, ok: string -> bool, outer: set<string>, id: string)
    requires id in inv && inv[id].chained
    ensures AllWaitFor(inv, ok, outer, id) ==> AllWaitFor(inv, ok, outer + {id}, inv[id].jumpID)
    ensures AllLeadTo(inv, outer, id) ==> AllLeadTo(inv, outer + {id}, inv[id].jumpID)
  {
    if AllWaitFor(inv, ok, outer, id) {
      forall v | v in outer + {id} ensures WaitsFor(inv, ok, v, inv[id].jumpID) { WaitsForJump(inv, ok, v, id); }
    }
    if AllLeadTo(inv, outer, id) {
      forall v | v in outer + {id} ensures LeadsTo(inv, v, inv[id].jumpID) { LeadsToJump(inv, v, id); }
    }
  }

  /** Why the search for `id` came to `s`, with `outer` being visited already. */
  predicate Explains(inv: Inventory, connected: set<string>, outer: set<string>, recorded: map<string, Status>,
                     id: string, s: Status)
    requires id in inv
  {
    var jump := inv[id].jumpID;
    if id in connected then s == Connected
    else if id in outer then s == CycleFound
    else if inv[id].chained && jump !in inv then s == JumpMissing
    else if !inv[id].chained || jump in connected then s == ConnectFailed
    else s.JumpDown? && (jump != id ==> jump in recorded && recorded[jump] == s.reason)
  }

  class Connector {
    const inv: Inventory
    /** Whether the next attempt on a server connects, given the attempts so far. */
    const connects: (seq<Attempt>, string) -> bool
    var connected: set<string>
    var visiting: set<string>
    var attempts: seq<Attempt>
    /** The status table: the last status written for each server. */
    var recorded: map<string, Status>

    constructor (inv: Inventory, connects: (seq<Attempt>, string) -> bool)
      ensures this.inv == inv && this.connects == connects
      ensures connected == {} && visiting == {} && attempts == [] && recorded == map[]
      ensures Valid()
    {
      this.inv, this.connects := inv, connects;
      connected, visiting, attempts, recorded := {}, {}, [], map[];
    }

    ghost predicate Valid()
      reads this`connected, this`attempts, this`recorded
    {
      && WellOrdered(inv, attempts)
      && (forall id :: id in connected <==> Succeeded(attempts, id))
      && (forall id :: id in connected ==> id in recorded)
      && (forall id :: id in recorded ==> (recorded[id].Connected? <==> id in connected))
    }

    /** Connecting is a fixed property of the server. */
    ghost predicate Steady(ok: string -> bool) {
      forall sent, id :: connects(sent, id) == ok(id)
    }

    /** No recorded status blames a cycle. */
    ghost predicate BlamesNobody()
      reads this`recorded
    {
      forall id :: id in recorded ==> !BlamesCycle(recorded[id])
    }

    /** A failure found without dialling goes to the status table. */
    method GiveUp(id: string, s: Status)
      requires Valid() && id !in connected && !s.Connected?
      modifies this`recorded
      ensures Valid() && recorded == old(recorded)[id := s]
      ensures (BlamesCycle(s) <==> NeverEnds(inv, id)) ==> StaysTruthful(inv, old(recorded), recorded)
    {
      recorded := recorded[id := s];
    }

    method Connect(id: string) returns (s: Status)
      requires Valid() && id in inv && id !in connected
      requires inv[id].chained ==> inv[id].jumpID in connected
      modifies this`attempts, this`connected, this`recorded
      ensures Valid()
      ensures attempts == old(attempts) + [Attempt(id, s.Connected?)]
      ensures connected == if s.Connected? then old(connected) + {id} else old(connected)
      ensures s == if connects(old(attempts), id) then Connected else ConnectFailed
      ensures recorded == old(recorded)[id := s]
    {
      var ok := connects(attempts, id);
      s := if ok then Connected else ConnectFailed;
      attempts := attempts + [Attempt(id, ok)];
      if ok { connected := connected + {id}; }
      recorded := recorded[id := s];
    }

    /** A visit ends with an attempt. */
    method Dial(id: string, ghost ok: string -> bool) returns (s: Status)
      requires Valid() && id in inv && id !in connected
      requires inv[id].chained ==> inv[id].jumpID in connected
      modifies this`connected, this`visiting, this`attempts, this`recorded
      ensures Valid()
      ensures visiting == old(visiting) - {id}
      ensures old(attempts) <= attempts && old(connected) <= connected <= old(connected) + {id}
      ensures s.Connected? <==> id in connected
      ensures id in recorded && old(recorded.Keys) <= recorded.Keys
      ensures recorded[id] == s && (s == Connected || s == ConnectFailed)
      ensures Steady(ok) && old(Sound(inv, ok, connected)) && (ok(id) ==> Connectable(inv, ok, id)) ==>
                Sound(inv, ok, connected) && (s.Connected? <==> ok(id))
      ensures Truthful(inv, recorded, id) && StaysTruthful(inv, old(recorded), recorded)
      ensures !BlamesCycle(s) && !NeverEnds(inv, id)
    {
      NeverEndsOnward(inv, id);
      if inv[id].chained { SucceededEnds(inv, attempts, inv[id].jumpID); }
      s := Connect(id);
      visiting := visiting - {id};
    }

    /** A visit ends without a connection. */
    method Leave(id: string, s: Status)
      requires Valid() && id !in connected && !s.Connected?
      modifies this`recorded, this`visiting
      ensures Valid() && recorded == old(recorded)[id := s]
      ensures visiting == old(visiting) - {id}
      ensures (BlamesCycle(s) <==> NeverEnds(inv, id)) ==> StaysTruthful(inv, old(recorded), recorded)
    {
      GiveUp(id, s);
      visiting := visiting - {id};
    }

    /** A server met again while it is being visited waits for itself, and leads to itself. */
    method MeetAgain(id: string, ghost ok: string -> bool) returns (s: Status)
      requires Valid() && id !in connected && id in visiting
      modifies this`recorded
      ensures Valid() && s == CycleFound && recorded == old(recorded)[id := s]
      ensures AllWaitFor(inv, ok, visiting, id) ==> !Connectable(inv, ok, id)
      ensures BlamesCycle(s)
      ensures AllLeadTo(inv, visiting, id) ==> NeverEnds(inv, id) && StaysTruthful(inv, old(recorded), recorded)
    {
      s := CycleFound;
      if AllLeadTo(inv, visiting, id) { RoundNeverEnds(inv, id); }
      GiveUp(id, s);
      if AllWaitFor(inv, ok, visiting, id) {
        forall n: nat ensures !ConnectableIn(inv, ok, n, id) { WaitingForItselfFails(inv, ok, id, n); }
      }
    }

    /** `connectServerWithDependencies`. It returns on every inventory, cyclic ones included. */
    method ConnectWithDependencies(id: string, ghost ok: string -> bool) returns (s: Status)
      requires Valid() && id in inv
      modifies this`connected, this`visiting, this`attempts, this`recorded
      ensures Valid()
      ensures visiting == old(visiting)
      ensures old(attempts) <= attempts && old(connected) <= connected
      ensures s.Connected? <==> id in connected
      ensures forall v :: v in visiting && v in connected ==> v in old(connected)
      ensures id in recorded && old(recorded.Keys) <= recorded.Keys
      ensures recorded[id] == s && Explains(inv, connected, old(visiting), recorded, id, s)
      ensures Steady(ok) && old(Sound(inv, ok, connected) && AllWaitFor(inv, ok, visiting, id)) ==>
                Sound(inv, ok, connected) && (s.Connected? <==> Connectable(inv, ok, id))
      ensures old(AllLeadTo(inv, visiting, id)) ==>
                && (BlamesCycle(s) <==> NeverEnds(inv, id))
                && Truthful(inv, recorded, id) && StaysTruthful(inv, old(recorded), recorded)
      decreases inv.Keys - visiting
    {
      if id in connected {
        SucceededEnds(inv, attempts, id);
        return Connected;
      }
      if id in visiting {
        s := MeetAgain(id, ok);
        return;
      }
      ConnectableStep(inv, ok, id);
      NeverEndsOnward(inv, id);
      visiting := visiting + {id};
      if inv[id].chained {
        var jump := inv[id].jumpID;
        NeverEndsOnward(inv, jump);
        if jump !in inv {
          s := JumpMissing;
          Leave(id, s);
          return;
        }
        JumpIsWaitedFor(inv, ok, old(visiting), id);
        var jumpStatus := ConnectWithDependencies(jump, ok);
        if !jumpStatus.Connected? {
          s := JumpDown(jumpStatus);
          Leave(id, s);
          return;
        }
      }
      s := Dial(id, ok);
    }

    /** `connectAllServers` over the listed servers: each is searched with nothing being visited. */
    method ConnectAllServers(servers: seq<string>, ghost ok: string -> bool)
      requires Valid() && connected == {} && visiting == {} && attempts == []
      requires forall id :: id in inv <==> id in servers
      modifies this
      ensures Valid() && visiting == {}
      ensures recorded.Keys >= inv.Keys
      ensures forall id :: id in inv ==> (BlamesCycle(recorded[id]) <==> NeverEnds(inv, id))
      ensures Acyclic(inv) && old(BlamesNobody()) ==> BlamesNobody()
      ensures Steady(ok) ==> forall id :: id in connected <==> Connectable(inv, ok, id)
      ensures Steady(ok) ==> Closed(inv, ok, connected)
      ensures Steady(ok) ==> forall s: set<string> :: Closed(inv, ok, s) ==> connected <= s
    {
      for i := 0 to |servers|
        invariant Valid() && visiting == {}
        invariant forall id :: id in servers[..i] ==> id in recorded
        invariant forall id :: id in servers[..i] ==> Truthful(inv, recorded, id)
        invariant StaysTruthful(inv, old(recorded), recorded)
        invariant Steady(ok) ==> Sound(inv, ok, connected)
        invariant Steady(ok) ==> forall id :: id in servers[..i] && Connectable(inv, ok, id) ==> id in connected
      {
        var s := ConnectWithDependencies(servers[i], ok);
        assert servers[..i + 1] == servers[..i] + [servers[i]];
      }
      assert servers[..|servers|] == servers;
      if Acyclic(inv) && old(BlamesNobody()) {
        forall id | id in recorded ensures !BlamesCycle(recorded[id]) {
          if NeverEnds(inv, id) { NeverEndingIsCyclic(inv, id); }
          assert Truthful(inv, old(recorded), id);
          assert Truthful(inv, recorded, id);
        }
      }
      if Steady(ok) {
        forall id ensures id in connected <==> Connectable(inv, ok, id) {}
        ConnectableIsLeastClosed(inv, ok, connected);
      }
    }
  }
}
