/**
 The jump-server graph of the inventory: every chained server names the server it is reached
 through. `validateJumpChain` guards each create and update; deletes are unguarded, so names
 may dangle (backend/internal/httpapi/app.go, backend/internal/store/sqlite.go).
 */
module JumpChains {
  import opened Text

  /** The part of a profile that matters here; the identifier is the map key. */
  datatype Server = Server(chained: bool, jumpID: string)

  type Inventory = map<string, Server>

  /** Identifiers are generated and never blank. */
  predicate Named(inv: Inventory) {
    forall id :: id in inv ==> !Blank(id)
  }

  /** The server `n` jumps along from `id`, if the chain is that long. */
  function Follow(inv: Inventory, id: string, n: nat): Option<string>
    decreases n
  {
    if n == 0 then Some(id)
    else if id in inv && inv[id].chained then Follow(inv, inv[id].jumpID, n - 1)
    else None
  }

  /** No server is reached through itself. */
  ghost predicate Acyclic(inv: Inventory) {
    forall id, n: nat :: n > 0 ==> Follow(inv, id, n) != Some(id)
  }

  // ---------------------------------------------------------------- what the guard accepts

  /** Within `n` further jumps the walk from `id` ends, at existing servers other than `current` only. */
  predicate Ends(inv: Inventory, current: string, id: string, n: nat)
    decreases n
  {
    || Blank(id)
    || (&& id in inv
        && (current == "" || id != current)
        && (inv[id].chained ==> n > 0 && Ends(inv, current, inv[id].jumpID, n - 1)))
  }

  ghost predicate Accepts(inv: Inventory, current: string, jump: string) {
    exists n: nat :: Ends(inv, current, jump, n)
  }

  datatype Verdict = Valid | Cycle | PointsBack | NotFound

  /** The walk goes on from `id`: a chained server other than `current`. */
  predicate GoesOn(inv: Inventory, current: string, id: string) {
    !Blank(id) && (current == "" || id != current) && id in inv && inv[id].chained
  }

  /** The first `n` servers of the walk from `jump` are such servers. */
  predicate Passes(inv: Inventory, current: string, jump: string, n: nat)
    decreases n
  {
    n > 0 ==> GoesOn(inv, current, jump) && Passes(inv, current, inv[jump].jumpID, n - 1)
  }

  /** What stops a walk at `id`; nothing does as long as it goes on. */
  function StopsAt(inv: Inventory, current: string, id: string): Verdict
    requires !GoesOn(inv, current, id)
  {
    if Blank(id) then Valid
    else if current != "" && id == current then PointsBack
    else if id !in inv then NotFound
    else Valid
  }

  /** The walk from `jump` stops after `n` servers, with verdict `v`. */
  predicate StopsAfter(inv: Inventory, current: string, jump: string, n: nat, v: Verdict)
    decreases n
  {
    if GoesOn(inv, current, jump) then n > 0 && StopsAfter(inv, current, inv[jump].jumpID, n - 1, v)
    else n == 0 && v == StopsAt(inv, current, jump)
  }

  /** What becomes of the walk: it stops for a reason, or never does. */
  ghost predicate Meets(inv: Inventory, current: string, jump: string, v: Verdict) {
    if v.Cycle? then forall n: nat :: Passes(inv, current, jump, n)
    else exists n: nat :: StopsAfter(inv, current, jump, n, v)
  }

  lemma {:induction false} StopsOnce(inv: Inventory, current: string, jump: string, n: nat, v: Verdict, m: nat,
                                      w: Verdict)
    requires StopsAfter(inv, current, jump, n, v)
    ensures StopsAfter(inv, current, jump, m, w) ==> m == n && v == w
    ensures m > n ==> !Passes(inv, current, jump, m)
    decreases n
  {
    if GoesOn(inv, current, jump) && m > 0 { StopsOnce(inv, current, inv[jump].jumpID, n - 1, v, m - 1, w); }
  }

  /** The four fates exclude each other. */
  lemma OneFate(inv: Inventory, current: string, jump: string, v: Verdict, w: Verdict)
    requires Meets(inv, current, jump, v) && Meets(inv, current, jump, w)
    ensures v == w
  {
    if !v.Cycle? {
      var n: nat :| StopsAfter(inv, current, jump, n, v);
      if w.Cycle? {
        StopsOnce(inv, current, jump, n, v, n + 1, v);
      } else {
        var m: nat :| StopsAfter(inv, current, jump, m, w);
        StopsOnce(inv, current, jump, n, v, m, w);
      }
    } else if !w.Cycle? {
      var m: nat :| StopsAfter(inv, current, jump, m, w);
      StopsOnce(inv, current, jump, m, w, m + 1, w);
    }
  }

  lemma {:induction false} StopMeansEnds(inv: Inventory, current: string, jump: string, n: nat)
    ensures StopsAfter(inv, current, jump, n, Valid) ==> Ends(inv, current, jump, n)
    decreases n
  {
    if GoesOn(inv, current, jump) && n > 0 { StopMeansEnds(inv, current, inv[jump].jumpID, n - 1); }
  }

  lemma {:induction false} EndMeansStop(inv: Inventory, current: string, jump: string, n: nat) returns (m: nat)
    requires Ends(inv, current, jump, n)
    ensures StopsAfter(inv, current, jump, m, Valid)
    decreases n
  {
    m := 0;
    if GoesOn(inv, current, jump) {
      m := EndMeansStop(inv, current, inv[jump].jumpID, n - 1);
      m := m + 1;
    }
  }

  /** The first `n` servers of the walk are neither blank nor `current`. */
  ghost predicate Clear(inv: Inventory, current: string, jump: string, n: nat) {
    forall k: nat :: k < n && Follow(inv, jump, k).Some? ==>
      var x := Follow(inv, jump, k).value; !Blank(x) && (current == "" || x != current)
  }

  lemma {:induction false} PassesThroughFollow(inv: Inventory, current: string, jump: string, n: nat)
    ensures Passes(inv, current, jump, n) <==> Follow(inv, jump, n).Some? && Clear(inv, current, jump, n)
    decreases n
  {
    if n > 0 {
      if jump in inv && inv[jump].chained {
        PassesThroughFollow(inv, current, inv[jump].jumpID, n - 1);
        ClearOnward(inv, current, jump, n);
      }
    }
  }

  lemma ClearOnward(inv: Inventory, current: string, jump: string, n: nat)
    requires n > 0 && jump in inv && inv[jump].chained
    ensures Clear(inv, current, jump, n) <==>
            !Blank(jump) && (current == "" || jump != current) && Clear(inv, current, inv[jump].jumpID, n - 1)
  {
    if Clear(inv, current, jump, n) {
      assert Follow(inv, jump, 0) == Some(jump);
      forall k: nat | k < n - 1 && Follow(inv, inv[jump].jumpID, k).Some?
        ensures var x := Follow(inv, inv[jump].jumpID, k).value; !Blank(x) && (current == "" || x != current)
      {
        assert Follow(inv, jump, k + 1) == Follow(inv, inv[jump].jumpID, k);
      }
    }
    if !Blank(jump) && (current == "" || jump != current) && Clear(inv, current, inv[jump].jumpID, n - 1) {
      forall k: nat | k < n && Follow(inv, jump, k).Some?
        ensures var x := Follow(inv, jump, k).value; !Blank(x) && (current == "" || x != current)
      {
        if k > 0 { assert Follow(inv, jump, k) == Follow(inv, inv[jump].jumpID, k - 1); }
      }
    }
  }

  lemma {:induction false} StopsThroughFollow(inv: Inventory, current: string, jump: string, n: nat, v: Verdict)
    ensures StopsAfter(inv, current, jump, n, v) <==>
            && Passes(inv, current, jump, n) && Follow(inv, jump, n).Some?
            && !GoesOn(inv, current, Follow(inv, jump, n).value)
            && v == StopsAt(inv, current, Follow(inv, jump, n).value)
    decreases n
  {
    PassesThroughFollow(inv, current, jump, n);
    if n > 0 && GoesOn(inv, current, jump) {
      StopsThroughFollow(inv, current, inv[jump].jumpID, n - 1, v);
      PassesThroughFollow(inv, current, inv[jump].jumpID, n - 1);
    }
  }

  /**
   The four fates in terms of the servers on the walk: it arrives at `current`; it arrives at a
   name nobody has; it arrives at a blank name or a direct server; or it never ends. Before that
   it has met neither `current` nor a blank name.
   */
  lemma FatesThroughFollow(inv: Inventory, current: string, jump: string)
    ensures Meets(inv, current, jump, PointsBack) <==>
            exists n: nat :: Clear(inv, current, jump, n) && Follow(inv, jump, n) == Some(current) && !Blank(current)
    ensures Meets(inv, current, jump, NotFound) <==>
            exists n: nat :: Clear(inv, current, jump, n + 1) && Follow(inv, jump, n).Some?
                             && Follow(inv, jump, n).value !in inv
    ensures Meets(inv, current, jump, Valid) <==>
            exists n: nat :: Clear(inv, current, jump, n) && Follow(inv, jump, n).Some?
              && var x := Follow(inv, jump, n).value;
                 Blank(x) || ((current == "" || x != current) && x in inv && !inv[x].chained)
    ensures Meets(inv, current, jump, Cycle) <==>
            forall n: nat :: Clear(inv, current, jump, n) && Follow(inv, jump, n).Some?
  {
    PointsBackThroughFollow(inv, current, jump);
    NotFoundThroughFollow(inv, current, jump);
    ValidThroughFollow(inv, current, jump);
    if Meets(inv, current, jump, Cycle) {
      forall n: nat ensures Clear(inv, current, jump, n) && Follow(inv, jump, n).Some? {
        PassesThroughFollow(inv, current, jump, n);
      }
    } else {
      var n: nat :| !Passes(inv, current, jump, n);
      PassesThroughFollow(inv, current, jump, n);
    }
  }

  lemma PointsBackThroughFollow(inv: Inventory, current: string, jump: string)
    ensures Meets(inv, current, jump, PointsBack) <==>
            exists n: nat :: Clear(inv, current, jump, n) && Follow(inv, jump, n) == Some(current) && !Blank(current)
  {
    if n: nat :| StopsAfter(inv, current, jump, n, PointsBack) {
      StopsThroughFollow(inv, current, jump, n, PointsBack);
      PassesThroughFollow(inv, current, jump, n);
    }
    if n: nat :| Clear(inv, current, jump, n) && Follow(inv, jump, n) == Some(current) && !Blank(current) {
      PassesThroughFollow(inv, current, jump, n);
      StopsThroughFollow(inv, current, jump, n, PointsBack);
      assert current != "";
    }
  }

  lemma NotFoundThroughFollow(inv: Inventory, current: string, jump: string)
    ensures Meets(inv, current, jump, NotFound) <==>
            exists n: nat :: Clear(inv, current, jump, n + 1) && Follow(inv, jump, n).Some?
                             && Follow(inv, jump, n).value !in inv
  {
    if n: nat :| StopsAfter(inv, current, jump, n, NotFound) {
      StopsThroughFollow(inv, current, jump, n, NotFound);
      PassesThroughFollow(inv, current, jump, n);
      assert Clear(inv, current, jump, n + 1);
    }
    if n: nat :| Clear(inv, current, jump, n + 1) && Follow(inv, jump, n).Some? && Follow(inv, jump, n).value !in inv {
      assert Clear(inv, current, jump, n);
      PassesThroughFollow(inv, current, jump, n);
      StopsThroughFollow(inv, current, jump, n, NotFound);
    }
  }

  lemma ValidThroughFollow(inv: Inventory, current: string, jump: string)
    ensures Meets(inv, current, jump, Valid) <==>
            exists n: nat :: Clear(inv, current, jump, n) && Follow(inv, jump, n).Some?
              && var x := Follow(inv, jump, n).value;
                 Blank(x) || ((current == "" || x != current) && x in inv && !inv[x].chained)
  {
    if n: nat :| StopsAfter(inv, current, jump, n, Valid) {
      StopsThroughFollow(inv, current, jump, n, Valid);
      PassesThroughFollow(inv, current, jump, n);
    }
    if n: nat :| Clear(inv, current, jump, n) && Follow(inv, jump, n).Some?
                 && var x := Follow(inv, jump, n).value;
                    Blank(x) || ((current == "" || x != current) && x in inv && !inv[x].chained) {
      PassesThroughFollow(inv, current, jump, n);
      StopsThroughFollow(inv, current, jump, n, Valid);
    }
  }

  /** The guard accepts exactly the walks that stop at a direct server or a blank name. */
  lemma AcceptsExactlyWhen(inv: Inventory, current: string, jump: string)
    ensures Accepts(inv, current, jump) <==> Meets(inv, current, jump, Valid)
  {
    if n: nat :| Ends(inv, current, jump, n) { var m := EndMeansStop(inv, current, jump, n); }
    if n: nat :| StopsAfter(inv, current, jump, n, Valid) { StopMeansEnds(inv, current, jump, n); }
  }

  /** The walk from `start` goes on for `n` servers and then is at `id`. */
  predicate PassesTo(inv: Inventory, current: string, start: string, n: nat, id: string) {
    Passes(inv, current, start, n) && Follow(inv, start, n) == Some(id)
  }

  lemma {:induction false} PassOneMore(inv: Inventory, current: string, start: string, n: nat, id: string)
    requires PassesTo(inv, current, start, n, id) && GoesOn(inv, current, id)
    ensures PassesTo(inv, current, start, n + 1, inv[id].jumpID)
    decreases n
  {
    if n > 0 {
      PassOneMore(inv, current, inv[start].jumpID, n - 1, id);
    } else {
      assert Follow(inv, inv[id].jumpID, 0) == Some(inv[id].jumpID);
    }
  }

  /** A walk stops where the rest of it stops. */
  lemma {:induction false} StopsFurtherOn(inv: Inventory, current: string, start: string, n: nat, id: string,
                                           v: Verdict)
    requires PassesTo(inv, current, start, n, id)
    requires !GoesOn(inv, current, id) && v == StopsAt(inv, current, id)
    ensures StopsAfter(inv, current, start, n, v)
    decreases n
  {
    if n > 0 { StopsFurtherOn(inv, current, inv[start].jumpID, n - 1, id, v); }
  }

  lemma {:induction false} PassesJoin(inv: Inventory, current: string, start: string, n: nat, id: string, m: nat)
    requires PassesTo(inv, current, start, n, id) && Passes(inv, current, id, m)
    ensures Passes(inv, current, start, n + m)
    decreases n
  {
    if n > 0 { PassesJoin(inv, current, inv[start].jumpID, n - 1, id, m); }
  }

  /** A walk that comes back to a server goes on for ever. */
  lemma {:induction false} RoundForEver(inv: Inventory, current: string, id: string, period: nat, n: nat)
    requires period > 0 && PassesTo(inv, current, id, period, id)
    ensures Passes(inv, current, id, n)
    decreases n
  {
    if n <= period {
      PassesFewer(inv, current, id, period, n);
    } else {
      RoundForEver(inv, current, id, period, n - period);
      PassesJoin(inv, current, id, period, id, n - period);
    }
  }

  lemma {:induction false} PassesFewer(inv: Inventory, current: string, start: string, n: nat, m: nat)
    requires Passes(inv, current, start, n) && m <= n
    ensures Passes(inv, current, start, m)
    decreases m
  {
    if m > 0 { PassesFewer(inv, current, inv[start].jumpID, n - 1, m - 1); }
  }

  lemma ComesBack(inv: Inventory, current: string, jump: string, n: nat, id: string, period: nat)
    requires PassesTo(inv, current, jump, n, id)
    requires period > 0 && PassesTo(inv, current, id, period, id)
    ensures Meets(inv, current, jump, Cycle)
  {
    forall m: nat ensures Passes(inv, current, jump, m) {
      RoundForEver(inv, current, id, period, m);
      PassesJoin(inv, current, jump, n, id, m);
      PassesFewer(inv, current, jump, n + m, m);
    }
  }

  /**
   `validateJumpChain`. It returns on every inventory, cyclic ones included, with the verdict that
   tells what becomes of the walk.
   */
  method ValidateJumpChain(inv: Inventory, current: string, jump: string) returns (v: Verdict)
    ensures forall w :: v == w <==> Meets(inv, current, jump, w)
    ensures v.Valid? <==> Accepts(inv, current, jump)
  {
    v := WalkJumpChain(inv, current, jump);
    AcceptsExactlyWhen(inv, current, jump);
    forall w | Meets(inv, current, jump, w) ensures v == w { OneFate(inv, current, jump, v, w); }
  }

  method WalkJumpChain(inv: Inventory, current: string, jump: string) returns (v: Verdict)
    ensures Meets(inv, current, jump, v)
  {
    var id := jump;
    var visited: set<string> := {};
    ghost var n := 0;
    while !Blank(id)
      invariant visited <= inv.Keys
      invariant PassesTo(inv, current, jump, n, id)
      invariant forall seen :: seen in visited ==> PassedBefore(inv, current, jump, seen, id)
      decreases inv.Keys - visited
    {
      if id in visited {
        var a: nat, b: nat :| PassesTo(inv, current, jump, a, id) && b > 0 && PassesTo(inv, current, id, b, id);
        ComesBack(inv, current, jump, a, id, b);
        return Cycle;
      }
      if current != "" && id == current {
        StopsFurtherOn(inv, current, jump, n, id, PointsBack);
        return PointsBack;
      }
      if id !in inv {
        StopsFurtherOn(inv, current, jump, n, id, NotFound);
        return NotFound;
      }
      if !inv[id].chained {
        StopsFurtherOn(inv, current, jump, n, id, Valid);
        return Valid;
      }
      PassOneMore(inv, current, jump, n, id);
      ReachedNow(inv, current, jump, n, id);
      forall seen | seen in visited ensures PassedBefore(inv, current, jump, seen, inv[id].jumpID) {
        StillPassed(inv, current, jump, seen, id);
      }
      visited := visited + {id};
      n := n + 1;
      id := inv[id].jumpID;
    }
    StopsFurtherOn(inv, current, jump, n, id, Valid);
    return Valid;
  }

  /** The walk from `start` has passed `seen` on its way to `id`. */
  ghost predicate PassedBefore(inv: Inventory, current: string, start: string, seen: string, id: string) {
    exists a: nat, b: nat :: PassesTo(inv, current, start, a, seen) && b > 0 && PassesTo(inv, current, seen, b, id)
  }

  lemma ReachedNow(inv: Inventory, current: string, start: string, n: nat, id: string)
    requires PassesTo(inv, current, start, n, id) && GoesOn(inv, current, id)
    ensures PassedBefore(inv, current, start, id, inv[id].jumpID)
  {
    assert PassesTo(inv, current, id, 0, id);
    PassOneMore(inv, current, id, 0, id);
  }

  lemma StillPassed(inv: Inventory, current: string, start: string, seen: string, id: string)
    requires PassedBefore(inv, current, start, seen, id) && GoesOn(inv, current, id)
    ensures PassedBefore(inv, current, start, seen, inv[id].jumpID)
  {
    var a: nat, b: nat :| PassesTo(inv, current, start, a, seen) && b > 0 && PassesTo(inv, current, seen, b, id);
    PassOneMore(inv, current, seen, b, id);
  }

  // ---------------------------------------------------------------- walking

  lemma {:induction false} FollowOnwards(inv: Inventory, id: string, a: nat, b: nat)
    requires Follow(inv, id, a).Some?
    ensures Follow(inv, id, a + b) == Follow(inv, Follow(inv, id, a).value, b)
    decreases a
  {
    if a > 0 { FollowOnwards(inv, inv[id].jumpID, a - 1, b); }
  }

  /** An accepted walk stays on existing servers (a blank name at most at its end) and off `current`. */
  lemma {:induction false} AcceptedWalkAvoids(inv: Inventory, current: string, id: string, n: nat, k: nat)
    requires Named(inv) && Ends(inv, current, id, n)
    ensures k > n + 1 ==> Follow(inv, id, k).None?
    ensures Follow(inv, id, k).Some? ==>
              var x := Follow(inv, id, k).value;
              Blank(x) || (x in inv && (current == "" || x != current))
    decreases k
  {
    if k > 0 && id in inv && inv[id].chained { AcceptedWalkAvoids(inv, current, inv[id].jumpID, n - 1, k - 1); }
  }

  /** Going round once goes round any number of times. */
  lemma {:induction false} LoopsForever(inv: Inventory, id: string, period: nat, times: nat)
    requires period > 0 && Follow(inv, id, period) == Some(id)
    ensures Follow(inv, id, times * period) == Some(id)
  {
    if times > 0 {
      LoopsForever(inv, id, period, times - 1);
      FollowOnwards(inv, id, (times - 1) * period, period);
      assert (times - 1) * period + period == times * period;
    }
  }

  /** What acceptance buys: a finite walk that repeats no server and never meets `current`. */
  lemma AcceptedWalkIsSimple(inv: Inventory, current: string, jump: string, a: nat, b: nat)
    requires Named(inv) && Accepts(inv, current, jump)
    requires a < b && Follow(inv, jump, a).Some? && Follow(inv, jump, b).Some?
    ensures Follow(inv, jump, a) != Follow(inv, jump, b)
    ensures current != "" && !Blank(current) ==> Follow(inv, jump, a) != Some(current)
    ensures Follow(inv, jump, a).value in inv
  {
    var n: nat :| Ends(inv, current, jump, n);
    AcceptedWalkAvoids(inv, current, jump, n, a);
    var x := Follow(inv, jump, a).value;
    FollowOnwards(inv, jump, a, b - a);
    FollowOnwards(inv, jump, a, 1);
    if Follow(inv, jump, b) == Some(x) {
      LoopsForever(inv, x, b - a, n + 2);
      FollowOnwards(inv, jump, a, (n + 2) * (b - a));
      MultiplesGrow(n + 2, b - a);
      AcceptedWalkAvoids(inv, current, jump, n, a + (n + 2) * (b - a));
      assert false;
    }
  }

  lemma MultiplesGrow(n: nat, k: nat)
    requires k > 0
    ensures n * k >= n
  {
  }

  // ---------------------------------------------------------------- whole runs

  /** The walk from `from` is not at one of `ids` after `n` jumps. */
  predicate Off(inv: Inventory, ids: set<string>, from: string, n: nat) {
    Follow(inv, from, n).Some? ==> Follow(inv, from, n).value !in ids
  }

  /** Walks that avoid `ids` are the same before and after those are rewritten. */
  lemma {:induction false} UntouchedWalk(inv: Inventory, next: Inventory, ids: set<string>, from: string, n: nat)
    requires next - ids == inv - ids
    requires forall k: nat :: k < n ==> Off(next, ids, from, k)
    ensures Follow(next, from, n) == Follow(inv, from, n)
    decreases n
  {
    if n > 0 {
      assert Off(next, ids, from, 0);
      SameElsewhere(inv, next, ids, from);
      if from in inv && inv[from].chained {
        forall k: nat | k < n - 1 ensures Off(next, ids, inv[from].jumpID, k) {
          assert Off(next, ids, from, k + 1);
        }
        UntouchedWalk(inv, next, ids, inv[from].jumpID, n - 1);
      }
    }
  }

  lemma SameElsewhere(inv: Inventory, next: Inventory, ids: set<string>, other: string)
    requires next - ids == inv - ids && other !in ids
    ensures other in inv <==> other in next
    ensures other in inv ==> inv[other] == next[other]
  {
    assert other in inv <==> other in inv - ids;
    assert other in next <==> other in next - ids;
  }

  lemma {:induction false} StillAvoided(inv: Inventory, next: Inventory, ids: set<string>, from: string, n: nat)
    requires next - ids == inv - ids
    requires forall k: nat :: Off(inv, ids, from, k)
    ensures Off(next, ids, from, n)
    decreases n
  {
    forall k: nat | k < n ensures Off(next, ids, from, k) {
      StillAvoided(inv, next, ids, from, k);
    }
    UntouchedWalk(inv, next, ids, from, n);
    assert Off(inv, ids, from, n);
  }

  /** Rewriting one server keeps the inventory acyclic if its new chain does not lead back to it. */
  lemma RewriteKeepsAcyclic(inv: Inventory, id: string, server: Server)
    requires Acyclic(inv)
    requires server.chained ==> forall k: nat :: Follow(inv, server.jumpID, k) != Some(id)
    ensures Acyclic(inv[id := server])
  {
    var next := inv[id := server];
    assert next - {id} == inv - {id};
    forall x, n: nat | n > 0 ensures Follow(next, x, n) != Some(x) {
      if Follow(next, x, n) == Some(x) {
        if k: nat :| k < n && Follow(next, x, k) == Some(id) {
          FollowOnwards(next, x, n, k);
          FollowOnwards(next, x, k, n);
          assert Follow(next, id, n) == Some(id);
          if server.chained {
            forall j: nat ensures Off(inv, {id}, server.jumpID, j) {}
            StillAvoided(inv, next, {id}, server.jumpID, n - 1);
          }
          assert false;
        } else {
          forall j: nat | j < n ensures Off(next, {id}, x, j) {}
          UntouchedWalk(inv, next, {id}, x, n);
          assert false;
        }
      }
    }
  }

  lemma {:induction false} SmallerInventoryWalksLess(inv: Inventory, gone: string, from: string, n: nat)
    ensures Follow(inv - {gone}, from, n).Some? ==> Follow(inv - {gone}, from, n) == Follow(inv, from, n)
    decreases n
  {
    if n > 0 && from in inv - {gone} && inv[from].chained {
      SmallerInventoryWalksLess(inv, gone, inv[from].jumpID, n - 1);
    }
  }

  /**
   One request. `checks` is the outcome of the parts of the validation that look at keys and
   labels; a create whose identifier is taken fails on the primary key.
   */
  datatype Request =
    | Create(id: string, server: Server, checks: bool)
    | Update(id: string, server: Server, checks: bool)
    | Delete(id: string)

  /** `validateServerProfileReferences`, jump part: the current identifier is blank for a create. */
  ghost predicate ValidReferences(inv: Inventory, current: string, server: Server) {
    server.chained ==>
      && server.jumpID != ""
      && !(server.jumpID == current && current != "")
      && Accepts(inv, current, server.jumpID)
  }

  /** Validate-then-store as one step; a refused request changes nothing. */
  ghost function Apply(inv: Inventory, r: Request): Inventory {
    match r
    case Create(id, server, checks) =>
      if checks && ValidReferences(inv, "", server) && id !in inv && !Blank(id) then inv[id := server] else inv
    case Update(id, server, checks) =>
      if checks && ValidReferences(inv, id, server) && id in inv then inv[id := server] else inv
    case Delete(id) => inv - {id}
  }

  ghost function ApplyAll(inv: Inventory, rs: seq<Request>): Inventory
    decreases |rs|
  {
    if rs == [] then inv else ApplyAll(Apply(inv, rs[0]), rs[1..])
  }

  /** The chain from `from` arrives at `id`. */
  ghost predicate Reaches(inv: Inventory, from: string, id: string) {
    exists k: nat :: Follow(inv, from, k) == Some(id)
  }

  /** The guard as a create (of a new identifier) or an update (of a known one) passes it. */
  ghost predicate Validated(inv: Inventory, id: string, server: Server) {
    ValidReferences(inv, if id in inv then id else "", server)
  }

  /** A chain the guard accepts does not lead back to the server it is checked for. */
  lemma ValidatedChainAvoids(inv: Inventory, id: string, server: Server)
    requires Named(inv) && !Blank(id) && Validated(inv, id, server) && server.chained
    ensures !Reaches(inv, server.jumpID, id)
  {
    var current := if id in inv then id else "";
    var fuel: nat :| Ends(inv, current, server.jumpID, fuel);
    forall k: nat ensures Follow(inv, server.jumpID, k) != Some(id) {
      AcceptedWalkAvoids(inv, current, server.jumpID, fuel, k);
    }
  }

  /** A direct server always passes the guard; a chained one if its walk ends without coming back to it. */
  lemma GuardPassesExactlyWhen(inv: Inventory, current: string, server: Server)
    requires current == "" || !Blank(current)
    ensures ValidReferences(inv, current, server) <==>
            !server.chained || (server.jumpID != "" && Meets(inv, current, server.jumpID, Valid))
  {
    AcceptsExactlyWhen(inv, current, server.jumpID);
    if server.chained && server.jumpID == current && current != "" {
      if n: nat :| StopsAfter(inv, current, current, n, Valid) {
        assert false;
      }
    }
  }

  /** What becomes of each server: a passed create adds it, a passed update replaces it, a delete removes it. */
  lemma RequestsSay(inv: Inventory, r: Request, id: string)
    requires Named(inv)
    ensures var next := Apply(inv, r);
            match r
            case Create(newID, server, checks) =>
              if checks && !Blank(newID) && newID !in inv && ValidReferences(inv, "", server) then
                newID in next && next[newID] == server
                && (id != newID ==> (id in next <==> id in inv) && (id in inv ==> next[id] == inv[id]))
              else next == inv
            case Update(known, server, checks) =>
              if checks && known in inv && ValidReferences(inv, known, server) then
                known in next && next[known] == server
                && (id != known ==> (id in next <==> id in inv) && (id in inv ==> next[id] == inv[id]))
              else next == inv
            case Delete(gone) =>
              gone !in next && (id != gone ==> (id in next <==> id in inv) && (id in inv ==> next[id] == inv[id]))
  {
  }

  lemma StepKeepsAcyclic(inv: Inventory, r: Request)
    requires Acyclic(inv) && Named(inv)
    ensures Acyclic(Apply(inv, r)) && Named(Apply(inv, r))
  {
    var next := Apply(inv, r);
    match r
    case Delete(gone) =>
      forall id, n: nat | n > 0 ensures Follow(next, id, n) != Some(id) {
        SmallerInventoryWalksLess(inv, gone, id, n);
      }
    case _ =>
      if next != inv && r.server.chained { ValidatedChainAvoids(inv, r.id, r.server); }
      if next != inv { RewriteKeepsAcyclic(inv, r.id, r.server); }
  }

  /** Whatever is created, updated and deleted, in whatever order: no server ever jumps through itself. */
  lemma {:induction false} EveryRunStaysAcyclic(inv: Inventory, rs: seq<Request>)
    requires Acyclic(inv) && Named(inv)
    ensures Acyclic(ApplyAll(inv, rs)) && Named(ApplyAll(inv, rs))
    decreases |rs|
  {
    if rs != [] {
      StepKeepsAcyclic(inv, rs[0]);
      EveryRunStaysAcyclic(Apply(inv, rs[0]), rs[1..]);
    }
  }

  lemma EveryRunFromEmptyIsAcyclic(rs: seq<Request>)
    ensures Acyclic(ApplyAll(map[], rs))
  {
    var empty: Inventory := map[];
    assert forall id, n: nat :: n > 0 ==> Follow(empty, id, n) == None;
    EveryRunStaysAcyclic(empty, rs);
  }

  // ---------------------------------------------------------------- two requests at once

  lemma {:induction false} FirstArrival(inv: Inventory, from: string, id: string, k: nat) returns (first: nat)
    requires Follow(inv, from, k) == Some(id)
    ensures first <= k && Follow(inv, from, first) == Some(id)
    ensures forall j: nat :: j < first ==> Follow(inv, from, j) != Some(id)
    decreases k
  {
    first := k;
    if j: nat :| j < k && Follow(inv, from, j) == Some(id) { first := FirstArrival(inv, from, id, j); }
  }

  /** Up to its first arrival at `id`, a walk is the same before and after `id` is rewritten. */
  lemma SameArrival(inv: Inventory, id: string, server: Server, from: string)
    ensures Reaches(inv, from, id) <==> Reaches(inv[id := server], from, id)
  {
    var next := inv[id := server];
    assert next - {id} == inv - {id};
    if k: nat :| Follow(inv, from, k) == Some(id) {
      var first := FirstArrival(inv, from, id, k);
      forall j: nat | j < first ensures Off(inv, {id}, from, j) {}
      UntouchedWalk(next, inv, {id}, from, first);
    }
    if k: nat :| Follow(next, from, k) == Some(id) {
      var first := FirstArrival(next, from, id, k);
      forall j: nat | j < first ensures Off(next, {id}, from, j) {}
      UntouchedWalk(inv, next, {id}, from, first);
    }
  }

  /** Storing a profile keeps the graph acyclic exactly when its chain does not lead back to it. */
  lemma StoreKeepsAcyclicExactlyWhen(inv: Inventory, id: string, server: Server)
    requires Acyclic(inv)
    ensures Acyclic(inv[id := server]) <==> !(server.chained && Reaches(inv, server.jumpID, id))
  {
    var next := inv[id := server];
    if server.chained && Reaches(inv, server.jumpID, id) {
      SameArrival(inv, id, server, server.jumpID);
      var k: nat :| Follow(next, server.jumpID, k) == Some(id);
      assert Follow(next, id, k + 1) == Some(id);
    } else {
      RewriteKeepsAcyclic(inv, id, server);
    }
  }

  /** Where a walk that avoids `a` arrives is not changed by rewriting `a`. */
  lemma ReachesAlike(inv: Inventory, a: string, server: Server, from: string, id: string)
    requires !Reaches(inv, from, a)
    ensures Reaches(inv[a := server], from, id) <==> Reaches(inv, from, id)
  {
    var next := inv[a := server];
    assert next - {a} == inv - {a};
    forall k: nat ensures Follow(next, from, k) == Follow(inv, from, k) {
      forall j: nat ensures Off(inv, {a}, from, j) {}
      forall j: nat | j < k ensures Off(next, {a}, from, j) { StillAvoided(inv, next, {a}, from, j); }
      UntouchedWalk(inv, next, {a}, from, k);
    }
  }

  /** A walk that passes `mid` arrives wherever the walk from `mid` does. */
  lemma ReachesThrough(inv: Inventory, from: string, mid: string, id: string)
    requires Reaches(inv, from, mid) && Reaches(inv, mid, id)
    ensures Reaches(inv, from, id)
  {
    var i: nat :| Follow(inv, from, i) == Some(mid);
    var j: nat :| Follow(inv, mid, j) == Some(id);
    FollowOnwards(inv, from, i, j);
  }

  lemma ReachesOnward(inv: Inventory, mid: string, id: string)
    requires mid != id
    ensures Reaches(inv, mid, id) <==> mid in inv && inv[mid].chained && Reaches(inv, inv[mid].jumpID, id)
  {
    if Reaches(inv, mid, id) {
      var k: nat :| Follow(inv, mid, k) == Some(id);
      assert Follow(inv, inv[mid].jumpID, k - 1) == Some(id);
    }
    if mid in inv && inv[mid].chained && Reaches(inv, inv[mid].jumpID, id) {
      var k: nat :| Follow(inv, inv[mid].jumpID, k) == Some(id);
      assert Follow(inv, mid, k + 1) == Some(id);
    }
  }

  /** Once the walk has passed `a`, its further way is that from `a`. */
  lemma ReachesAfter(inv: Inventory, a: string, server: Server, from: string, id: string)
    requires id != a && Reaches(inv[a := server], from, id) && !Reaches(inv, from, id)
    ensures Reaches(inv, from, a) && Reaches(inv[a := server], a, id)
  {
    var next := inv[a := server];
    if !Reaches(inv, from, a) {
      ReachesAlike(inv, a, server, from, id);
      assert false;
    }
    SameArrival(inv, a, server, from);
    var k: nat :| Follow(next, from, k) == Some(id);
    if i: nat :| i < k && Follow(next, from, i) == Some(a) {
      FollowOnwards(next, from, i, k - i);
    } else {
      assert next - {a} == inv - {a};
      forall j: nat | j < k ensures Off(next, {a}, from, j) {}
      UntouchedWalk(inv, next, {a}, from, k);
      assert false;
    }
  }

  /** After `a` was stored, the chain of `b` leads back to `b` exactly if both chains led to the other. */
  lemma BothLeadAcross(inv: Inventory, a: string, first: Server, b: string, jump: string)
    requires a != b && !Reaches(inv, jump, b)
    requires first.chained ==> !Reaches(inv, first.jumpID, a)
    ensures Reaches(inv[a := first], jump, b)
            <==> first.chained && Reaches(inv, jump, a) && Reaches(inv, first.jumpID, b)
  {
    var next := inv[a := first];
    ReachesOnward(next, a, b);
    if first.chained { ReachesAlike(inv, a, first, first.jumpID, b); }
    if Reaches(next, jump, b) {
      ReachesAfter(inv, a, first, jump, b);
    } else if first.chained && Reaches(inv, jump, a) && Reaches(inv, first.jumpID, b) {
      SameArrival(inv, a, first, jump);
      ReachesThrough(next, jump, a, b);
    }
  }

  /**
   Two requests (creates or updates) validated against the same inventory and both stored: the
   graph stays acyclic exactly unless they are for different servers whose new chains lead to
   each other.
   */
  lemma RacingStoresStayAcyclicExactlyWhen(inv: Inventory, a: string, first: Server, b: string, second: Server)
    requires Acyclic(inv) && Named(inv) && !Blank(a) && !Blank(b)
    requires Validated(inv, a, first) && Validated(inv, b, second)
    ensures Acyclic(inv[a := first][b := second])
            <==> !(a != b && first.chained && second.chained
                   && Reaches(inv, first.jumpID, b) && Reaches(inv, second.jumpID, a))
  {
    if first.chained { ValidatedChainAvoids(inv, a, first); }
    if second.chained { ValidatedChainAvoids(inv, b, second); }
    if a == b {
      assert inv[a := first][b := second] == inv[b := second];
      StoreKeepsAcyclicExactlyWhen(inv, b, second);
    } else {
      StoreKeepsAcyclicExactlyWhen(inv, a, first);
      StoreKeepsAcyclicExactlyWhen(inv[a := first], b, second);
      if second.chained { BothLeadAcross(inv, a, first, b, second.jumpID); }
    }
  }

  /** Two direct servers, each updated to jump through the other, both validated first: a cycle. */
  lemma RacingUpdatesCanCloseACycle()
    ensures var inv: Inventory := map["a" := Server(false, ""), "b" := Server(false, "")];
            && Acyclic(inv)
            && Validated(inv, "a", Server(true, "b")) && Validated(inv, "b", Server(true, "a"))
            && !Acyclic(inv["a" := Server(true, "b")]["b" := Server(true, "a")])
  {
    var inv: Inventory := map["a" := Server(false, ""), "b" := Server(false, "")];
    assert forall id, n: nat :: n > 0 ==> Follow(inv, id, n) == None;
    assert Ends(inv, "a", "b", 0) && Ends(inv, "b", "a", 0);
    var both := inv["a" := Server(true, "b")]["b" := Server(true, "a")];
    assert Follow(both, "a", 2) == Follow(both, "b", 1) == Follow(both, "a", 0) == Some("a");
  }

  // ---------------------------------------------------------------- any number of requests at once

  datatype Write = Write(id: string, server: Server)

  /** Several profiles stored one after another. */
  function StoreAll(inv: Inventory, writes: seq<Write>): Inventory {
    if writes == [] then inv
    else
      var last := writes[|writes| - 1];
      StoreAll(inv, writes[..|writes| - 1])[last.id := last.server]
  }

  /** What counts is the last profile stored for each server. */
  lemma {:induction false} StoreAllIsMerge(inv: Inventory, writes: seq<Write>)
    ensures StoreAll(inv, writes) == inv + StoreAll(map[], writes)
    decreases |writes|
  {
    if writes != [] { StoreAllIsMerge(inv, writes[..|writes| - 1]); }
  }

  /** The walk from `from` is at one of `ids` after `k` jumps, for the first time. */
  ghost predicate HitsFirst(inv: Inventory, ids: set<string>, from: string, k: nat) {
    && !Off(inv, ids, from, k)
    && forall j: nat :: j < k ==> Off(inv, ids, from, j)
  }

  /** The first of `ids` on the walk from `from`. */
  ghost function FirstOf(inv: Inventory, ids: set<string>, from: string): (hit: Option<string>)
    ensures forall k: nat :: HitsFirst(inv, ids, from, k) ==> hit == Follow(inv, from, k)
    ensures hit.Some? ==> exists k: nat :: HitsFirst(inv, ids, from, k)
  {
    if k: nat :| HitsFirst(inv, ids, from, k) then Follow(inv, from, k) else None
  }

  lemma {:induction false} SomeHitIsFirst(inv: Inventory, ids: set<string>, from: string, k: nat) returns (first: nat)
    requires !Off(inv, ids, from, k)
    ensures first <= k && HitsFirst(inv, ids, from, first)
    decreases k
  {
    first := k;
    if j: nat :| j < k && !Off(inv, ids, from, j) { first := SomeHitIsFirst(inv, ids, from, j); }
  }

  /** Where the new chain of `server` first meets a server that is being stored too. */
  ghost function Shortcut(inv: Inventory, ids: set<string>, server: Server): Server {
    var hit := if server.chained then FirstOf(inv, ids, server.jumpID) else None;
    Server(hit.Some?, if hit.Some? then hit.value else "")
  }

  /** The new profiles among themselves: each jumps to the first other one on its way through the old inventory. */
  ghost function Contracted(inv: Inventory, added: Inventory): Inventory {
    map id | id in added :: Shortcut(inv, added.Keys, added[id])
  }

  lemma MergeElsewhere(inv: Inventory, added: Inventory)
    ensures (inv + added) - added.Keys == inv - added.Keys
    ensures forall id :: id in added ==> id in inv + added && (inv + added)[id] == added[id]
  {
  }

  /** Up to the first stored server, a walk is the same before and after storing. */
  lemma SameFirstHit(inv: Inventory, added: Inventory, from: string, k: nat)
    ensures HitsFirst(inv, added.Keys, from, k) <==> HitsFirst(inv + added, added.Keys, from, k)
    ensures HitsFirst(inv, added.Keys, from, k) ==> Follow(inv, from, k) == Follow(inv + added, from, k)
  {
    MergeElsewhere(inv, added);
    var next, ids := inv + added, added.Keys;
    if HitsFirst(inv, ids, from, k) {
      forall j: nat | j <= k ensures Follow(next, from, j) == Follow(inv, from, j) {
        UntouchedWalk(next, inv, ids, from, j);
      }
    }
    if HitsFirst(next, ids, from, k) {
      forall j: nat | j <= k ensures Follow(next, from, j) == Follow(inv, from, j) {
        UntouchedWalk(inv, next, ids, from, j);
      }
    }
  }

  /** One jump of the contracted graph is some jumps of the new inventory. */
  lemma ShortcutIsWalk(inv: Inventory, added: Inventory, a: string) returns (n: nat)
    requires a in added && Contracted(inv, added)[a].chained
    ensures n > 0 && Follow(inv + added, a, n) == Some(Contracted(inv, added)[a].jumpID)
  {
    MergeElsewhere(inv, added);
    var k: nat :| HitsFirst(inv, added.Keys, added[a].jumpID, k);
    SameFirstHit(inv, added, added[a].jumpID, k);
    n := k + 1;
  }

  lemma {:induction false} ShortcutsAreWalks(inv: Inventory, added: Inventory, a: string, m: nat) returns (n: nat)
    requires m > 0 && Follow(Contracted(inv, added), a, m).Some?
    ensures n > 0 && Follow(inv + added, a, n) == Follow(Contracted(inv, added), a, m)
    decreases m
  {
    var c := Contracted(inv, added);
    n := ShortcutIsWalk(inv, added, a);
    if m > 1 {
      var rest := ShortcutsAreWalks(inv, added, c[a].jumpID, m - 1);
      FollowOnwards(inv + added, a, n, rest);
      n := n + rest;
    }
  }

  /** The jumps of the new inventory between two stored servers are some jumps of the contracted graph. */
  lemma {:induction false} WalkIsShortcuts(inv: Inventory, added: Inventory, a: string, n: nat, b: string)
      returns (m: nat)
    requires a in added && b in added && n > 0 && Follow(inv + added, a, n) == Some(b)
    ensures m > 0 && Follow(Contracted(inv, added), a, m) == Some(b)
    decreases n
  {
    MergeElsewhere(inv, added);
    var next, jump := inv + added, added[a].jumpID;
    assert Follow(next, jump, n - 1) == Some(b);
    var k := SomeHitIsFirst(next, added.Keys, jump, n - 1);
    SameFirstHit(inv, added, jump, k);
    var hit := Follow(next, jump, k).value;
    assert Contracted(inv, added)[a] == Server(true, hit);
    m := 1;
    assert Follow(Contracted(inv, added), hit, 0) == Some(hit);
    if k < n - 1 {
      FollowOnwards(next, jump, k, n - 1 - k);
      var rest := WalkIsShortcuts(inv, added, hit, n - 1 - k, b);
      m := 1 + rest;
    }
  }

  /** A cycle of the new inventory passes a stored server. */
  lemma CycleIsNew(inv: Inventory, added: Inventory, x: string, n: nat) returns (a: string)
    requires Acyclic(inv) && n > 0 && Follow(inv + added, x, n) == Some(x)
    ensures a in added && Follow(inv + added, a, n) == Some(a)
  {
    MergeElsewhere(inv, added);
    var next := inv + added;
    if k: nat :| k < n && !Off(next, added.Keys, x, k) {
      a := Follow(next, x, k).value;
      FollowOnwards(next, x, n, k);
      FollowOnwards(next, x, k, n);
    } else {
      UntouchedWalk(inv, next, added.Keys, x, n);
      assert false;
    }
  }

  lemma MergeStaysAcyclicExactlyWhen(inv: Inventory, added: Inventory)
    requires Acyclic(inv)
    ensures Acyclic(inv + added) <==> Acyclic(Contracted(inv, added))
  {
    if id, m: nat :| m > 0 && Follow(Contracted(inv, added), id, m) == Some(id) {
      var n := ShortcutsAreWalks(inv, added, id, m);
    }
    if x, n: nat :| n > 0 && Follow(inv + added, x, n) == Some(x) {
      var a := CycleIsNew(inv, added, x, n);
      var m := WalkIsShortcuts(inv, added, a, n, a);
    }
  }

  /**
   Any number of requests past the guard at once, stored in any order: the graph stays acyclic
   exactly if no ring of them has each new chain lead first, through the old inventory, to the
   next one.
   */
  lemma ManyStoresStayAcyclicExactlyWhen(inv: Inventory, writes: seq<Write>)
    requires Acyclic(inv)
    ensures Acyclic(StoreAll(inv, writes)) <==> Acyclic(Contracted(inv, StoreAll(map[], writes)))
  {
    StoreAllIsMerge(inv, writes);
    MergeStaysAcyclicExactlyWhen(inv, StoreAll(map[], writes));
  }

  /** One validated request alone never makes such a ring. */
  lemma ValidatedAloneMakesNoRing(inv: Inventory, id: string, server: Server)
    requires Acyclic(inv) && Named(inv) && !Blank(id) && Validated(inv, id, server)
    ensures Acyclic(Contracted(inv, map[id := server]))
  {
    if server.chained { ValidatedChainAvoids(inv, id, server); }
    StoreKeepsAcyclicExactlyWhen(inv, id, server);
    assert inv + map[id := server] == inv[id := server];
    MergeStaysAcyclicExactlyWhen(inv, map[id := server]);
  }

  /** The stored inventory behind the handlers. */
  class ServerStore {
    var servers: Inventory

    constructor ()
      ensures servers == map[]
    {
      servers := map[];
    }

    method ReferencesValid(current: string, server: Server) returns (ok: bool)
      ensures ok <==> ValidReferences(servers, current, server)
    {
      if !server.chained { return true; }
      if server.jumpID == "" || (server.jumpID == current && current != "") { return false; }
      var v := ValidateJumpChain(servers, current, server.jumpID);
      return v.Valid?;
    }

    method HandleCreate(id: string, server: Server, checks: bool)
      modifies this
      ensures servers == Apply(old(servers), Create(id, server, checks))
    {
      var ok := ReferencesValid("", server);
      if ok && checks && id !in servers && !Blank(id) { servers := servers[id := server]; }
    }

    method HandleUpdate(id: string, server: Server, checks: bool)
      modifies this
      ensures servers == Apply(old(servers), Update(id, server, checks))
    {
      var ok := ReferencesValid(id, server);
      if ok && checks && id in servers { servers := servers[id := server]; }
    }

    method HandleDelete(id: string)
      modifies this
      ensures servers == Apply(old(servers), Delete(id))
    {
      servers := servers - {id};
    }
  }
}
