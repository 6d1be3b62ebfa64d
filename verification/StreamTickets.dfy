/**
 Terminal stream tickets: issuing purges, counts and stores in separate steps on a shared
 concurrent map, consuming removes atomically (backend/internal/httpapi/app.go). Any number of
 requests may be interleaved; `issuers` are the requests that can be issuing at the same time.

 Walking a `sync.Map` takes no snapshot: other requests store and remove while a purge or a count
 is under way. A purge removes one entry at a time; a count sees every entry that is there
 throughout, and may or may not see the others that are there at some point.
 */
module StreamTickets {
  import opened Text
  import opened Clock

  const MAX_TICKETS: nat := 4096
  const TICKET_TTL: int := 60 * SECOND

  /** What `randomToken` draws; a token never repeats. */
  type Token = nat

  datatype Ticket = Ticket(session: string, device: string, expires: int)

  /**
   How far a request that issues a ticket has come. A purge goes by the clock read at its start; a
   count remembers the tickets it `found` at its start and the ones stored until then.
   */
  datatype Phase =
    | Idle
    | Begun(token: Token, ticket: Ticket)
    | Purging(token: Token, ticket: Ticket, now: int)
    | Counting(token: Token, ticket: Ticket, found: set<Token>, known: set<Token>)
    | Cleared(token: Token, ticket: Ticket)

  datatype Acceptance = Acceptance(token: Token, session: string, at: int)

  /**
   The clock, the requests and the map, and as history: the tickets drawn, stored and tried, the
   acceptances, the token each request stored last (unless it is past a new count), and the most
   that a successful count has found.
   */
  datatype State = State(
    clock: int,
    issuers: seq<Phase>,
    tickets: map<Token, Ticket>,
    drawn: map<Token, Ticket>,
    stored: set<Token>,
    tried: set<Token>,
    accepted: seq<Acceptance>,
    last: map<nat, Token>,
    bar: set<Token>
  )

  function Init(k: nat): State {
    State(0, seq(k, _ => Idle), map[], map[], {}, {}, [], map[], {})
  }

  datatype Step =
    | Tick(to: int)
    | Begin(i: nat, token: Token, session: string, device: string)
    | StartPurge(i: nat)
    | Drop(i: nat, expired: Token)
    | StartCount(i: nat)
    | FinishCount(i: nat, seen: nat)
    | Put(i: nat)
    | Consume(token: Token, session: string)

  function Unexpired(tickets: map<Token, Ticket>, now: int): map<Token, Ticket> {
    map token | token in tickets && now <= tickets[token].expires :: tickets[token]
  }

  /** Whether a consumer holding `token` for `session` is let in. */
  predicate Admits(tickets: map<Token, Ticket>, token: Token, session: string, now: int) {
    && token in tickets
    && tickets[token].session == session
    && tickets[token].device != ""
    && now < tickets[token].expires
  }

  /** The tickets that a count under way is sure to see: found at its start and still there. */
  function Steady(tickets: map<Token, Ticket>, found: set<Token>): set<Token> {
    found * tickets.Keys
  }

  /** A count can end with `seen`: all steady tickets, and no more than it found or were stored since. */
  predicate CanSee(s: State, found: set<Token>, known: set<Token>, seen: nat) {
    |Steady(s.tickets, found)| <= seen <= |found| + |s.stored - known|
  }

  /**
   One step; a step whose request is not at that point (or whose token is not new) does nothing.
   Session and device names are trimmed ones.
   */
  function Apply(cap: nat, s: State, step: Step): State {
    match step
    case Tick(to) => if to >= s.clock then s.(clock := to) else s
    case Begin(i, token, session, device) =>
      if i < |s.issuers| && s.issuers[i].Idle? && token !in s.drawn && device != "" then
        var ticket := Ticket(session, device, s.clock + TICKET_TTL);
        s.(issuers := s.issuers[i := Begun(token, ticket)], drawn := s.drawn[token := ticket])
      else s
    case StartPurge(i) =>
      if i < |s.issuers| && s.issuers[i].Begun? then
        s.(issuers := s.issuers[i := Purging(s.issuers[i].token, s.issuers[i].ticket, s.clock)])
      else s
    case Drop(i, expired) =>
      if i < |s.issuers| && s.issuers[i].Purging? && expired in s.tickets
         && s.issuers[i].now > s.tickets[expired].expires
      then s.(tickets := s.tickets - {expired})
      else s
    case StartCount(i) =>
      if i < |s.issuers| && s.issuers[i].Purging? then
        s.(issuers := s.issuers[i := Counting(s.issuers[i].token, s.issuers[i].ticket, s.tickets.Keys, s.stored)])
      else s
    case FinishCount(i, seen) =>
      if i < |s.issuers| && s.issuers[i].Counting? && CanSee(s, s.issuers[i].found, s.issuers[i].known, seen) then
        if seen >= cap then s.(issuers := s.issuers[i := Idle])
        else s.(issuers := s.issuers[i := Cleared(s.issuers[i].token, s.issuers[i].ticket)],
                last := s.last - {i},
                bar := if Steady(s.tickets, s.issuers[i].found) <= s.bar then s.bar else s.issuers[i].found)
      else s
    case Put(i) =>
      if i < |s.issuers| && s.issuers[i].Cleared? then
        s.(issuers := s.issuers[i := Idle],
           tickets := s.tickets[s.issuers[i].token := s.issuers[i].ticket],
           stored := s.stored + {s.issuers[i].token},
           last := s.last[i := s.issuers[i].token])
      else s
    case Consume(token, session) =>
      if token in s.tickets then
        s.(tickets := s.tickets - {token},
           tried := s.tried + {token},
           accepted := if Admits(s.tickets, token, session, s.clock)
                       then s.accepted + [Acceptance(token, session, s.clock)] else s.accepted)
      else s
  }

  function Run(cap: nat, s: State, steps: seq<Step>): State
    decreases |steps|
  {
    if steps == [] then s else Run(cap, Apply(cap, s, steps[0]), steps[1..])
  }

  // ---------------------------------------------------------------- tokens

  /** Tickets in the map were drawn for their token, stored, and nobody has tried them. */
  ghost predicate TicketsTracked(s: State) {
    && s.tried <= s.stored <= s.drawn.Keys
    && (forall t :: t in s.tickets ==> t in s.stored && t !in s.tried && s.tickets[t] == s.drawn[t])
    && (forall t :: t in s.drawn ==> s.drawn[t].device != "")
  }

  /** A request under way holds a token of its own, not stored yet, and its purge goes by a past clock. */
  ghost predicate RequestsTracked(s: State) {
    && (forall i :: 0 <= i < |s.issuers| && !s.issuers[i].Idle? ==>
          && s.issuers[i].token in s.drawn
          && s.drawn[s.issuers[i].token] == s.issuers[i].ticket
          && s.issuers[i].token !in s.stored)
    && (forall i, j :: 0 <= i < j < |s.issuers| && !s.issuers[i].Idle? && !s.issuers[j].Idle? ==>
          s.issuers[i].token != s.issuers[j].token)
    && (forall i :: 0 <= i < |s.issuers| && s.issuers[i].Purging? ==> s.issuers[i].now <= s.clock)
  }

  /** A stored ticket that nobody has tried is in the map until it expires. */
  ghost predicate LiveKept(s: State)
    requires s.stored <= s.drawn.Keys
  {
    forall t :: t in s.stored && t !in s.tried && s.clock <= s.drawn[t].expires ==> t in s.tickets
  }

  ghost predicate TokensTracked(s: State) {
    TicketsTracked(s) && RequestsTracked(s) && LiveKept(s)
  }

  ghost predicate AcceptancesSound(s: State) {
    && (forall n :: 0 <= n < |s.accepted| ==>
          var a := s.accepted[n];
          && a.token in s.drawn && a.token in s.tried
          && a.session == s.drawn[a.token].session && a.at < s.drawn[a.token].expires)
    && (forall m, n :: 0 <= m < n < |s.accepted| ==> s.accepted[m].token != s.accepted[n].token)
  }

  lemma StepTracksTickets(cap: nat, s: State, step: Step)
    requires TicketsTracked(s) && RequestsTracked(s)
    ensures TicketsTracked(Apply(cap, s, step))
  {
  }

  lemma KeepsToken(s: State, i: nat, p: Phase, next: State)
    requires RequestsTracked(s) && i < |s.issuers| && !s.issuers[i].Idle? && next.issuers == s.issuers[i := p]
    requires p.Idle? || (p.token == s.issuers[i].token && p.ticket == s.issuers[i].ticket)
    requires next.clock == s.clock && next.stored == s.stored && next.drawn == s.drawn
    requires p.Purging? ==> p.now <= s.clock
    ensures RequestsTracked(next)
  {
    assert forall j :: 0 <= j < |s.issuers| && j != i && !s.issuers[j].Idle? ==>
                         s.issuers[j].token != s.issuers[i].token;
  }

  lemma AdvanceTracks(cap: nat, s: State, step: Step)
    requires RequestsTracked(s) && (step.StartPurge? || step.StartCount? || step.FinishCount?)
    ensures RequestsTracked(Apply(cap, s, step))
  {
    var next := Apply(cap, s, step);
    if next != s {
      var i := step.i;
      var token, ticket := s.issuers[i].token, s.issuers[i].ticket;
      match step
      case StartPurge(_) => KeepsToken(s, i, Purging(token, ticket, s.clock), next);
      case StartCount(_) => KeepsToken(s, i, Counting(token, ticket, s.tickets.Keys, s.stored), next);
      case FinishCount(_, seen) => KeepsToken(s, i, if seen >= cap then Idle else Cleared(token, ticket), next);
    }
  }

  lemma StepTracksRequests(cap: nat, s: State, step: Step)
    requires TicketsTracked(s) && RequestsTracked(s)
    ensures RequestsTracked(Apply(cap, s, step))
  {
    match step
    case StartPurge(_) => AdvanceTracks(cap, s, step);
    case StartCount(_) => AdvanceTracks(cap, s, step);
    case FinishCount(_, _) => AdvanceTracks(cap, s, step);
    case _ =>
  }

  lemma StepKeepsLive(cap: nat, s: State, step: Step)
    requires TicketsTracked(s) && RequestsTracked(s) && LiveKept(s)
    ensures TicketsTracked(Apply(cap, s, step)) && LiveKept(Apply(cap, s, step))
  {
    StepTracksTickets(cap, s, step);
  }

  /** Only a consumer that finds its token changes what was tried and accepted; tokens stay drawn. */
  lemma HistoryGrows(cap: nat, s: State, step: Step)
    ensures var next := Apply(cap, s, step);
            && (!(step.Consume? && step.token in s.tickets) ==> next.accepted == s.accepted && next.tried == s.tried)
            && forall t :: t in s.drawn ==> t in next.drawn && next.drawn[t] == s.drawn[t]
  {
  }

  lemma SameAcceptances(s: State, next: State)
    requires AcceptancesSound(s) && next.accepted == s.accepted && next.tried == s.tried
    requires forall t :: t in s.drawn ==> t in next.drawn && next.drawn[t] == s.drawn[t]
    ensures AcceptancesSound(next)
  {
  }

  lemma ConsumeKeepsAcceptances(cap: nat, s: State, step: Step)
    requires TicketsTracked(s) && AcceptancesSound(s) && step.Consume? && step.token in s.tickets
    ensures AcceptancesSound(Apply(cap, s, step))
  {
    assert forall n :: 0 <= n < |s.accepted| ==> s.accepted[n].token != step.token;
  }

  lemma StepKeepsAcceptances(cap: nat, s: State, step: Step)
    requires TicketsTracked(s) && AcceptancesSound(s)
    ensures AcceptancesSound(Apply(cap, s, step))
  {
    if step.Consume? && step.token in s.tickets {
      ConsumeKeepsAcceptances(cap, s, step);
    } else {
      HistoryGrows(cap, s, step);
      SameAcceptances(s, Apply(cap, s, step));
    }
  }

  /** Over any interleaving: a token is let in at most once, only for its session, only before it expires. */
  lemma {:induction false} TokensAreSingleUse(cap: nat, s: State, steps: seq<Step>)
    requires TokensTracked(s) && AcceptancesSound(s)
    ensures TokensTracked(Run(cap, s, steps)) && AcceptancesSound(Run(cap, s, steps))
    decreases |steps|
  {
    if steps != [] {
      StepTracksRequests(cap, s, steps[0]);
      StepKeepsLive(cap, s, steps[0]);
      StepKeepsAcceptances(cap, s, steps[0]);
      TokensAreSingleUse(cap, Apply(cap, s, steps[0]), steps[1..]);
    }
  }

  lemma TokensAreSingleUseFromTheStart(cap: nat, k: nat, steps: seq<Step>)
    ensures TokensTracked(Run(cap, Init(k), steps)) && AcceptancesSound(Run(cap, Init(k), steps))
  {
    TokensAreSingleUse(cap, Init(k), steps);
  }

  /**
   A consumer is let in exactly when its token was stored, nobody has tried it, the session is
   the ticket's and it has not expired: purging never costs a live ticket.
   */
  lemma LiveTicketsAreHonoured(s: State, token: Token, session: string)
    requires TokensTracked(s)
    ensures Admits(s.tickets, token, session, s.clock) <==>
              && token in s.stored && token !in s.tried
              && s.drawn[token].session == session
              && s.clock < s.drawn[token].expires
  {
  }

  // ---------------------------------------------------------------- the cap

  /** Requests past the count and not yet past the store. */
  function ClearedCount(issuers: seq<Phase>): nat {
    if issuers == [] then 0 else (if issuers[0].Cleared? then 1 else 0) + ClearedCount(issuers[1..])
  }

  lemma {:induction false} SmallerSet<K>(a: set<K>, b: set<K>)
    requires a <= b
    ensures |a| <= |b|
  {
    assert b == a + (b - a);
  }

  predicate WithinCap(cap: nat, s: State) {
    |s.tickets| + ClearedCount(s.issuers) <= cap - 1 + |s.issuers|
  }

  /** Of the tickets in the map, one set holds all that the other does, or the other way round. */
  ghost predicate Nested(tickets: map<Token, Ticket>, a: set<Token>, b: set<Token>) {
    Steady(tickets, a) <= b || Steady(tickets, b) <= a
  }

  /** What a count has found, and the bar, were stored before; a later count found what is left of an earlier one's. */
  ghost predicate CountsNested(s: State) {
    && s.tickets.Keys <= s.stored && s.bar <= s.stored
    && (forall i :: 0 <= i < |s.issuers| && s.issuers[i].Counting? ==>
          s.issuers[i].found <= s.stored && Nested(s.tickets, s.issuers[i].found, s.bar))
    && (forall i, j :: 0 <= i < j < |s.issuers| && s.issuers[i].Counting? && s.issuers[j].Counting? ==>
          Nested(s.tickets, s.issuers[i].found, s.issuers[j].found))
  }

  /** Some request that is not past a count stored `t` last. */
  ghost predicate StoredLast(s: State, t: Token) {
    exists i: nat :: i < |s.issuers| && !s.issuers[i].Cleared? && i in s.last && s.last[i] == t
  }

  /**
   The bar holds every ticket in the map that is not some request's last one, and leaves room under
   the cap; a count under way has found the request's own last ticket.
   */
  ghost predicate UnderTheBar(cap: nat, s: State) {
    && |Steady(s.tickets, s.bar)| <= cap - 1
    && (forall t :: t in s.tickets ==> t in s.bar || StoredLast(s, t))
    && (forall i: nat :: i in s.last ==> s.last[i] in s.stored)
    && (forall i: nat :: i < |s.issuers| && s.issuers[i].Counting? && i in s.last && s.last[i] in s.tickets ==>
          s.last[i] in s.issuers[i].found)
  }

  ghost predicate Guarded(cap: nat, s: State) {
    TicketsTracked(s) && RequestsTracked(s) && CountsNested(s) && UnderTheBar(cap, s)
  }

  // Steps that store nothing and clear nobody.

  lemma FewerNested(s: State, next: State)
    requires CountsNested(s) && next.tickets.Keys <= s.tickets.Keys
    requires next == s.(tickets := next.tickets, tried := next.tried, accepted := next.accepted)
    ensures CountsNested(next)
  {
    assert forall a: set<Token> :: Steady(next.tickets, a) <= Steady(s.tickets, a);
  }

  lemma FewerTickets(cap: nat, s: State, next: State)
    requires UnderTheBar(cap, s) && next.tickets.Keys <= s.tickets.Keys
    requires next == s.(tickets := next.tickets, tried := next.tried, accepted := next.accepted)
    ensures UnderTheBar(cap, next)
  {
    SmallerSet(Steady(next.tickets, s.bar), Steady(s.tickets, s.bar));
    forall t | t in next.tickets ensures t in next.bar || StoredLast(next, t) {
      if t !in s.bar {
        assert StoredLast(s, t);
        var i: nat :| i < |s.issuers| && !s.issuers[i].Cleared? && i in s.last && s.last[i] == t;
        assert !next.issuers[i].Cleared?;
      }
    }
  }

  /** A request moves on without getting past a count. */
  lemma MovesOn(cap: nat, s: State, i: nat, p: Phase, next: State)
    requires CountsNested(s) && UnderTheBar(cap, s)
    requires i < |s.issuers| && !p.Cleared? && !s.issuers[i].Cleared?
    requires next == s.(issuers := s.issuers[i := p], drawn := next.drawn)
    requires p.Counting? ==> p.found == s.tickets.Keys
    ensures CountsNested(next) && UnderTheBar(cap, next)
  {
    forall t | t in next.tickets ensures t in next.bar || StoredLast(next, t) {
      if t !in s.bar {
        assert StoredLast(s, t);
        var j: nat :| j < |s.issuers| && !s.issuers[j].Cleared? && j in s.last && s.last[j] == t;
        assert !next.issuers[j].Cleared?;
      }
    }
  }

  /** A successful count, of fewer steady tickets than the cap: the later of the two counts sets the bar. */
  lemma CountClears(cap: nat, s: State, i: nat, p: Phase, next: State)
    requires CountsNested(s) && UnderTheBar(cap, s)
    requires i < |s.issuers| && s.issuers[i].Counting? && p.Cleared?
    requires |Steady(s.tickets, s.issuers[i].found)| < cap
    requires next == s.(issuers := s.issuers[i := p], last := s.last - {i}, bar := Higher(s, s.issuers[i].found))
    ensures CountsNested(next) && UnderTheBar(cap, next)
  {
    BarStaysNested(s, i, p, next);
    HigherBar(cap, s, i, p, next);
  }

  lemma HigherBar(cap: nat, s: State, i: nat, p: Phase, next: State)
    requires UnderTheBar(cap, s) && i < |s.issuers| && s.issuers[i].Counting? && p.Cleared?
    requires Nested(s.tickets, s.issuers[i].found, s.bar) && |Steady(s.tickets, s.issuers[i].found)| < cap
    requires next == s.(issuers := s.issuers[i := p], last := s.last - {i}, bar := Higher(s, s.issuers[i].found))
    ensures UnderTheBar(cap, next)
  {
    forall t | t in s.tickets ensures t in next.bar || StoredLast(next, t) { LeftOver(cap, s, i, next, t); }
  }

  /** The bar after a successful count that has found `found`. */
  function Higher(s: State, found: set<Token>): set<Token> {
    if Steady(s.tickets, found) <= s.bar then s.bar else found
  }

  lemma BarStaysNested(s: State, i: nat, p: Phase, next: State)
    requires CountsNested(s) && i < |s.issuers| && s.issuers[i].Counting? && p.Cleared?
    requires next == s.(issuers := s.issuers[i := p], last := next.last, bar := Higher(s, s.issuers[i].found))
    ensures CountsNested(next)
  {
    forall j | 0 <= j < |next.issuers| && next.issuers[j].Counting?
      ensures Nested(next.tickets, next.issuers[j].found, next.bar)
    {
      if j < i { assert Nested(s.tickets, s.issuers[j].found, s.issuers[i].found); }
      if i < j { assert Nested(s.tickets, s.issuers[i].found, s.issuers[j].found); }
    }
  }

  /** A ticket above the new bar is still the last one of a request not past a count. */
  lemma LeftOver(cap: nat, s: State, i: nat, next: State, t: Token)
    requires UnderTheBar(cap, s) && i < |s.issuers| && s.issuers[i].Counting? && t in s.tickets
    requires Nested(s.tickets, s.issuers[i].found, s.bar)
    requires next.bar == Higher(s, s.issuers[i].found)
    requires |next.issuers| == |s.issuers|
    requires forall j :: 0 <= j < |s.issuers| && j != i ==> next.issuers[j] == s.issuers[j]
    requires next.last == s.last - {i}
    ensures t in next.bar || StoredLast(next, t)
  {
    if t in s.bar {
      assert t in Steady(s.tickets, s.bar);
    } else {
      assert StoredLast(s, t);
      var j: nat :| j < |s.issuers| && !s.issuers[j].Cleared? && j in s.last && s.last[j] == t;
      if j == i { assert t in Steady(s.tickets, s.issuers[i].found); } else { assert !next.issuers[j].Cleared?; }
    }
  }

  /** A new token changes nothing about what was found before. */
  lemma SameSteady(tickets: map<Token, Ticket>, token: Token, ticket: Ticket, found: set<Token>)
    requires token !in found
    ensures Steady(tickets[token := ticket], found) == Steady(tickets, found)
  {
  }

  lemma PutKeepsNested(s: State, i: nat, token: Token, ticket: Ticket, next: State)
    requires CountsNested(s) && i < |s.issuers| && token !in s.stored
    requires next.issuers == s.issuers[i := Idle] && next.tickets == s.tickets[token := ticket]
    requires next.stored == s.stored + {token} && next.bar == s.bar
    ensures CountsNested(next)
  {
    SameSteady(s.tickets, token, ticket, s.bar);
    forall j | 0 <= j < |s.issuers| && s.issuers[j].Counting?
      ensures Steady(next.tickets, s.issuers[j].found) == Steady(s.tickets, s.issuers[j].found)
    {
      SameSteady(s.tickets, token, ticket, s.issuers[j].found);
    }
  }

  lemma PutKeepsBar(cap: nat, s: State, i: nat, token: Token, ticket: Ticket, next: State)
    requires CountsNested(s) && UnderTheBar(cap, s) && token !in s.stored
    requires i < |s.issuers| && s.issuers[i].Cleared?
    requires next.issuers == s.issuers[i := Idle] && next.tickets == s.tickets[token := ticket]
    requires next.stored == s.stored + {token} && next.bar == s.bar && next.last == s.last[i := token]
    ensures UnderTheBar(cap, next)
  {
    SameSteady(s.tickets, token, ticket, s.bar);
    forall t | t in next.tickets ensures t in next.bar || StoredLast(next, t) {
      if t == token {
        assert !next.issuers[i].Cleared? && next.last[i] == t;
      } else if t !in s.bar {
        assert StoredLast(s, t);
        var j: nat :| j < |s.issuers| && !s.issuers[j].Cleared? && j in s.last && s.last[j] == t;
        assert !next.issuers[j].Cleared? && next.last[j] == t;
      }
    }
  }

  /** A ticket is stored: it is its request's last one. */
  lemma TicketIsPut(cap: nat, s: State, i: nat)
    requires RequestsTracked(s) && CountsNested(s) && UnderTheBar(cap, s)
    requires i < |s.issuers| && s.issuers[i].Cleared?
    ensures CountsNested(Apply(cap, s, Put(i))) && UnderTheBar(cap, Apply(cap, s, Put(i)))
  {
    var token, ticket := s.issuers[i].token, s.issuers[i].ticket;
    PutKeepsNested(s, i, token, ticket, Apply(cap, s, Put(i)));
    PutKeepsBar(cap, s, i, token, ticket, Apply(cap, s, Put(i)));
  }

  lemma StepKeepsGuard(cap: nat, s: State, step: Step)
    requires cap > 0 && Guarded(cap, s)
    ensures Guarded(cap, Apply(cap, s, step)) && |Apply(cap, s, step).issuers| == |s.issuers|
  {
    StepTracksTickets(cap, s, step);
    StepTracksRequests(cap, s, step);
    StepKeepsBar(cap, s, step);
    SameNumber(cap, s, step);
  }

  lemma AdvanceKeepsBar(cap: nat, s: State, step: Step)
    requires CountsNested(s) && UnderTheBar(cap, s)
    requires step.Begin? || step.StartPurge? || step.StartCount?
    ensures CountsNested(Apply(cap, s, step)) && UnderTheBar(cap, Apply(cap, s, step))
  {
    var next := Apply(cap, s, step);
    if next != s {
      match step
      case Begin(i, token, session, device) =>
        MovesOn(cap, s, i, Begun(token, Ticket(session, device, s.clock + TICKET_TTL)), next);
      case StartPurge(i) => MovesOn(cap, s, i, Purging(s.issuers[i].token, s.issuers[i].ticket, s.clock), next);
      case StartCount(i) =>
        MovesOn(cap, s, i, Counting(s.issuers[i].token, s.issuers[i].ticket, s.tickets.Keys, s.stored), next);
    }
  }

  /** What a count that ends below the cap does. */
  lemma CountSucceeds(cap: nat, s: State, i: nat, seen: nat)
    requires i < |s.issuers| && s.issuers[i].Counting? && seen < cap
    requires CanSee(s, s.issuers[i].found, s.issuers[i].known, seen)
    ensures |Steady(s.tickets, s.issuers[i].found)| < cap
    ensures Apply(cap, s, FinishCount(i, seen))
            == s.(issuers := s.issuers[i := Cleared(s.issuers[i].token, s.issuers[i].ticket)],
                  last := s.last - {i}, bar := Higher(s, s.issuers[i].found))
  {
  }

  lemma SuccessKeepsBar(cap: nat, s: State, i: nat, seen: nat)
    requires CountsNested(s) && UnderTheBar(cap, s) && seen < cap
    requires i < |s.issuers| && s.issuers[i].Counting?
    requires CanSee(s, s.issuers[i].found, s.issuers[i].known, seen)
    ensures CountsNested(Apply(cap, s, FinishCount(i, seen))) && UnderTheBar(cap, Apply(cap, s, FinishCount(i, seen)))
  {
    CountSucceeds(cap, s, i, seen);
    CountClears(cap, s, i, Cleared(s.issuers[i].token, s.issuers[i].ticket), Apply(cap, s, FinishCount(i, seen)));
  }

  lemma CountKeepsBar(cap: nat, s: State, i: nat, seen: nat)
    requires CountsNested(s) && UnderTheBar(cap, s)
    ensures CountsNested(Apply(cap, s, FinishCount(i, seen))) && UnderTheBar(cap, Apply(cap, s, FinishCount(i, seen)))
  {
    var next := Apply(cap, s, FinishCount(i, seen));
    if next != s {
      if seen < cap { SuccessKeepsBar(cap, s, i, seen); } else { MovesOn(cap, s, i, Idle, next); }
    }
  }

  lemma TakingKeepsBar(cap: nat, s: State, step: Step)
    requires CountsNested(s) && UnderTheBar(cap, s) && (step.Drop? || step.Consume?)
    ensures CountsNested(Apply(cap, s, step)) && UnderTheBar(cap, Apply(cap, s, step))
  {
    var next := Apply(cap, s, step);
    if next != s {
      FewerNested(s, next);
      FewerTickets(cap, s, next);
    }
  }

  lemma PutKeepsGuard(cap: nat, s: State, i: nat)
    requires RequestsTracked(s) && CountsNested(s) && UnderTheBar(cap, s)
    ensures CountsNested(Apply(cap, s, Put(i))) && UnderTheBar(cap, Apply(cap, s, Put(i)))
  {
    if i < |s.issuers| && s.issuers[i].Cleared? { TicketIsPut(cap, s, i); }
  }

  lemma SameNumber(cap: nat, s: State, step: Step)
    ensures |Apply(cap, s, step).issuers| == |s.issuers|
  {
  }

  lemma StepKeepsBar(cap: nat, s: State, step: Step)
    requires cap > 0 && Guarded(cap, s)
    ensures CountsNested(Apply(cap, s, step)) && UnderTheBar(cap, Apply(cap, s, step))
  {
    if step.FinishCount? {
      CountKeepsBar(cap, s, step.i, step.seen);
    } else if step.Put? {
      PutKeepsGuard(cap, s, step.i);
    } else if step.Drop? || step.Consume? {
      TakingKeepsBar(cap, s, step);
    } else if !step.Tick? {
      AdvanceKeepsBar(cap, s, step);
    }
  }

  /** The tokens that the requests not past a count stored last. */
  function LastTokens(issuers: seq<Phase>, last: map<nat, Token>, n: nat): set<Token>
    requires n <= |issuers|
  {
    if n == 0 then {}
    else (if !issuers[n - 1].Cleared? && n - 1 in last then {last[n - 1]} else {}) + LastTokens(issuers, last, n - 1)
  }

  lemma {:induction false} FewLastTokens(issuers: seq<Phase>, last: map<nat, Token>, n: nat)
    requires n <= |issuers|
    ensures |LastTokens(issuers, last, n)| + ClearedCount(issuers[..n]) <= n
    decreases n
  {
    if n > 0 {
      FewLastTokens(issuers, last, n - 1);
      CountOneMore(issuers[..n - 1], issuers[n - 1]);
      assert issuers[..n] == issuers[..n - 1] + [issuers[n - 1]];
    }
  }

  lemma {:induction false} LastTokenHeld(issuers: seq<Phase>, last: map<nat, Token>, n: nat, i: nat)
    requires i < n <= |issuers| && !issuers[i].Cleared? && i in last
    ensures last[i] in LastTokens(issuers, last, n)
    decreases n
  {
    if i < n - 1 { LastTokenHeld(issuers, last, n - 1, i); }
  }

  lemma {:induction false} CountOneMore(issuers: seq<Phase>, p: Phase)
    ensures ClearedCount(issuers + [p]) == ClearedCount(issuers) + if p.Cleared? then 1 else 0
    decreases |issuers|
  {
    if issuers != [] {
      assert (issuers + [p])[1..] == issuers[1..] + [p];
      CountOneMore(issuers[1..], p);
    }
  }

  lemma UnionIsSmall(a: set<Token>, b: set<Token>, c: set<Token>)
    requires a <= b + c
    ensures |a| <= |b| + |c|
  {
    SmallerSet(a, b + c);
    assert |b + c| <= |b| + |c|;
  }

  /** The map holds no more than the bar and one last ticket for each request not past a count. */
  lemma GuardMeansCap(cap: nat, s: State)
    requires cap > 0 && Guarded(cap, s)
    ensures WithinCap(cap, s)
  {
    var k := |s.issuers|;
    FewLastTokens(s.issuers, s.last, k);
    assert s.issuers[..k] == s.issuers;
    forall t | t in s.tickets ensures t in Steady(s.tickets, s.bar) + LastTokens(s.issuers, s.last, k) {
      if t !in s.bar {
        assert StoredLast(s, t);
        var i: nat :| i < k && !s.issuers[i].Cleared? && i in s.last && s.last[i] == t;
        LastTokenHeld(s.issuers, s.last, k, i);
      }
    }
    UnionIsSmall(s.tickets.Keys, Steady(s.tickets, s.bar), LastTokens(s.issuers, s.last, k));
    assert |s.tickets| == |s.tickets.Keys|;
  }

  /** Over any interleaving, stored tickets and requests past the count stay within the bound together. */
  lemma {:induction false} StoredTicketsAreBounded(cap: nat, s: State, steps: seq<Step>)
    requires cap > 0 && Guarded(cap, s)
    ensures WithinCap(cap, Run(cap, s, steps)) && |Run(cap, s, steps).issuers| == |s.issuers|
    decreases |steps|
  {
    if steps == [] {
      GuardMeansCap(cap, s);
    } else {
      StepKeepsGuard(cap, s, steps[0]);
      StoredTicketsAreBounded(cap, Apply(cap, s, steps[0]), steps[1..]);
    }
  }

  /** With `k` requests issuing at once, that is at most `cap - 1 + k`. */
  lemma StoredTicketsAreBoundedFromTheStart(cap: nat, k: nat, steps: seq<Step>)
    requires cap > 0
    ensures var s := Run(cap, Init(k), steps);
            |s.issuers| == k && |s.tickets| + ClearedCount(s.issuers) <= cap - 1 + k
  {
    assert Guarded(cap, Init(k));
    StoredTicketsAreBounded(cap, Init(k), steps);
  }

  /** One request at a time never exceeds the cap itself. */
  lemma SerialIssuersKeepTheCap(steps: seq<Step>)
    ensures |Run(MAX_TICKETS, Init(1), steps).tickets| <= MAX_TICKETS
  {
    StoredTicketsAreBoundedFromTheStart(MAX_TICKETS, 1, steps);
  }

  // ---------------------------------------------------------------- the bound is reached

  lemma {:induction false} RunAppends(cap: nat, s: State, a: seq<Step>, b: seq<Step>)
    ensures Run(cap, s, a + b) == Run(cap, Run(cap, s, a), b)
    decreases |a|
  {
    if a == [] {
      assert a + b == b;
    } else {
      assert (a + b)[0] == a[0] && (a + b)[1..] == a[1..] + b;
      RunAppends(cap, Apply(cap, s, a[0]), a[1..], b);
    }
  }

  /** What a request does up to the count, undisturbed. */
  function EnterRace(i: nat, token: Token, seen: nat): seq<Step> {
    [Begin(i, token, "session", "device"), StartPurge(i), StartCount(i), FinishCount(i, seen)]
  }

  /** The last three steps of a request that has begun. */
  function Counted(cap: nat, s: State, i: nat, seen: nat): State {
    Apply(cap, Apply(cap, Apply(cap, s, StartPurge(i)), StartCount(i)), FinishCount(i, seen))
  }

  lemma EnterRaceRuns(cap: nat, s: State, i: nat, token: Token, seen: nat)
    ensures Run(cap, s, EnterRace(i, token, seen))
            == Counted(cap, Apply(cap, s, Begin(i, token, "session", "device")), i, seen)
  {
    var steps := EnterRace(i, token, seen);
    var s1 := Apply(cap, s, steps[0]);
    var s2 := Apply(cap, s1, steps[1]);
    var s3 := Apply(cap, s2, steps[2]);
    assert Run(cap, s, steps) == Run(cap, s1, steps[1..]) == Run(cap, s2, steps[2..]) == Run(cap, s3, steps[3..]);
    assert steps[3..] == [steps[3]];
    assert Run(cap, s3, steps[3..]) == Apply(cap, s3, steps[3]);
  }

  /** A count that nobody disturbs sees the tickets there are. */
  lemma UndisturbedCount(s: State)
    requires s.tickets.Keys <= s.stored
    ensures CanSee(s, s.tickets.Keys, s.stored, |s.tickets|)
  {
    assert Steady(s.tickets, s.tickets.Keys) == s.tickets.Keys;
    assert s.stored - s.stored == {};
    assert |s.tickets.Keys| == |s.tickets|;
  }

  /** Undisturbed and below the cap, a request that has begun is cleared and the map stays as it was. */
  lemma BegunClears(cap: nat, s: State, i: nat)
    requires i < |s.issuers| && s.issuers[i].Begun? && |s.tickets| < cap && s.tickets.Keys <= s.stored
    ensures var r := Counted(cap, s, i, |s.tickets|);
            && r.clock == s.clock && r.tickets == s.tickets && r.stored == s.stored && r.drawn == s.drawn
            && r.issuers == s.issuers[i := Cleared(s.issuers[i].token, s.issuers[i].ticket)]
  {
    var token, ticket := s.issuers[i].token, s.issuers[i].ticket;
    var counting := Apply(cap, Apply(cap, s, StartPurge(i)), StartCount(i));
    var p := Counting(token, ticket, s.tickets.Keys, s.stored);
    assert counting == s.(issuers := s.issuers[i := Purging(token, ticket, s.clock)][i := p]);
    CountingClears(cap, counting, i);
    assert s.issuers[i := Purging(token, ticket, s.clock)][i := p][i := Cleared(token, ticket)]
        == s.issuers[i := Cleared(token, ticket)];
  }

  lemma CountingClears(cap: nat, s: State, i: nat)
    requires i < |s.issuers| && s.issuers[i].Counting? && |s.tickets| < cap && s.tickets.Keys <= s.stored
    requires s.issuers[i].found == s.tickets.Keys && s.issuers[i].known == s.stored
    ensures var r := Apply(cap, s, FinishCount(i, |s.tickets|));
            && r.clock == s.clock && r.tickets == s.tickets && r.stored == s.stored && r.drawn == s.drawn
            && r.issuers == s.issuers[i := Cleared(s.issuers[i].token, s.issuers[i].ticket)]
  {
    UndisturbedCount(s);
  }

  lemma EnterRaceClears(cap: nat, s: State, i: nat, token: Token)
    requires i < |s.issuers| && s.issuers[i].Idle? && token !in s.drawn && |s.tickets| < cap
    requires s.tickets.Keys <= s.stored
    ensures var ticket := Ticket("session", "device", s.clock + TICKET_TTL);
            var r := Run(cap, s, EnterRace(i, token, |s.tickets|));
            && r.clock == s.clock && r.tickets == s.tickets && r.stored == s.stored
            && r.issuers == s.issuers[i := Cleared(token, ticket)] && r.drawn == s.drawn[token := ticket]
  {
    EnterRaceRuns(cap, s, i, token, |s.tickets|);
    Begins(cap, s, i, token);
    BegunClears(cap, Apply(cap, s, Begin(i, token, "session", "device")), i);
    SetTwice(s.issuers, i, Begun(token, Ticket("session", "device", s.clock + TICKET_TTL)),
             Cleared(token, Ticket("session", "device", s.clock + TICKET_TTL)));
  }

  lemma Begins(cap: nat, s: State, i: nat, token: Token)
    requires i < |s.issuers| && s.issuers[i].Idle? && token !in s.drawn
    ensures var ticket := Ticket("session", "device", s.clock + TICKET_TTL);
            Apply(cap, s, Begin(i, token, "session", "device"))
            == s.(issuers := s.issuers[i := Begun(token, ticket)], drawn := s.drawn[token := ticket])
  {
  }

  lemma SetTwice(issuers: seq<Phase>, i: nat, p: Phase, q: Phase)
    requires i < |issuers|
    ensures issuers[i := p][i := q] == issuers[i := q]
  {
  }

  /** `n` tickets stored, every request idle, tokens below `n` drawn. */
  predicate Filled(s: State, k: nat, n: nat) {
    && |s.issuers| == k
    && (forall i :: 0 <= i < k ==> s.issuers[i].Idle?)
    && |s.tickets| == n
    && s.tickets.Keys <= s.stored
    && (forall t :: t in s.tickets ==> t < n)
    && (forall t :: t in s.drawn ==> t < n)
  }

  lemma RunOne(cap: nat, s: State, step: Step)
    ensures Run(cap, s, [step]) == Apply(cap, s, step)
  {
    assert Run(cap, Apply(cap, s, step), [step][1..]) == Apply(cap, s, step);
  }

  lemma IssueOneFills(cap: nat, s: State, k: nat, n: nat)
    requires k > 0 && n < cap && Filled(s, k, n)
    ensures Filled(Apply(cap, Run(cap, s, EnterRace(0, n, n)), Put(0)), k, n + 1)
  {
    EnterRaceClears(cap, s, 0, n);
  }

  lemma {:induction false} FillUp(cap: nat, k: nat, n: nat) returns (steps: seq<Step>)
    requires k > 0 && n < cap
    ensures Filled(Run(cap, Init(k), steps), k, n)
  {
    steps := [];
    if n > 0 {
      var before := FillUp(cap, k, n - 1);
      var s, race := Run(cap, Init(k), before), EnterRace(0, n - 1, n - 1);
      IssueOneFills(cap, s, k, n - 1);
      RunAppends(cap, Init(k), before, race);
      RunAppends(cap, Init(k), before + race, [Put(0)]);
      RunOne(cap, Run(cap, s, race), Put(0));
      steps := before + race + [Put(0)];
    }
  }

  /** The first `j` requests have passed the count while `n` tickets were stored. */
  predicate Racing(s: State, k: nat, n: nat, j: nat) {
    && |s.issuers| == k && j <= k
    && (forall i :: 0 <= i < j ==> s.issuers[i].Cleared? && s.issuers[i].token == n + i)
    && (forall i :: j <= i < k ==> s.issuers[i].Idle?)
    && |s.tickets| == n
    && s.tickets.Keys <= s.stored
    && (forall t :: t in s.tickets ==> t < n)
    && (forall t :: t in s.drawn ==> t < n + j)
  }

  lemma OneMoreRaces(cap: nat, s: State, k: nat, n: nat, j: nat)
    requires n < cap && j < k && Racing(s, k, n, j)
    ensures Racing(Run(cap, s, EnterRace(j, n + j, n)), k, n, j + 1)
  {
    EnterRaceClears(cap, s, j, n + j);
  }

  lemma {:induction false} RaceToTheCount(cap: nat, s: State, k: nat, n: nat, j: nat) returns (steps: seq<Step>)
    requires n < cap && j <= k && Filled(s, k, n)
    ensures Racing(Run(cap, s, steps), k, n, j)
    decreases j
  {
    steps := [];
    if j > 0 {
      var before := RaceToTheCount(cap, s, k, n, j - 1);
      steps := RaceOn(cap, s, before, k, n, j - 1);
    }
  }

  lemma RaceOn(cap: nat, s: State, before: seq<Step>, k: nat, n: nat, j: nat) returns (steps: seq<Step>)
    requires n < cap && j < k && Racing(Run(cap, s, before), k, n, j)
    ensures Racing(Run(cap, s, steps), k, n, j + 1)
  {
    OneMoreRaces(cap, Run(cap, s, before), k, n, j);
    steps := before + EnterRace(j, n + j, n);
    RunAppends(cap, s, before, EnterRace(j, n + j, n));
  }

  /** The first `j` of the racing requests have stored their ticket. */
  predicate Storing(s: State, k: nat, n: nat, j: nat) {
    && |s.issuers| == k && j <= k
    && (forall i :: j <= i < k ==> s.issuers[i].Cleared? && s.issuers[i].token == n + i)
    && |s.tickets| == n + j
    && (forall t :: t in s.tickets ==> t < n + j)
  }

  lemma {:induction false} StoreAll(cap: nat, s: State, k: nat, n: nat, j: nat) returns (steps: seq<Step>)
    requires j <= k && Racing(s, k, n, k)
    ensures Storing(Run(cap, s, steps), k, n, j)
    decreases j
  {
    steps := [];
    if j > 0 {
      var before := StoreAll(cap, s, k, n, j - 1);
      var r := Run(cap, s, before);
      assert Run(cap, r, [Put(j - 1)]) == Apply(cap, r, Put(j - 1));
      RunAppends(cap, s, before, [Put(j - 1)]);
      steps := before + [Put(j - 1)];
    }
  }

  /** For every cap and every number of requests, some interleaving stores exactly `cap - 1 + k` tickets. */
  lemma BoundIsReached(cap: nat, k: nat) returns (steps: seq<Step>)
    requires cap > 0 && k > 0
    ensures |Run(cap, Init(k), steps).tickets| == cap - 1 + k
  {
    var fill := FillUp(cap, k, cap - 1);
    var race := RaceToTheCount(cap, Run(cap, Init(k), fill), k, cap - 1, k);
    RunAppends(cap, Init(k), fill, race);
    var store := StoreAll(cap, Run(cap, Init(k), fill + race), k, cap - 1, k);
    RunAppends(cap, Init(k), fill + race, store);
    steps := fill + race + store;
  }

  // ---------------------------------------------------------------- the shared map

  function NewTicket(session: string, device: string, expires: int): Ticket {
    Ticket(TrimSpace(session), TrimSpace(device), expires)
  }

  /** Drawing a token gives its ticket sixty seconds from that instant. */
  lemma BeginDrawsForSixtySeconds(cap: nat, s: State, i: nat, token: Token, session: string, device: string)
    requires i < |s.issuers| && s.issuers[i].Idle? && token !in s.drawn && device != ""
    ensures var next := Apply(cap, s, Begin(i, token, session, device));
            && token in next.drawn && next.drawn[token] == Ticket(session, device, s.clock + 60_000_000_000)
            && next.issuers[i].Begun? && next.issuers[i].token == token && next.issuers[i].ticket == next.drawn[token]
  {
  }

  class TicketMap {
    var tickets: map<Token, Ticket>

    constructor ()
      ensures tickets == map[]
    {
      tickets := map[];
    }

    /** `purgeExpiredTerminalStreamTickets`. */
    method PurgeExpired(now: int)
      modifies this
      ensures tickets == Unexpired(old(tickets), now)
      ensures forall t :: t in tickets <==> t in old(tickets) && now <= old(tickets)[t].expires
      ensures forall t :: t in tickets ==> tickets[t] == old(tickets)[t]
    {
      var unseen := tickets.Keys;
      while unseen != {}
        invariant unseen <= tickets.Keys <= old(tickets).Keys
        invariant forall t :: t in tickets ==> tickets[t] == old(tickets)[t]
        invariant forall t :: t in old(tickets) && t !in unseen ==> (t in tickets <==> now <= old(tickets)[t].expires)
        decreases unseen
      {
        var token :| token in unseen;
        unseen := unseen - {token};
        if now > tickets[token].expires { tickets := tickets - {token}; }
      }
    }

    /** `activeTerminalStreamTicketCount`: the walk stops at the cap. */
    method ActiveCount(cap: nat) returns (count: nat)
      requires cap > 0
      ensures count == if |tickets| < cap then |tickets| else cap
    {
      count := 0;
      var unseen := tickets.Keys;
      while unseen != {} && count < cap
        invariant count + |unseen| == |tickets| && count <= cap
        decreases unseen
      {
        var token :| token in unseen;
        unseen := unseen - {token};
        count := count + 1;
      }
    }

    /** What the handler stores: trimmed names, and always a device. */
    method Put(token: Token, session: string, device: string, expires: int)
      modifies this
      ensures tickets == old(tickets)[token := NewTicket(session, device, expires)]
    {
      tickets := tickets[token := NewTicket(session, device, expires)];
    }

    /** `consumeTerminalStreamTicket`: load and delete in one step, then look. */
    method Consume(token: Token, session: string, now: int) returns (ok: bool)
      requires token in tickets ==> Trimmed(tickets[token].session) && Trimmed(tickets[token].device)
      modifies this
      ensures tickets == old(tickets) - {token}
      ensures ok <==> Admits(old(tickets), token, TrimSpace(session), now)
    {
      if token !in tickets { return false; }
      var ticket := tickets[token];
      tickets := tickets - {token};
      TrimSpaceTrims(ticket.session);
      TrimSpaceTrims(ticket.device);
      ok := && TrimSpace(ticket.session) == TrimSpace(session)
            && TrimSpace(ticket.device) != ""
            && now < ticket.expires;
    }
  }
  /** A ticket put for a session lets that session in for sixty seconds, and no other, once. */
  method IssueThenConsume(tickets: TicketMap, token: Token, session: string, device: string, issued: int,
                          asked: string, now: int) returns (first: bool, second: bool)
    requires !Blank(device)
    modifies tickets
    ensures first <==> TrimSpace(asked) == TrimSpace(session) && now < issued + 60_000_000_000
    ensures !second
    ensures tickets.tickets == old(tickets.tickets) - {token}
  {
    BlankMeansNothingLeft(device);
    TrimSpaceTrims(session);
    TrimSpaceTrims(device);
    tickets.Put(token, session, device, issued + TICKET_TTL);
    first := tickets.Consume(token, asked, now);
    second := tickets.Consume(token, asked, now);
  }
}
