/** Refresh-token rotation: every interleaving of logins, refreshes, logouts and password resets, one database
    action a step, with the row locks of SELECT ... FOR UPDATE and of uncommitted updates. */
module Tokens {
  import opened Domain

  /** `lineage` and `parent` are history: the login a token descends from and the token it replaced. */
  datatype Token = Token(user: nat, lineage: nat, parent: Option<nat>, expiresAt: int, revoked: bool)

  datatype ResetToken = ResetToken(user: nat, expiresAt: int, used: bool)

  /** Where a request is. `seen` is history: how many refresh tokens were stored when a reset read them. */
  datatype Client =
    | Idle
    | Refreshing(token: nat)
    | LogoutRead(token: nat)
    | LogoutFlushed(token: nat)
    | ResetLocked(reset: nat)
    | Resetting(reset: nat, found: set<nat>, locked: set<nat>, seen: nat)

  datatype State = State(tokens: seq<Token>, resets: seq<ResetToken>, clients: map<nat, Client>)

  datatype Event =
    | Login(user: nat, expiresAt: int)
    | RequestReset(user: nat, expiresAt: int)
    | Lock(client: nat, token: nat, user: nat, now: int, active: bool)
    | Rotate(client: nat, expiresAt: int)
    | Peek(client: nat, token: nat, user: nat)
    | Flush(client: nat)
    | Settle(client: nat)
    | LockReset(client: nat, reset: nat, now: int, active: bool)
    | Scan(client: nat)
    | Seize(client: nat, token: nat)
    | Confirm(client: nat)
    | Vanish(client: nat)

  const Empty: State := State([], [], map[])

  // --- Locks ------------------------------------------------------------------------

  function ClientOf(s: State, c: nat): Client { if c in s.clients then s.clients[c] else Idle }

  function Move(s: State, c: nat, client: Client): State { s.(clients := s.clients[c := client]) }

  predicate Holds(client: Client, t: nat) {
    match client
    case Refreshing(u) => t == u
    case LogoutFlushed(u) => t == u
    case Resetting(_, _, locked, _) => t in locked
    case _ => false
  }

  predicate HoldsReset(client: Client, r: nat) {
    (client.ResetLocked? || client.Resetting?) && client.reset == r
  }

  predicate Free(s: State, t: nat) { forall d :: d in s.clients ==> !Holds(s.clients[d], t) }

  predicate ResetFree(s: State, r: nat) { forall d :: d in s.clients ==> !HoldsReset(s.clients[d], r) }

  // --- Steps --------------------------------------------------------------------------

  predicate IsUsable(token: Token, user: nat, now: int) { !token.revoked && token.user == user && token.expiresAt >= now }

  predicate ResetUsable(reset: ResetToken, now: int) { !reset.used && reset.expiresAt >= now }

  function Revoke(tokens: seq<Token>, t: nat): (r: seq<Token>)
    ensures |r| == |tokens|
  {
    if t < |tokens| then tokens[t := tokens[t].(revoked := true)] else tokens
  }

  /** Every token of `which` is revoked, the rest are as they were. */
  function RevokeAll(tokens: seq<Token>, which: set<nat>): (r: seq<Token>)
    ensures |r| == |tokens|
    ensures forall i :: 0 <= i < |tokens| ==> r[i] == if i in which then tokens[i].(revoked := true) else tokens[i]
  {
    seq(|tokens|, i requires 0 <= i < |tokens| => if i in which then tokens[i].(revoked := true) else tokens[i])
  }

  function Unrevoked(tokens: seq<Token>, user: nat): set<nat> {
    set i: nat | i < |tokens| && tokens[i].user == user && !tokens[i].revoked
  }

  function Issued(user: nat, lineage: nat, parent: Option<nat>, expiresAt: int): Token {
    Token(user, lineage, parent, expiresAt, false)
  }

  function RefreshStep(s: State, ev: Event): State
    requires ev.Lock? || ev.Rotate?
  {
    var c := ev.client;
    match (ev, ClientOf(s, c))
    case (Lock(_, t, user, now, active), Idle) =>
      if t < |s.tokens| && Free(s, t) && IsUsable(s.tokens[t], user, now) && active then Move(s, c, Refreshing(t)) else s
    case (Rotate(_, expiresAt), Refreshing(t)) =>
      if t < |s.tokens| then
        var row := s.tokens[t];
        Move(s, c, Idle).(tokens := Revoke(s.tokens, t) + [Issued(row.user, row.lineage, Some(t), expiresAt)])
      else s
    case _ => s
  }

  function LogoutStep(s: State, ev: Event): State
    requires ev.Peek? || ev.Flush? || ev.Settle?
  {
    var c := ev.client;
    match (ev, ClientOf(s, c))
    case (Peek(_, t, user), Idle) =>
      if t < |s.tokens| && s.tokens[t].user == user && !s.tokens[t].revoked then Move(s, c, LogoutRead(t)) else s
    case (Flush(_), LogoutRead(t)) => if Free(s, t) then Move(s, c, LogoutFlushed(t)) else s
    case (Settle(_), LogoutFlushed(t)) => Move(s, c, Idle).(tokens := Revoke(s.tokens, t))
    case _ => s
  }

  function ResetStep(s: State, ev: Event): State
    requires ev.LockReset? || ev.Scan? || ev.Seize? || ev.Confirm?
  {
    var c := ev.client;
    match (ev, ClientOf(s, c))
    case (LockReset(_, r, now, active), Idle) =>
      if r < |s.resets| && ResetFree(s, r) && ResetUsable(s.resets[r], now) && active then Move(s, c, ResetLocked(r)) else s
    case (Scan(_), ResetLocked(r)) =>
      if r < |s.resets| then Move(s, c, Resetting(r, Unrevoked(s.tokens, s.resets[r].user), {}, |s.tokens|)) else s
    case (Seize(_, t), Resetting(r, found, locked, seen)) =>
      if t in found && Free(s, t) then Move(s, c, Resetting(r, found, locked + {t}, seen)) else s
    case (Confirm(_), Resetting(r, found, locked, seen)) =>
      if r < |s.resets| && locked == found then
        Move(s, c, Idle).(tokens := RevokeAll(s.tokens, found), resets := s.resets[r := s.resets[r].(used := true)])
      else s
    case _ => s
  }

  function Step(s: State, ev: Event): State {
    match ev
    case Login(user, expiresAt) => s.(tokens := s.tokens + [Issued(user, |s.tokens|, None, expiresAt)])
    case RequestReset(user, expiresAt) => s.(resets := s.resets + [ResetToken(user, expiresAt, false)])
    case Lock(_, _, _, _, _) | Rotate(_, _) => RefreshStep(s, ev)
    case Peek(_, _, _) | Flush(_) | Settle(_) => LogoutStep(s, ev)
    case LockReset(_, _, _, _) | Scan(_) | Seize(_, _) | Confirm(_) => ResetStep(s, ev)
    case Vanish(c) => Move(s, c, Idle)
  }

  function Run(s: State, events: seq<Event>): State {
    if events == [] then s else Step(Run(s, events[..|events| - 1]), events[|events| - 1])
  }

  // --- The invariant --------------------------------------------------------------------

  ghost predicate OneLivePerLineage(tokens: seq<Token>) {
    forall i, k :: 0 <= i < k < |tokens| && tokens[i].lineage == tokens[k].lineage ==>
      tokens[i].revoked || tokens[k].revoked
  }

  /** Parents are earlier revoked tokens of the same user and login, and no two tokens have the same parent. */
  ghost predicate ParentsFit(tokens: seq<Token>) {
    && (forall i :: 0 <= i < |tokens| && tokens[i].parent.Some? ==>
          var p := tokens[i].parent.value;
          p < i && tokens[p].revoked && tokens[p].user == tokens[i].user && tokens[p].lineage == tokens[i].lineage)
    && (forall i, k :: 0 <= i < k < |tokens| && tokens[i].parent.Some? ==> tokens[i].parent != tokens[k].parent)
    && (forall i :: 0 <= i < |tokens| ==> tokens[i].lineage <= i)
  }

  ghost predicate LocksFit(s: State) {
    && (forall c, d, t: nat :: c in s.clients && d in s.clients && Holds(s.clients[c], t) && Holds(s.clients[d], t) ==> c == d)
    && (forall c, d, r: nat :: c in s.clients && d in s.clients && HoldsReset(s.clients[c], r) && HoldsReset(s.clients[d], r) ==> c == d)
  }

  /** What a request knows about the rows it works on; locks keep it true. */
  ghost predicate ClientFits(s: State, client: Client) {
    match client
    case Refreshing(t) => t < |s.tokens| && !s.tokens[t].revoked
    case LogoutRead(t) => t < |s.tokens|
    case LogoutFlushed(t) => t < |s.tokens|
    case ResetLocked(r) => r < |s.resets| && !s.resets[r].used
    case Resetting(r, found, locked, seen) =>
      && r < |s.resets| && !s.resets[r].used && locked <= found && seen <= |s.tokens|
      && (forall i :: i in found ==> i < seen && s.tokens[i].user == s.resets[r].user)
      && (forall i :: 0 <= i < seen && s.tokens[i].user == s.resets[r].user && !s.tokens[i].revoked ==> i in found)
    case Idle => true
  }

  ghost predicate ClientsFit(s: State) { forall c :: c in s.clients ==> ClientFits(s, s.clients[c]) }

  ghost predicate Inv(s: State) {
    OneLivePerLineage(s.tokens) && ParentsFit(s.tokens) && LocksFit(s) && ClientsFit(s)
  }

  /** Rows only grow, keep who they belong to, and are never un-revoked or un-used. */
  ghost predicate Grows(s: State, t: State) {
    && |s.tokens| <= |t.tokens| && |s.resets| <= |t.resets|
    && (forall i :: 0 <= i < |s.tokens| ==>
          t.tokens[i] == s.tokens[i] || t.tokens[i] == s.tokens[i].(revoked := true))
    && (forall r :: 0 <= r < |s.resets| ==>
          t.resets[r] == s.resets[r] || t.resets[r] == s.resets[r].(used := true))
  }

  lemma {:induction false} RefreshGrows(s: State, ev: Event)
    requires ev.Lock? || ev.Rotate?
    ensures Grows(s, RefreshStep(s, ev))
  {
    hide Free, IsUsable;
  }

  lemma {:induction false} LogoutGrows(s: State, ev: Event)
    requires ev.Peek? || ev.Flush? || ev.Settle?
    ensures Grows(s, LogoutStep(s, ev))
  {
    hide Free;
  }

  lemma {:induction false} ResetGrows(s: State, ev: Event)
    requires ev.LockReset? || ev.Scan? || ev.Seize? || ev.Confirm?
    ensures Grows(s, ResetStep(s, ev))
  {
    hide Free, ResetFree, ResetUsable, Unrevoked;
  }

  lemma {:induction false} StepGrows(s: State, ev: Event)
    ensures Grows(s, Step(s, ev))
  {
    hide RefreshStep, LogoutStep, ResetStep;
    if ev.Lock? || ev.Rotate? {
      RefreshGrows(s, ev);
    } else if ev.Peek? || ev.Flush? || ev.Settle? {
      LogoutGrows(s, ev);
    } else if ev.LockReset? || ev.Scan? || ev.Seize? || ev.Confirm? {
      ResetGrows(s, ev);
    }
  }

  /** A revocation is never undone, whatever happens next. */
  lemma {:induction false} RevokedForever(s: State, events: seq<Event>)
    ensures Grows(s, Run(s, events))
  {
    if events != [] {
      var middle := Run(s, events[..|events| - 1]);
      RevokedForever(s, events[..|events| - 1]);
      StepGrows(middle, events[|events| - 1]);
    }
  }

  /** A client that did not move still fits after rows grew, if its locked rows were left alone. */
  lemma {:induction false} StillFits(s: State, t: State, client: Client)
    requires Grows(s, t) && ClientFits(s, client)
    requires client.Refreshing? ==> t.tokens[client.token] == s.tokens[client.token]
    requires client.ResetLocked? || client.Resetting? ==> t.resets[client.reset] == s.resets[client.reset]
    ensures ClientFits(t, client)
  {}

  /** When one client acts, the others still fit if the rows they have locked were left alone. */
  lemma {:induction false} OthersStillFit(s: State, t: State, c: nat)
    requires ClientsFit(s) && Grows(s, t) && OnlyMoves(s, t, c)
    requires forall d :: d in s.clients && d != c && s.clients[d].Refreshing? && s.clients[d].token < |s.tokens| ==>
               t.tokens[s.clients[d].token] == s.tokens[s.clients[d].token]
    requires forall d :: d in s.clients && d != c && (s.clients[d].ResetLocked? || s.clients[d].Resetting?)
                         && s.clients[d].reset < |s.resets| ==>
               t.resets[s.clients[d].reset] == s.resets[s.clients[d].reset]
    requires ClientFits(t, ClientOf(t, c))
    ensures ClientsFit(t)
  {
    forall d | d in t.clients
      ensures ClientFits(t, t.clients[d])
    {
      if d != c {
        assert ClientFits(s, s.clients[d]);
        StillFits(s, t, s.clients[d]);
      }
    }
  }

  ghost predicate OnlyMoves(s: State, t: State, c: nat) {
    && s.clients.Keys <= t.clients.Keys
    && (forall d :: d in t.clients && d != c ==> d in s.clients && t.clients[d] == s.clients[d])
  }

  // --- Locks are exclusive -----------------------------------------------------------------

  lemma {:induction false} LocksStayExclusive(s: State, t: State, c: nat)
    requires LocksFit(s) && OnlyMoves(s, t, c)
    requires forall k: nat :: Holds(ClientOf(t, c), k) ==> Holds(ClientOf(s, c), k) || Free(s, k)
    requires forall r: nat :: HoldsReset(ClientOf(t, c), r) ==> HoldsReset(ClientOf(s, c), r) || ResetFree(s, r)
    ensures LocksFit(t)
  {
    forall d, k: nat | d in t.clients && d != c && Holds(t.clients[d], k)
      ensures c in t.clients ==> !Holds(t.clients[c], k)
    {
      assert Holds(s.clients[d], k) && !Free(s, k);
    }
    forall d, r: nat | d in t.clients && d != c && HoldsReset(t.clients[d], r)
      ensures c in t.clients ==> !HoldsReset(t.clients[c], r)
    {
      assert HoldsReset(s.clients[d], r) && !ResetFree(s, r);
    }
  }

  lemma {:induction false} StepKeepsLocks(s: State, ev: Event)
    requires LocksFit(s)
    ensures LocksFit(Step(s, ev))
  {
    hide LocksFit, Revoke, RevokeAll, Unrevoked, IsUsable, ResetUsable, Free, ResetFree;
    if ev.Login? || ev.RequestReset? {
      SameClients(s, Step(s, ev));
    } else {
      LocksStayExclusive(s, Step(s, ev), ev.client);
    }
  }

  lemma {:induction false} SameClients(s: State, t: State)
    requires LocksFit(s) && t.clients == s.clients
    ensures LocksFit(t)
  {}

  lemma {:induction false} Exclusive(s: State, c: nat, k: nat)
    requires LocksFit(s) && c in s.clients && Holds(s.clients[c], k)
    ensures forall d :: d in s.clients && d != c && s.clients[d].Refreshing? ==> s.clients[d].token != k
  {
    forall d | d in s.clients && d != c && s.clients[d].Refreshing?
      ensures s.clients[d].token != k
    {
      assert Holds(s.clients[d], s.clients[d].token);
    }
  }

  lemma {:induction false} ResetExclusive(s: State, c: nat, r: nat)
    requires LocksFit(s) && c in s.clients && HoldsReset(s.clients[c], r)
    ensures forall d :: d in s.clients && d != c && (s.clients[d].ResetLocked? || s.clients[d].Resetting?) ==>
              s.clients[d].reset != r
  {
    forall d | d in s.clients && d != c && (s.clients[d].ResetLocked? || s.clients[d].Resetting?)
      ensures s.clients[d].reset != r
    {
      assert HoldsReset(s.clients[d], s.clients[d].reset);
    }
  }

  // --- Each step keeps the invariant ----------------------------------------------------------

  lemma {:induction false} RotateKeepsTokens(tokens: seq<Token>, t: nat, expiresAt: int)
    requires OneLivePerLineage(tokens) && ParentsFit(tokens) && t < |tokens| && !tokens[t].revoked
    ensures var after := Revoke(tokens, t) + [Issued(tokens[t].user, tokens[t].lineage, Some(t), expiresAt)];
      OneLivePerLineage(after) && ParentsFit(after)
  {
    var after := Revoke(tokens, t) + [Issued(tokens[t].user, tokens[t].lineage, Some(t), expiresAt)];
    forall i | 0 <= i < |tokens|
      ensures after[i] == tokens[i] || (i == t && after[i] == tokens[i].(revoked := true))
      ensures tokens[i].parent.Some? ==> tokens[i].parent.value != t
    {}
  }

  lemma {:induction false} RevokingKeepsTokens(tokens: seq<Token>, after: seq<Token>)
    requires OneLivePerLineage(tokens) && ParentsFit(tokens) && |after| == |tokens|
    requires forall i :: 0 <= i < |tokens| ==> after[i] == tokens[i] || after[i] == tokens[i].(revoked := true)
    ensures OneLivePerLineage(after) && ParentsFit(after)
  {}

  lemma {:induction false} StepKeepsTokens(s: State, ev: Event)
    requires OneLivePerLineage(s.tokens) && ParentsFit(s.tokens) && ClientsFit(s)
    ensures OneLivePerLineage(Step(s, ev).tokens) && ParentsFit(Step(s, ev).tokens)
  {
    if ev.Rotate? && ClientOf(s, ev.client).Refreshing? {
      hide OneLivePerLineage, ParentsFit;
      var t := ClientOf(s, ev.client).token;
      assert ClientFits(s, s.clients[ev.client]);
      RotateKeepsTokens(s.tokens, t, ev.expiresAt);
    } else if !ev.Login? {
      hide OneLivePerLineage, ParentsFit;
      RevokingKeepsTokens(s.tokens, Step(s, ev).tokens);
    }
  }

  lemma {:induction false} ActorFits(s: State, c: nat)
    requires ClientsFit(s)
    ensures ClientFits(s, ClientOf(s, c))
  {}

  lemma {:induction false} RefreshKeepsClients(s: State, ev: Event)
    requires ClientsFit(s) && LocksFit(s) && (ev.Lock? || ev.Rotate?)
    ensures ClientsFit(RefreshStep(s, ev))
  {
    hide LocksFit, ClientsFit;
    StepGrows(s, ev);
    ActorFits(s, ev.client);
    if ev.Rotate? && ClientOf(s, ev.client).Refreshing? {
      Exclusive(s, ev.client, ClientOf(s, ev.client).token);
    }
    OthersStillFit(s, RefreshStep(s, ev), ev.client);
  }

  lemma {:induction false} LogoutKeepsClients(s: State, ev: Event)
    requires ClientsFit(s) && LocksFit(s) && (ev.Peek? || ev.Flush? || ev.Settle?)
    ensures ClientsFit(LogoutStep(s, ev))
  {
    hide LocksFit, ClientsFit;
    StepGrows(s, ev);
    ActorFits(s, ev.client);
    if ev.Settle? && ClientOf(s, ev.client).LogoutFlushed? {
      Exclusive(s, ev.client, ClientOf(s, ev.client).token);
    }
    OthersStillFit(s, LogoutStep(s, ev), ev.client);
  }

  lemma {:induction false} ResetKeepsClients(s: State, ev: Event)
    requires ClientsFit(s) && LocksFit(s) && (ev.LockReset? || ev.Scan? || ev.Seize? || ev.Confirm?)
    ensures ClientsFit(ResetStep(s, ev))
  {
    hide LocksFit, ClientsFit;
    StepGrows(s, ev);
    ActorFits(s, ev.client);
    var client := ClientOf(s, ev.client);
    if ev.Confirm? && client.Resetting? && client.locked == client.found {
      ResetExclusive(s, ev.client, client.reset);
      forall k: nat | k in client.found
        ensures forall d :: d in s.clients && d != ev.client && s.clients[d].Refreshing? ==> s.clients[d].token != k
      {
        Exclusive(s, ev.client, k);
      }
    }
    OthersStillFit(s, ResetStep(s, ev), ev.client);
  }

  lemma {:induction false} StepKeepsClients(s: State, ev: Event)
    requires ClientsFit(s) && LocksFit(s)
    ensures ClientsFit(Step(s, ev))
  {
    hide RefreshStep, LogoutStep, ResetStep, LocksFit, ClientsFit;
    match ev
    case Lock(_, _, _, _, _) => RefreshKeepsClients(s, ev);
    case Rotate(_, _) => RefreshKeepsClients(s, ev);
    case Peek(_, _, _) => LogoutKeepsClients(s, ev);
    case Flush(_) => LogoutKeepsClients(s, ev);
    case Settle(_) => LogoutKeepsClients(s, ev);
    case LockReset(_, _, _, _) => ResetKeepsClients(s, ev);
    case Scan(_) => ResetKeepsClients(s, ev);
    case Seize(_, _) => ResetKeepsClients(s, ev);
    case Confirm(_) => ResetKeepsClients(s, ev);
    case Vanish(c) =>
      StepGrows(s, ev);
      OthersStillFit(s, Step(s, ev), c);
    case _ =>
      StepGrows(s, ev);
      ActorFits(s, 0);
      StillFits(s, Step(s, ev), ClientOf(s, 0));
      OthersStillFit(s, Step(s, ev), 0);
  }

  /** Every interleaving keeps the invariant. */
  lemma {:induction false} EveryRunKeepsInvariant(events: seq<Event>)
    ensures Inv(Run(Empty, events))
  {
    hide OneLivePerLineage, ParentsFit, LocksFit, ClientsFit, Step;
    if events == [] {
      EmptyFits();
    } else {
      var (s, ev) := (Run(Empty, events[..|events| - 1]), events[|events| - 1]);
      EveryRunKeepsInvariant(events[..|events| - 1]);
      StepKeepsTokens(s, ev);
      StepKeepsLocks(s, ev);
      StepKeepsClients(s, ev);
    }
  }

  lemma {:induction false} EmptyFits()
    ensures Inv(Empty)
  {}

  // --- What every run guarantees -----------------------------------------------------------

  /** In every run each login has at most one unrevoked token, and no token is replaced twice: every token that
      has a successor is revoked, belongs to the successor's user and login, and has no second successor. */
  lemma {:induction false} RotatedAtMostOnce(events: seq<Event>)
    ensures var tokens := Run(Empty, events).tokens;
      && OneLivePerLineage(tokens)
      && (forall i :: 0 <= i < |tokens| && tokens[i].parent.Some? ==>
            var p := tokens[i].parent.value;
            p < i && tokens[p].revoked && tokens[p].user == tokens[i].user && tokens[p].lineage == tokens[i].lineage)
      && (forall i, k :: 0 <= i < k < |tokens| && tokens[i].parent.Some? ==> tokens[i].parent != tokens[k].parent)
  {
    EveryRunKeepsInvariant(events);
  }

  /** A token that was replaced once is refused ever after: presenting it again changes nothing. */
  lemma {:induction false} ReplayIsRefused(before: seq<Event>, later: seq<Event>, c: nat, user: nat, now: int, active: bool, i: nat)
    requires i < |Run(Empty, before).tokens| && Run(Empty, before).tokens[i].parent.Some?
    requires var s := Run(Run(Empty, before), later); ClientOf(s, c) == Idle
    ensures var s := Run(Run(Empty, before), later);
      Step(s, Lock(c, Run(Empty, before).tokens[i].parent.value, user, now, active)) == s
  {
    EveryRunKeepsInvariant(before);
    RevokedForever(Run(Empty, before), later);
  }

  /** A confirmed password reset leaves every token the user had when it read them revoked, uses its reset token
      up, and touches no other row. */
  lemma {:induction false} ResetRevokesAllSeen(events: seq<Event>, c: nat)
    requires ClientOf(Run(Empty, events), c).Resetting?
    requires ClientOf(Run(Empty, events), c).locked == ClientOf(Run(Empty, events), c).found
    ensures var (s, after) := (Run(Empty, events), Step(Run(Empty, events), Confirm(c)));
      var client := ClientOf(s, c);
      && client.reset < |s.resets| && client.seen <= |s.tokens|
      && (forall i :: 0 <= i < client.seen && s.tokens[i].user == s.resets[client.reset].user ==> after.tokens[i].revoked)
      && (forall i :: 0 <= i < |s.tokens| && (i >= client.seen || s.tokens[i].user != s.resets[client.reset].user) ==>
            after.tokens[i] == s.tokens[i])
      && !s.resets[client.reset].used && after.resets == s.resets[client.reset := s.resets[client.reset].(used := true)]
  {
    EveryRunKeepsInvariant(events);
    assert ClientFits(Run(Empty, events), Run(Empty, events).clients[c]);
  }

  /** A confirmed reset ends every session of its user exactly when no token stored after it read the others is still
      live. */
  lemma {:induction false} ResetEndsEverySessionExactlyWhen(events: seq<Event>, c: nat)
    requires ClientOf(Run(Empty, events), c).Resetting?
    requires ClientOf(Run(Empty, events), c).locked == ClientOf(Run(Empty, events), c).found
    ensures var (s, after) := (Run(Empty, events), Step(Run(Empty, events), Confirm(c)));
      var client := ClientOf(s, c);
      && client.reset < |s.resets|
      && var user := s.resets[client.reset].user;
         Unrevoked(after.tokens, user) == {}
         <==> forall i :: client.seen <= i < |s.tokens| && s.tokens[i].user == user ==> s.tokens[i].revoked
  {
    hide Step, Run, Inv;
    ResetRevokesAllSeen(events, c);
    var s := Run(Empty, events);
    var (client, after) := (ClientOf(s, c), Step(s, Confirm(c)));
    var user := s.resets[client.reset].user;
    RevokedForever(s, [Confirm(c)]);
    OneStep(s, Confirm(c));
    SameTokenCount(s, c);
    forall i | client.seen <= i < |s.tokens| && s.tokens[i].user == user
      ensures i in Unrevoked(after.tokens, user) <==> !s.tokens[i].revoked
    {
      assert after.tokens[i] == s.tokens[i];
    }
    forall i | i in Unrevoked(after.tokens, user)
      ensures client.seen <= i < |s.tokens| && s.tokens[i].user == user && !s.tokens[i].revoked
    {
      assert s.tokens[i].user == user;
    }
  }

  lemma {:induction false} OneStep(s: State, ev: Event)
    ensures Run(s, [ev]) == Step(s, ev)
  {
    hide Step;
    assert [ev][..0] == [] && Run(s, []) == s;
  }

  lemma {:induction false} SameTokenCount(s: State, c: nat)
    ensures |Step(s, Confirm(c)).tokens| == |s.tokens|
  {}

  lemma {:induction false} ResetHasRead() returns (events: seq<Event>, s: State)
    ensures s == Run(Empty, events) && s.resets == [ResetToken(0, 10, false)] && s.tokens == [Token(0, 0, None, 10, false)]
    ensures s.clients == map[1 := Resetting(0, {0}, {}, 1)]
  {
    hide Run;
    events, s := [], Empty;
    NothingRun(Empty);
    events, s := Then(events, s, Login(0, 10));
    events, s := Then(events, s, RequestReset(0, 10));
    events, s := Then(events, s, LockReset(1, 0, 5, true));
    events, s := Then(events, s, Scan(1));
    assert Unrevoked([Token(0, 0, None, 10, false)], 0) == {0};
  }

  lemma {:induction false} RotatedMeanwhile() returns (events: seq<Event>, s: State)
    ensures s == Run(Empty, events) && s.resets == [ResetToken(0, 10, false)]
    ensures s.tokens == [Token(0, 0, None, 10, true), Token(0, 0, Some(0), 20, false)]
    ensures s.clients == map[1 := Resetting(0, {0}, {}, 1), 2 := Idle]
  {
    hide Run;
    events, s := ResetHasRead();
    events, s := Then(events, s, Lock(2, 0, 0, 5, true));
    events, s := Then(events, s, Rotate(2, 20));
  }

  /** A rotation between the reset's read and its update leaves a live successor behind. */
  lemma {:induction false} RotationDuringResetSurvives() returns (events: seq<Event>, s: State)
    ensures s == Run(Empty, events) && s.resets == [ResetToken(0, 10, true)]
    ensures s.tokens == [Token(0, 0, None, 10, true), Token(0, 0, Some(0), 20, false)]
  {
    hide Run;
    events, s := RotatedMeanwhile();
    events, s := Then(events, s, Seize(1, 0));
    events, s := Then(events, s, Confirm(1));
  }

  lemma {:induction false} NothingRun(s: State)
    ensures Run(s, []) == s
  {}

  lemma {:induction false} Then(events: seq<Event>, s: State, ev: Event) returns (longer: seq<Event>, next: State)
    requires s == Run(Empty, events)
    ensures longer == events + [ev] && next == Step(s, ev) && next == Run(Empty, longer)
  {
    longer, next := events + [ev], Step(s, ev);
    assert longer[..|events|] == events;
  }

  // --- Who was let in -----------------------------------------------------------------------------

  /** Some request locked reset token `r` no later than `expiresAt`, for an active user. */
  ghost predicate ResetAdmitted(events: seq<Event>, r: nat, expiresAt: int) {
    exists i :: 0 <= i < |events| && events[i].LockReset? && events[i].reset == r && events[i].now <= expiresAt && events[i].active
  }

  /** Some request of `user`, who was active, locked refresh token `t` no later than `expiresAt`. */
  ghost predicate RefreshAdmitted(events: seq<Event>, t: nat, user: nat, expiresAt: int) {
    exists i :: 0 <= i < |events| && events[i].Lock? && events[i].token == t && events[i].user == user
                && events[i].now <= expiresAt && events[i].active
  }

  ghost predicate Held(s: State, r: nat) { exists c :: c in s.clients && HoldsReset(s.clients[c], r) }

  ghost predicate BeingRotated(s: State, t: nat) { exists c :: c in s.clients && s.clients[c] == Refreshing(t) }

  /** A reset token that is held or used up was admitted, and so was a refresh token that is being or was rotated. */
  ghost predicate AllAdmitted(s: State, events: seq<Event>) {
    && (forall r: nat :: r < |s.resets| && (s.resets[r].used || Held(s, r)) ==> ResetAdmitted(events, r, s.resets[r].expiresAt))
    && (forall t: nat :: t < |s.tokens| && BeingRotated(s, t) ==> RefreshAdmitted(events, t, s.tokens[t].user, s.tokens[t].expiresAt))
    && (forall i :: 0 <= i < |s.tokens| && s.tokens[i].parent.Some? && s.tokens[i].parent.value < |s.tokens| ==>
          var t := s.tokens[i].parent.value;
          RefreshAdmitted(events, t, s.tokens[t].user, s.tokens[t].expiresAt))
  }

  lemma {:induction false} AdmittedLater(events: seq<Event>, ev: Event)
    ensures forall r, at :: ResetAdmitted(events, r, at) ==> ResetAdmitted(events + [ev], r, at)
    ensures forall t, user, at :: RefreshAdmitted(events, t, user, at) ==> RefreshAdmitted(events + [ev], t, user, at)
  {
    assert forall i :: 0 <= i < |events| ==> (events + [ev])[i] == events[i];
  }

  lemma {:induction false} AdmittedNow(events: seq<Event>, ev: Event)
    ensures forall r, at :: ev.LockReset? && ev.reset == r && ev.now <= at && ev.active ==> ResetAdmitted(events + [ev], r, at)
    ensures forall t, user, at :: ev.Lock? && ev.token == t && ev.user == user && ev.now <= at && ev.active ==>
              RefreshAdmitted(events + [ev], t, user, at)
  {
    assert (events + [ev])[|events|] == ev;
  }

  lemma {:induction false} BecomesHeld(s: State, ev: Event, r: nat)
    requires Held(Step(s, ev), r) && !Held(s, r)
    ensures ev.LockReset? && ev.reset == r && r < |s.resets| && ev.now <= s.resets[r].expiresAt && ev.active
  {
    hide Free, Unrevoked, IsUsable, Revoke, RevokeAll;
    var after := Step(s, ev);
    var d :| d in after.clients && HoldsReset(after.clients[d], r);
    assert !(d in s.clients && HoldsReset(s.clients[d], r));
  }

  lemma {:induction false} BecomesUsed(s: State, ev: Event, r: nat)
    requires r < |Step(s, ev).resets| && Step(s, ev).resets[r].used
    ensures r < |s.resets| && (s.resets[r].used || Held(s, r))
  {
    hide Free, Unrevoked, IsUsable, Revoke, RevokeAll;
    if ev.Confirm? && ClientOf(s, ev.client).Resetting? && ClientOf(s, ev.client).reset == r {
      assert HoldsReset(s.clients[ev.client], r);
    }
  }

  lemma {:induction false} BecomesRotated(s: State, ev: Event, t: nat)
    requires BeingRotated(Step(s, ev), t) && !BeingRotated(s, t)
    ensures ev.Lock? && ev.token == t && t < |s.tokens| && ev.user == s.tokens[t].user && ev.now <= s.tokens[t].expiresAt && ev.active
  {
    hide Free, Unrevoked, Revoke, RevokeAll;
    var after := Step(s, ev);
    var d :| d in after.clients && after.clients[d] == Refreshing(t);
    assert !(d in s.clients && s.clients[d] == Refreshing(t));
  }

  lemma {:induction false} NewTokensComeFromRotation(s: State, ev: Event, i: nat)
    requires |s.tokens| <= i < |Step(s, ev).tokens| && Step(s, ev).tokens[i].parent.Some?
    ensures Step(s, ev).tokens[i].parent.value < |s.tokens| && BeingRotated(s, Step(s, ev).tokens[i].parent.value)
  {
    hide Free, Unrevoked, IsUsable;
    assert s.clients[ev.client] == Refreshing(Step(s, ev).tokens[i].parent.value);
  }

  lemma {:induction false} StepKeepsAdmitted(s: State, events: seq<Event>, ev: Event)
    requires Inv(s) && AllAdmitted(s, events)
    ensures AllAdmitted(Step(s, ev), events + [ev])
  {
    hide Step, OneLivePerLineage, LocksFit, ResetAdmitted, RefreshAdmitted, Held, BeingRotated;
    var after := Step(s, ev);
    StepGrows(s, ev);
    AdmittedLater(events, ev);
    AdmittedNow(events, ev);
    forall r: nat | r < |after.resets| && (after.resets[r].used || Held(after, r))
      ensures ResetAdmitted(events + [ev], r, after.resets[r].expiresAt)
    {
      if after.resets[r].used {
        BecomesUsed(s, ev, r);
      } else if Held(s, r) {
        HeldExists(s, r);
      } else {
        BecomesHeld(s, ev, r);
      }
    }
    forall t: nat | t < |after.tokens| && BeingRotated(after, t)
      ensures RefreshAdmitted(events + [ev], t, after.tokens[t].user, after.tokens[t].expiresAt)
    {
      if BeingRotated(s, t) {
        RotatedExists(s, t);
      } else {
        BecomesRotated(s, ev, t);
      }
    }
    forall i | 0 <= i < |after.tokens| && after.tokens[i].parent.Some? && after.tokens[i].parent.value < |after.tokens|
      ensures var t := after.tokens[i].parent.value;
        RefreshAdmitted(events + [ev], t, after.tokens[t].user, after.tokens[t].expiresAt)
    {
      if i >= |s.tokens| {
        NewTokensComeFromRotation(s, ev, i);
      }
    }
  }

  lemma {:induction false} HeldExists(s: State, r: nat)
    requires Inv(s) && Held(s, r)
    ensures r < |s.resets|
  {
    var c :| c in s.clients && HoldsReset(s.clients[c], r);
    assert ClientFits(s, s.clients[c]);
  }

  lemma {:induction false} RotatedExists(s: State, t: nat)
    requires Inv(s) && BeingRotated(s, t)
    ensures t < |s.tokens|
  {
    var c :| c in s.clients && s.clients[c] == Refreshing(t);
    assert ClientFits(s, s.clients[c]);
  }

  lemma {:induction false} EveryRunAdmits(events: seq<Event>)
    ensures AllAdmitted(Run(Empty, events), events)
  {
    hide Step, Inv, ResetAdmitted, RefreshAdmitted;
    if events != [] {
      var (init, last) := (events[..|events| - 1], events[|events| - 1]);
      EveryRunKeepsInvariant(init);
      EveryRunAdmits(init);
      StepKeepsAdmitted(Run(Empty, init), init, last);
      assert init + [last] == events;
    }
  }

  /** In every run a reset token that is held or used up was locked before it expired, for an active user. */
  lemma {:induction false} ExpiredResetsAreNeverUsed(events: seq<Event>, r: nat)
    requires r < |Run(Empty, events).resets|
    requires Run(Empty, events).resets[r].used
             || exists c :: c in Run(Empty, events).clients && HoldsReset(Run(Empty, events).clients[c], r)
    ensures exists i :: 0 <= i < |events| && events[i].LockReset? && events[i].reset == r
                        && events[i].now <= Run(Empty, events).resets[r].expiresAt && events[i].active
  {
    hide Run;
    EveryRunAdmits(events);
  }

  /** In every run a refresh token that has a successor was presented by its own active user before it expired. */
  lemma {:induction false} ExpiredTokensAreNeverRotated(events: seq<Event>, i: nat)
    requires i < |Run(Empty, events).tokens| && Run(Empty, events).tokens[i].parent.Some?
    ensures var (s, p) := (Run(Empty, events), Run(Empty, events).tokens[i].parent.value);
      p < |s.tokens|
      && exists k :: 0 <= k < |events| && events[k].Lock? && events[k].token == p && events[k].user == s.tokens[p].user
                     && events[k].now <= s.tokens[p].expiresAt && events[k].active
  {
    hide Run;
    EveryRunKeepsInvariant(events);
    EveryRunAdmits(events);
  }
}
