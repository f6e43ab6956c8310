/** The token operations of one uninterrupted request, on the stored rows, proved against the steps of the
    interleaved protocol. */
module Auth {
  import opened Domain
  import opened Tokens

  function Alone(tokens: seq<Token>, resets: seq<ResetToken>): State { State(tokens, resets, map[]) }

  /** The rows a run leaves behind. */
  predicate Leaves(s: State, events: seq<Event>, tokens: seq<Token>, resets: seq<ResetToken>) {
    Run(s, events).tokens == tokens && Run(s, events).resets == resets
  }

  lemma {:induction false} RunLast(s: State, events: seq<Event>, ev: Event)
    ensures Run(s, events + [ev]) == Step(Run(s, events), ev)
  {
    hide Step;
    assert (events + [ev])[..|events + [ev]| - 1] == events;
  }

  lemma {:induction false} RunTwo(s: State, first: Event, second: Event)
    ensures Run(s, [first, second]) == Step(Step(s, first), second)
  {
    hide Step;
    assert [first] == [] + [first] && [first, second] == [first] + [second];
    RunLast(s, [], first);
    RunLast(s, [first], second);
  }

  lemma {:induction false} RunConcat(s: State, first: seq<Event>, second: seq<Event>)
    ensures Run(s, first + second) == Run(Run(s, first), second)
  {
    hide Step;
    if second == [] {
      assert first + second == first;
    } else {
      assert (first + second)[..|first + second| - 1] == first + second[..|second| - 1];
      RunConcat(s, first, second[..|second| - 1]);
    }
  }

  function Seizes(order: seq<nat>): seq<Event> {
    if order == [] then [] else Seizes(order[..|order| - 1]) + [Seize(0, order[|order| - 1])]
  }

  function Elements(order: seq<nat>): set<nat> { set t | t in order }

  /** A reset on its own, with `locked` of the tokens it found already updated. */
  function Halfway(tokens: seq<Token>, resets: seq<ResetToken>, r: nat, found: set<nat>, locked: set<nat>): State {
    State(tokens, resets, map[0 := Resetting(r, found, locked, |tokens|)])
  }

  lemma {:induction false} SeizeOne(tokens: seq<Token>, resets: seq<ResetToken>, r: nat, found: set<nat>, locked: set<nat>, t: nat)
    requires t in found
    ensures Step(Halfway(tokens, resets, r, found, locked), Seize(0, t)) == Halfway(tokens, resets, r, found, locked + {t})
  {
    hide RefreshStep, LogoutStep;
    var s := Halfway(tokens, resets, r, found, locked);
    assert s.clients[0] == Resetting(r, found, locked, |tokens|);
    if t in locked {
      assert locked + {t} == locked && !Free(s, t);
    } else {
      assert Free(s, t);
    }
    assert Step(s, Seize(0, t)).clients == Halfway(tokens, resets, r, found, locked + {t}).clients;
  }

  lemma {:induction false} SeizeInOrder(tokens: seq<Token>, resets: seq<ResetToken>, r: nat, found: set<nat>, order: seq<nat>)
    requires forall t :: t in order ==> t in found
    ensures Run(Halfway(tokens, resets, r, found, {}), Seizes(order))
            == Halfway(tokens, resets, r, found, Elements(order))
  {
    hide Step, Halfway;
    if order == [] {
      assert Elements(order) == {};
    } else {
      var (init, t) := (order[..|order| - 1], order[|order| - 1]);
      SeizeInOrder(tokens, resets, r, found, init);
      SeizeOne(tokens, resets, r, found, Elements(init), t);
      RunLast(Halfway(tokens, resets, r, found, {}), Seizes(init), Seize(0, t));
      assert order == init + [t];
      assert Elements(order) == Elements(init) + {t};
    }
  }

  class AuthService {
    var tokens: seq<Token>
    var resets: seq<ResetToken>

    constructor ()
      ensures tokens == [] && resets == []
    {
      tokens, resets := [], [];
    }

    function Rows(): State
      reads this
    {
      Alone(tokens, resets)
    }

    method IssueTokenPair(user: nat, lineage: nat, parent: Option<nat>, expiresAt: int)
      modifies `tokens
      ensures tokens == old(tokens) + [Token(user, lineage, parent, expiresAt, false)]
    {
      tokens := tokens + [Token(user, lineage, parent, expiresAt, false)];
    }

    method Login(user: nat, expiresAt: int)
      modifies `tokens
      ensures Rows() == Step(old(Rows()), Tokens.Login(user, expiresAt))
      ensures tokens == old(tokens) + [Token(user, |old(tokens)|, None, expiresAt, false)]
    {
      IssueTokenPair(user, |tokens|, None, expiresAt);
    }

    /** `stored` is the row found under the hash of the presented token. */
    method Refresh(stored: Option<nat>, user: nat, now: int, active: bool, expiresAt: int) returns (ok: bool)
      requires stored.Some? ==> stored.value < |tokens|
      modifies `tokens
      ensures ok <==> stored.Some? && !old(tokens)[stored.value].revoked && old(tokens)[stored.value].user == user
                      && now <= old(tokens)[stored.value].expiresAt && active
      ensures ok ==> var t := stored.value;
                tokens == old(tokens)[t := old(tokens)[t].(revoked := true)]
                          + [Token(user, old(tokens)[t].lineage, Some(t), expiresAt, false)]
      ensures stored.Some? ==>
        Leaves(old(Rows()), [Lock(0, stored.value, user, now, active), Rotate(0, expiresAt)], tokens, resets)
      ensures !ok ==> tokens == old(tokens)
    {
      if stored.Some? {
        RunTwo(Rows(), Lock(0, stored.value, user, now, active), Rotate(0, expiresAt));
      }
      if stored.None? || tokens[stored.value].revoked || tokens[stored.value].user != user
         || tokens[stored.value].expiresAt < now {
        return false;
      }
      if !active {
        return false;
      }
      var t := stored.value;
      tokens := tokens[t := tokens[t].(revoked := true)];
      IssueTokenPair(tokens[t].user, tokens[t].lineage, Some(t), expiresAt);
      return true;
    }

    method Logout(stored: Option<nat>, user: nat)
      requires stored.Some? ==> stored.value < |tokens|
      modifies `tokens
      ensures tokens == if stored.Some? && old(tokens)[stored.value].user == user
                        then old(tokens)[stored.value := old(tokens)[stored.value].(revoked := true)] else old(tokens)
      ensures stored.Some? ==>
        Leaves(old(Rows()), [Peek(0, stored.value, user), Flush(0)] + [Settle(0)], tokens, resets)
    {
      if stored.Some? {
        RunTwo(Rows(), Peek(0, stored.value, user), Flush(0));
        RunLast(Rows(), [Peek(0, stored.value, user), Flush(0)], Settle(0));
        if tokens[stored.value].user == user && !tokens[stored.value].revoked {
          tokens := tokens[stored.value := tokens[stored.value].(revoked := true)];
        }
      }
    }

    method RevokeAllRefreshTokens(user: nat)
      modifies `tokens
      ensures tokens == RevokeAll(old(tokens), Unrevoked(old(tokens), user))
      ensures forall i :: 0 <= i < |tokens| ==>
                tokens[i] == if old(tokens)[i].user == user then old(tokens)[i].(revoked := true) else old(tokens)[i]
    {
      for i := 0 to |tokens|
        invariant |tokens| == |old(tokens)|
        invariant forall k :: 0 <= k < i ==> tokens[k] == RevokeAll(old(tokens), Unrevoked(old(tokens), user))[k]
        invariant forall k :: i <= k < |tokens| ==> tokens[k] == old(tokens)[k]
      {
        if tokens[i].user == user && !tokens[i].revoked {
          tokens := tokens[i := tokens[i].(revoked := true)];
        }
      }
    }

    /** However the rows are locked one after the other, an undisturbed reset leaves what this method leaves. */
    method ConfirmPasswordReset(stored: Option<nat>, now: int, active: bool, ghost order: seq<nat>) returns (ok: bool)
      requires stored.Some? ==> stored.value < |resets|
      requires stored.Some? ==> forall t :: t in order <==> t in Unrevoked(tokens, resets[stored.value].user)
      modifies this
      ensures ok <==> stored.Some? && !old(resets)[stored.value].used && now <= old(resets)[stored.value].expiresAt && active
      ensures ok ==> var r := stored.value;
                && resets == old(resets)[r := old(resets)[r].(used := true)] && |tokens| == |old(tokens)|
                && forall i :: 0 <= i < |tokens| ==>
                     tokens[i] == if old(tokens)[i].user == old(resets)[r].user then old(tokens)[i].(revoked := true) else old(tokens)[i]
      ensures stored.Some? ==>
        Leaves(old(Rows()), [LockReset(0, stored.value, now, active), Scan(0)] + Seizes(order) + [Confirm(0)], tokens, resets)
      ensures !ok ==> tokens == old(tokens) && resets == old(resets)
    {
      if stored.None? {
        return false;
      }
      var r := stored.value;
      ResetAlone(tokens, resets, r, now, active, order);
      if resets[r].used || resets[r].expiresAt < now {
        return false;
      }
      if !active {
        return false;
      }
      resets := resets[r := resets[r].(used := true)];
      RevokeAllRefreshTokens(resets[r].user);
      return true;
    }
  }

  lemma {:induction false} ResetAlone(tokens: seq<Token>, resets: seq<ResetToken>, r: nat, now: int, active: bool, order: seq<nat>)
    requires r < |resets| && forall t :: t in order <==> t in Unrevoked(tokens, resets[r].user)
    ensures var events := [LockReset(0, r, now, active), Scan(0)] + Seizes(order) + [Confirm(0)];
      if ResetUsable(resets[r], now) && active
      then Leaves(Alone(tokens, resets), events, RevokeAll(tokens, Unrevoked(tokens, resets[r].user)),
                  resets[r := resets[r].(used := true)])
      else Leaves(Alone(tokens, resets), events, tokens, resets)
  {
    hide Step;
    var s := Alone(tokens, resets);
    var found := Unrevoked(tokens, resets[r].user);
    var open := [LockReset(0, r, now, active), Scan(0)];
    RunLast(s, open + Seizes(order), Confirm(0));
    RunConcat(s, open, Seizes(order));
    RunTwo(s, LockReset(0, r, now, active), Scan(0));
    Opening(tokens, resets, r, now, active);
    if ResetUsable(resets[r], now) && active {
      SeizeInOrder(tokens, resets, r, found, order);
      assert Elements(order) == found;
    } else {
      NothingSeized(s, order);
    }
    Closing(tokens, resets, r, found);
  }

  lemma {:induction false} Opening(tokens: seq<Token>, resets: seq<ResetToken>, r: nat, now: int, active: bool)
    requires r < |resets|
    ensures Step(Step(Alone(tokens, resets), LockReset(0, r, now, active)), Scan(0))
            == if ResetUsable(resets[r], now) && active
               then Halfway(tokens, resets, r, Unrevoked(tokens, resets[r].user), {}) else Alone(tokens, resets)
  {
    hide RefreshStep, LogoutStep, Unrevoked;
  }

  lemma {:induction false} Closing(tokens: seq<Token>, resets: seq<ResetToken>, r: nat, found: set<nat>)
    requires r < |resets|
    ensures Step(Halfway(tokens, resets, r, found, found), Confirm(0)).tokens == RevokeAll(tokens, found)
    ensures Step(Halfway(tokens, resets, r, found, found), Confirm(0)).resets == resets[r := resets[r].(used := true)]
    ensures Step(Alone(tokens, resets), Confirm(0)) == Alone(tokens, resets)
  {
    hide RefreshStep, LogoutStep, RevokeAll;
  }

  lemma {:induction false} NothingSeized(s: State, order: seq<nat>)
    requires s.clients == map[]
    ensures Run(s, Seizes(order)) == s
  {
    hide RefreshStep, LogoutStep;
    if order != [] {
      NothingSeized(s, order[..|order| - 1]);
      assert Seizes(order)[..|Seizes(order)| - 1] == Seizes(order[..|order| - 1]);
    }
  }
}
