/**
 Enrolment tokens over whole runs: registrations and remaining uses add up, and a token
 that was revoked or has expired admits nobody.
 */
module Tokens {
  import opened Base
  import opened Model
  import opened Handlers
  import opened ControlState
  import opened Addresses
  import opened Runs

  function InitialUses(a: Action): (n: nat) {
    match a
    case CreateToken(_, _, uses, _, _, _) => uses
    case CreateNetwork(_, _, _, _, _, _, bootstrap, _, _) => if bootstrap.Some? then bootstrap.value.uses else 0
    case _ => 0
  }

  function Expiry(a: Action): (t: int) {
    match a
    case CreateToken(_, ttl, _, _, _, now) => now + ttl
    case CreateNetwork(_, _, _, _, _, _, bootstrap, _, now) => now + if bootstrap.Some? then bootstrap.value.ttl else 0
    case _ => 0
  }

  predicate RegistersWith(a: Action, t: string) {
    a.Register? && a.token == t
  }

  // ---------------------------------------------------------------- one step

  /** A token is spent by one use and is gone with the last. */
  ghost predicate Spent(tokens: map<string, Token>, a: Action, tokens': map<string, Token>)
    requires a.Register?
  {
    && a.token in tokens
    && tokens[a.token].usesLeft >= 1 && tokens[a.token].revokedAt == None && a.now < tokens[a.token].expiresAt
    && tokens' == if tokens[a.token].usesLeft == 1 then tokens - {a.token}
                  else tokens[a.token := tokens[a.token].(usesLeft := tokens[a.token].usesLeft - 1)]
  }

  /** Tokens keep everything but a revocation mark; new ones are as the action that draws them says. */
  ghost predicate Kept(tokens: map<string, Token>, a: Action, tokens': map<string, Token>) {
    forall t <- tokens' ::
      if t in tokens then
        && tokens'[t].(revokedAt := None) == tokens[t].(revokedAt := None)
        && (tokens[t].revokedAt.Some? ==> tokens'[t].revokedAt.Some?)
      else
        && DrawnToken(a) == Some(t)
        && tokens'[t].usesLeft == InitialUses(a) && tokens'[t].usesLeft >= 1
        && tokens'[t].expiresAt == Expiry(a)
  }

  lemma RegisterSpends(s: State, a: Action)
    requires a.Register?
    ensures var o := DoRegister(s, a);
            if o.result.Ok? then Spent(s.tokens, a, o.state.tokens) else o.state.tokens == s.tokens
  {
    if RegisterRefusal(s, a) == None {
      TokenAdmits(s, a);
      EnrollKeys(s, s.tokens[a.token].networkId, RegisterDraft(s, a));
    }
  }

  lemma TokenAdmits(s: State, a: Action)
    requires a.Register? && RegisterRefusal(s, a) == None
    ensures Spent(s.tokens, a, SpendToken(s.tokens, a.token))
  {
  }

  lemma IssueKeeps(s: State, a: Action)
    requires a.CreateToken? && a.secret !in s.tokens
    ensures Kept(s.tokens, a, DoCreateToken(s, a).state.tokens)
  {
  }

  lemma BootstrapKeeps(s: State, a: Action)
    requires a.CreateNetwork? && a.secret !in s.tokens
    ensures Kept(s.tokens, a, DoCreateNetwork(s, a).state.tokens)
  {
  }

  lemma RemoveKeeps(s: State, a: Action)
    requires a.RevokeToken? || a.DeleteNetwork?
    ensures Kept(s.tokens, a, Handle(s, a).state.tokens)
  {
  }

  lemma OthersKeepTokens(s: State, a: Action)
    requires a.RegisterUrl? || a.UpdateAcl? || a.UpdateKeyPolicy? || a.DeleteNode?
    ensures Handle(s, a).state.tokens == s.tokens
  {
    if a.RegisterUrl? && RegisterUrlRefusal(s, a) == None {
      EnrollKeys(s, a.networkId, RegisterUrlDraft(a));
    }
  }

  lemma HandleTokens(s: State, a: Action)
    requires Unused(s, a)
    ensures var o := Handle(s, a);
            if a.Register? && o.result.Ok? then Spent(s.tokens, a, o.state.tokens)
            else Kept(s.tokens, a, o.state.tokens)
  {
    if ChangesNode(a) {
      NodeActionShape(s, a);
    } else if a.Register? {
      RegisterSpends(s, a);
    } else if a.CreateToken? {
      IssueKeeps(s, a);
    } else if a.CreateNetwork? {
      BootstrapKeeps(s, a);
    } else if a.RevokeToken? || a.DeleteNetwork? {
      RemoveKeeps(s, a);
    } else {
      OthersKeepTokens(s, a);
    }
  }

  // ---------------------------------------------------------------- traces

  /** What a run does to the tokens, step by step; `ok` says which actions succeeded. */
  ghost predicate Trace(tokens: seq<map<string, Token>>, actions: seq<Action>, ok: seq<bool>) {
    && |tokens| == |actions| + 1 && |ok| == |actions|
    && tokens[0] == map[]
    && (forall i | 0 <= i < |actions| :: TokenStep(tokens[i], actions[i], ok[i], tokens[i + 1]))
    && (forall i, j | 0 <= i < j < |actions| :: DrawApart(actions[i], actions[j]))
  }

  ghost predicate TokenStep(tokens: map<string, Token>, a: Action, ok: bool, tokens': map<string, Token>) {
    && (if a.Register? && ok then Spent(tokens, a, tokens') else Kept(tokens, a, tokens'))
    && (a.RevokeToken? && ok ==> a.token in tokens && a.token in tokens' && tokens'[a.token].revokedAt.Some?)
  }

  function TokensOf(states: seq<State>): (r: seq<map<string, Token>>) {
    seq(|states|, i requires 0 <= i < |states| => states[i].tokens)
  }

  lemma RevokeMarks(s: State, a: Action)
    requires a.RevokeToken? && Handle(s, a).result.Ok?
    ensures a.token in s.tokens && a.token in Handle(s, a).state.tokens
    ensures Handle(s, a).state.tokens[a.token].revokedAt.Some?
  {
  }

  lemma WriteTokens(b: Backend, s: State, a: Action)
    requires Unused(s, a)
    ensures TokenStep(s.tokens, a, Handle(s, a).result.Ok?, Write(b, s, a).tokens)
  {
    HandleTokens(s, a);
    if a.RevokeToken? && Handle(s, a).result.Ok? {
      RevokeMarks(s, a);
    }
  }

  /** Every run, under either store, is such a trace. */
  lemma RunTraces(b: Backend, states: seq<State>, actions: seq<Action>)
    requires Run(b, states, actions)
    ensures Trace(TokensOf(states), actions, Outcomes(states, actions))
  {
    forall i | 0 <= i < |actions|
      ensures TokenStep(TokensOf(states)[i], actions[i], Outcomes(states, actions)[i], TokensOf(states)[i + 1])
    {
      DrawsAreUnused(b, states, actions, i);
      WriteTokens(b, states[i], actions[i]);
      assert Follows(b, states, actions, i);
    }
  }

  // ---------------------------------------------------------------- conservation

  /** Successful registrations with `t` in the first `n` steps. */
  function Registrations(actions: seq<Action>, ok: seq<bool>, t: string, n: nat): (count: nat)
    requires |ok| == |actions| && n <= |actions|
  {
    if n == 0 then 0 else
    Registrations(actions, ok, t, n - 1) + (if RegistersWith(actions[n - 1], t) && ok[n - 1] then 1 else 0)
  }

  /** A stored token was drawn at some earlier step. */
  lemma {:induction false} Issued(tokens: seq<map<string, Token>>, actions: seq<Action>, ok: seq<bool>, n: nat,
                                  t: string)
    returns (j: nat)
    requires Trace(tokens, actions, ok) && n <= |actions| && t in tokens[n]
    ensures j < n && DrawnToken(actions[j]) == Some(t)
  {
    assert TokenStep(tokens[n - 1], actions[n - 1], ok[n - 1], tokens[n]);
    if t in tokens[n - 1] {
      j := Issued(tokens, actions, ok, n - 1, t);
    } else {
      j := n - 1;
    }
  }

  lemma {:induction false} NoneBefore(tokens: seq<map<string, Token>>, actions: seq<Action>, ok: seq<bool>, n: nat,
                                      j: nat, t: string)
    requires Trace(tokens, actions, ok) && n <= j < |actions| && DrawnToken(actions[j]) == Some(t)
    ensures t !in tokens[n] && Registrations(actions, ok, t, n) == 0
  {
    if t in tokens[n] {
      var i := Issued(tokens, actions, ok, n, t);
      assert false;
    }
    if n > 0 {
      NoneBefore(tokens, actions, ok, n - 1, j, t);
      assert TokenStep(tokens[n - 1], actions[n - 1], ok[n - 1], tokens[n]);
    }
  }

  /** A token does not come back. */
  lemma GoneForGood(tokens: seq<map<string, Token>>, actions: seq<Action>, ok: seq<bool>, n: nat, j: nat, t: string)
    requires Trace(tokens, actions, ok) && j < n < |actions| && DrawnToken(actions[j]) == Some(t)
    requires t !in tokens[n]
    ensures t !in tokens[n + 1]
  {
    assert TokenStep(tokens[n], actions[n], ok[n], tokens[n + 1]);
    assert DrawApart(actions[j], actions[n]);
  }

  /**
   Conservation: while a token is stored, the registrations it admitted and the uses it has
   left add up to the uses it was issued with, at least one of them left; the total never
   exceeds that number, also after the token is gone.
   */
  lemma {:induction false} TokenConserved(tokens: seq<map<string, Token>>, actions: seq<Action>, ok: seq<bool>, n: nat,
                                          j: nat, t: string)
    requires Trace(tokens, actions, ok) && j < n <= |actions| && DrawnToken(actions[j]) == Some(t)
    ensures Registrations(actions, ok, t, n) <= InitialUses(actions[j])
    ensures t in tokens[n] ==>
              && tokens[n][t].usesLeft >= 1
              && Registrations(actions, ok, t, n) + tokens[n][t].usesLeft == InitialUses(actions[j])
              && tokens[n][t].expiresAt == Expiry(actions[j])
  {
    assert TokenStep(tokens[n - 1], actions[n - 1], ok[n - 1], tokens[n]);
    if n == j + 1 {
      NoneBefore(tokens, actions, ok, j, j, t);
    } else {
      TokenConserved(tokens, actions, ok, n - 1, j, t);
      if t !in tokens[n - 1] {
        GoneForGood(tokens, actions, ok, n - 1, j, t);
      }
    }
  }

  /** A registration that succeeds uses a stored token before the expiry fixed when it was issued. */
  lemma RegistrationBeforeExpiry(tokens: seq<map<string, Token>>, actions: seq<Action>, ok: seq<bool>, k: nat)
    returns (j: nat)
    requires Trace(tokens, actions, ok) && k < |actions| && actions[k].Register? && ok[k]
    ensures j < k && DrawnToken(actions[j]) == Some(actions[k].token) && actions[k].now < Expiry(actions[j])
  {
    assert TokenStep(tokens[k], actions[k], ok[k], tokens[k + 1]);
    j := Issued(tokens, actions, ok, k, actions[k].token);
    TokenConserved(tokens, actions, ok, k, j, actions[k].token);
  }

  lemma {:induction false} RevokedStays(tokens: seq<map<string, Token>>, actions: seq<Action>, ok: seq<bool>, i: nat,
                                        n: nat)
    requires Trace(tokens, actions, ok) && i < n <= |actions| && actions[i].RevokeToken? && ok[i]
    ensures actions[i].token in tokens[n] ==> tokens[n][actions[i].token].revokedAt.Some?
  {
    var t := actions[i].token;
    assert TokenStep(tokens[i], actions[i], ok[i], tokens[i + 1]);
    if n > i + 1 {
      RevokedStays(tokens, actions, ok, i, n - 1);
      assert TokenStep(tokens[n - 1], actions[n - 1], ok[n - 1], tokens[n]);
      if t !in tokens[n - 1] {
        var j := Issued(tokens, actions, ok, i, t);
        GoneForGood(tokens, actions, ok, n - 1, j, t);
      }
    }
  }

  /** Once a token was revoked, no registration with it succeeds. */
  lemma RevokedAdmitsNobody(tokens: seq<map<string, Token>>, actions: seq<Action>, ok: seq<bool>, i: nat, k: nat)
    requires Trace(tokens, actions, ok) && i < k < |actions| && actions[i].RevokeToken? && ok[i]
    requires RegistersWith(actions[k], actions[i].token)
    ensures !ok[k]
  {
    RevokedStays(tokens, actions, ok, i, k);
    assert TokenStep(tokens[k], actions[k], ok[k], tokens[k + 1]);
  }

  /** The three facts for runs of the control plane under either store. */
  lemma EnrollmentTokens(b: Backend, states: seq<State>, actions: seq<Action>, n: nat, j: nat, t: string)
    requires Run(b, states, actions) && j < n <= |actions| && DrawnToken(actions[j]) == Some(t)
    ensures var admitted := Registrations(actions, Outcomes(states, actions), t, n);
            && admitted <= InitialUses(actions[j])
            && (t in states[n].tokens ==>
                  && states[n].tokens[t].usesLeft >= 1
                  && admitted + states[n].tokens[t].usesLeft == InitialUses(actions[j]))
            && (n < |actions| && RegistersWith(actions[n], t) && Succeeds(states, actions, n) ==>
                  && actions[n].now < Expiry(actions[j])
                  && forall i | 0 <= i < n && actions[i].RevokeToken? && actions[i].token == t ::
                       !Succeeds(states, actions, i))
  {
    RunTraces(b, states, actions);
    var tokens, ok := TokensOf(states), Outcomes(states, actions);
    TokenConserved(tokens, actions, ok, n, j, t);
    if n < |actions| && RegistersWith(actions[n], t) && ok[n] {
      UniqueIssue(tokens, actions, ok, n, j);
      forall i | 0 <= i < n && actions[i].RevokeToken? && actions[i].token == t
        ensures !ok[i]
      {
        if ok[i] {
          RevokedAdmitsNobody(tokens, actions, ok, i, n);
        }
      }
    }
  }

  lemma UniqueIssue(tokens: seq<map<string, Token>>, actions: seq<Action>, ok: seq<bool>, k: nat, j: nat)
    requires Trace(tokens, actions, ok) && j < k < |actions| && actions[k].Register? && ok[k]
    requires DrawnToken(actions[j]) == Some(actions[k].token)
    ensures actions[k].now < Expiry(actions[j])
  {
    var i := RegistrationBeforeExpiry(tokens, actions, ok, k);
    assert i < j ==> DrawApart(actions[i], actions[j]);
    assert j < i ==> DrawApart(actions[j], actions[i]);
  }
}
