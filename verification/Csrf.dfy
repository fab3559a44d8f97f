/** The one-time form tokens of internal/authserver/authorize.go. */
module CsrfTokens {
  import opened Common

  const EXPIRY := 600_000_000_000  // ten minutes in nanoseconds

  datatype Use = Generate(token: string, at: int) | Validate(token: string, at: int)

  predicate Chronological(uses: seq<Use>) {
    forall i, j :: 0 <= i < j < |uses| ==> uses[i].at <= uses[j].at
  }

  /** The last use of a token before position i. */
  function LastUse(uses: seq<Use>, token: string): Option<Use> {
    if uses == [] then None
    else if uses[|uses| - 1].token == token then Some(uses[|uses| - 1])
    else LastUse(uses[..|uses| - 1], token)
  }

  /** A token is good if it was generated, not used since, and is not ten minutes old. */
  predicate Good(uses: seq<Use>, token: string, now: int) {
    var u := LastUse(uses, token);
    token != "" && u.Some? && u.value.Generate? && now < u.value.at + EXPIRY
  }

  /** The table knows exactly the unused tokens, except that it may have dropped dead ones. */
  ghost predicate Knows(expiries: map<string, int>, uses: seq<Use>, now: int) {
    forall token ::
      var u := LastUse(uses, token);
      var waiting := u.Some? && u.value.Generate?;
      && (token in expiries ==> waiting && expiries[token] == u.value.at + EXPIRY)
      && (waiting && token !in expiries ==> now > u.value.at + EXPIRY)
  }

  predicate NoEmptyTokens(uses: seq<Use>) {
    forall i :: 0 <= i < |uses| && uses[i].Generate? ==> uses[i].token != ""
  }

  lemma {:induction false} NeverGenerated(uses: seq<Use>, token: string)
    requires forall i :: 0 <= i < |uses| && uses[i].Generate? ==> uses[i].token != token
    ensures LastUse(uses, token).Some? ==> LastUse(uses, token).value.Validate?
  {
    if uses != [] && uses[|uses| - 1].token != token {
      NeverGenerated(uses[..|uses| - 1], token);
    }
  }

  /** The token table. The ghost log is the run so far. */
  class CsrfTable {
    var expiries: map<string, int>
    ghost var log: seq<Use>
    ghost var clock: int

    ghost predicate Valid()
      reads this
    {
      && NoEmptyTokens(log)
      && Chronological(log) && (log != [] ==> log[|log| - 1].at <= clock) && Knows(expiries, log, clock)
    }

    constructor (now: int)
      ensures Valid() && log == [] && clock == now
    {
      expiries, log, clock := map[], [], now;
    }

    method GenerateToken(token: string, now: int)
      requires Valid() && clock <= now && token != ""
      modifies this
      ensures Valid() && clock == now && log == old(log) + [Generate(token, now)]
      ensures forall t, later :: now <= later && t != token ==> (Good(log, t, later) <==> Good(old(log), t, later))
    {
      var todo := expiries.Keys;
      while todo != {}
        invariant todo <= old(expiries).Keys
        invariant log == old(log)
        invariant forall t :: t in expiries <==> t in old(expiries) && (t in todo || now <= old(expiries)[t])
        invariant forall t :: t in expiries ==> expiries[t] == old(expiries)[t]
      {
        var t :| t in todo;
        if now > expiries[t] {
          expiries := expiries - {t};
        }
        todo := todo - {t};
      }
      expiries := expiries[token := now + EXPIRY];
      log, clock := log + [Generate(token, now)], now;
      assert log[..|log| - 1] == old(log);
    }

    method ValidateToken(token: string, now: int) returns (ok: bool)
      requires Valid() && clock <= now
      modifies this
      ensures Valid() && clock == now && log == old(log) + [Validate(token, now)]
      ensures ok <==> Good(old(log), token, now)
    {
      log, clock := log + [Validate(token, now)], now;
      assert log[..|log| - 1] == old(log);
      if token == "" {
        NeverGenerated(old(log), "");
        return false;
      }
      if token !in expiries {
        return false;
      }
      var expiry := expiries[token];
      expiries := expiries - {token};
      return now < expiry;
    }
  }

  /** The answer that the validation at position i gets. */
  predicate Accepted(uses: seq<Use>, i: nat)
    requires i < |uses|
  {
    uses[i].Validate? && Good(uses[..i], uses[i].token, uses[i].at)
  }

  lemma {:induction false} LastUseIsLast(uses: seq<Use>, token: string)
    ensures var u := LastUse(uses, token);
            if u.None? then forall j :: 0 <= j < |uses| ==> uses[j].token != token
            else exists k :: 0 <= k < |uses| && uses[k] == u.value && u.value.token == token
                   && forall j :: k < j < |uses| ==> uses[j].token != token
  {
    if uses != [] {
      var last := |uses| - 1;
      if uses[last].token == token {
        assert uses[last] == LastUse(uses, token).value;
      } else {
        LastUseIsLast(uses[..last], token);
        assert forall j :: 0 <= j < last ==> uses[..last][j] == uses[j];
      }
    }
  }

  /** The token was generated at k and not used between then and i. */
  predicate Waits(uses: seq<Use>, token: string, k: nat, i: nat)
    requires k < i <= |uses|
  {
    uses[k].Generate? && uses[k].token == token && forall j :: k < j < i ==> uses[j].token != token
  }

  /** A token is accepted if and only if its last use was its generation, less than ten minutes ago. */
  lemma AcceptedIff(uses: seq<Use>, i: nat)
    requires i < |uses| && uses[i].Validate?
    ensures Accepted(uses, i) <==>
              uses[i].token != "" && exists k :: 0 <= k < i && Waits(uses, uses[i].token, k, i) && uses[i].at < uses[k].at + 600_000_000_000
  {
    var token, before := uses[i].token, uses[..i];
    LastUseIsLast(before, token);
    var u := LastUse(before, token);
    if u.Some? {
      var k :| 0 <= k < i && before[k] == u.value && u.value.token == token && forall j :: k < j < i ==> before[j].token != token;
      assert uses[k] == u.value;
      forall j | k < j < i ensures uses[j].token != token {
        assert before[j] == uses[j];
      }
      if u.value.Generate? {
        assert Waits(uses, token, k, i);
      }
      forall m | 0 <= m < i && Waits(uses, token, m, i) ensures m == k {
      }
    } else {
      assert forall m :: 0 <= m < i ==> before[m] == uses[m];
    }
  }

  /** A token is accepted at most once per generation, in every run, and only within ten minutes. */
  lemma AcceptedOnce(uses: seq<Use>, i: nat, j: nat)
    requires i < j < |uses| && Accepted(uses, i) && Accepted(uses, j) && uses[i].token == uses[j].token
    ensures exists k :: i < k < j && uses[k].Generate? && uses[k].token == uses[i].token && uses[j].at < uses[k].at + 600_000_000_000
  {
    AcceptedIff(uses, j);
    var k :| 0 <= k < j && Waits(uses, uses[j].token, k, j) && uses[j].at < uses[k].at + 600_000_000_000;
    assert k != i && uses[i].token == uses[j].token;
  }
}
