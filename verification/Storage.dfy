/** The in-memory storage of internal/authserver/storage_memory.go and storage.go. */
module Storage {
  import opened Common

  // ----- Tables whose entries expire -----

  datatype Entry<V> = Entry(value: V, expiresAt: int)

  type Table<V> = map<string, Entry<V>>

  predicate Expired<V>(e: Entry<V>, now: int) { now > e.expiresAt }

  function Fetch<V>(t: Table<V>, key: string, now: int): Option<V> {
    if key in t && !Expired(t[key], now) then Some(t[key].value) else None
  }

  function Swept<V>(t: Table<V>, now: int): Table<V> {
    map key | key in t && !Expired(t[key], now) :: t[key]
  }

  /** The body of one cleanup loop. */
  method SweepTable<V>(t: Table<V>, now: int) returns (r: Table<V>)
    ensures r == Swept(t, now)
  {
    r := t;
    var todo := t.Keys;
    while todo != {}
      invariant todo <= t.Keys
      invariant forall key :: key in r <==> key in t && (key in todo || !Expired(t[key], now))
      invariant forall key :: key in r ==> r[key] == t[key]
    {
      var key :| key in todo;
      if now > r[key].expiresAt {
        r := r - {key};
      }
      todo := todo - {key};
    }
  }

  // ----- Sweeps are invisible -----

  /** One critical section of some goroutine, and when it happened. */
  datatype Access<V> =
    | Store(at: int, key: string, entry: Entry<V>)
    | Get(at: int, key: string)
    | Delete(at: int, key: string)
    | Sweep(at: int)

  predicate Chronological<V>(run: seq<Access<V>>) {
    forall i, j :: 0 <= i < j < |run| ==> run[i].at <= run[j].at
  }

  /** A table with room for limit entries. */
  function After<V>(t: Table<V>, a: Access<V>, limit: nat): Table<V> {
    match a
    case Store(_, key, e) => if |t| >= limit then t else t[key := e]
    case Get(_, _) => t
    case Delete(_, key) => t - {key}
    case Sweep(at) => Swept(t, at)
  }

  predicate Refused<V>(t: Table<V>, a: Access<V>, limit: nat) {
    a.Store? && |t| >= limit
  }

  predicate NeverRefused<V>(t: Table<V>, run: seq<Access<V>>, limit: nat)
    decreases run
  {
    run == [] || (!Refused(t, run[0], limit) && NeverRefused(After(t, run[0], limit), run[1..], limit))
  }

  /** What the reads of a run return. */
  function Answers<V>(t: Table<V>, run: seq<Access<V>>, limit: nat): seq<Option<V>>
    decreases run
  {
    if run == [] then []
    else (if run[0].Get? then [Fetch(t, run[0].key, run[0].at)] else []) + Answers(After(t, run[0], limit), run[1..], limit)
  }

  /** The same for a table that is unbounded and never swept. */
  function PlainAnswers<V>(t: Table<V>, run: seq<Access<V>>): seq<Option<V>>
    decreases run
  {
    if run == [] then []
    else (if run[0].Get? then [Fetch(t, run[0].key, run[0].at)] else []) + PlainAnswers(PlainAfter(t, run[0]), run[1..])
  }

  function PlainAfter<V>(t: Table<V>, a: Access<V>): Table<V> {
    match a
    case Store(_, key, e) => t[key := e]
    case Get(_, _) => t
    case Delete(_, key) => t - {key}
    case Sweep(_) => t
  }

  /** plain has every entry of t, and otherwise only dead ones. */
  ghost predicate SameButDead<V>(t: Table<V>, plain: Table<V>, now: int) {
    && (forall key :: key in t ==> key in plain && plain[key] == t[key])
    && (forall key :: key in plain && key !in t ==> Expired(plain[key], now))
  }

  lemma StaysSameButDead<V>(t: Table<V>, plain: Table<V>, a: Access<V>, limit: nat, now: int)
    requires SameButDead(t, plain, now) && now <= a.at && !Refused(t, a, limit)
    ensures SameButDead(After(t, a, limit), PlainAfter(plain, a), a.at)
  {
  }

  lemma {:induction false} AnswersAgree<V>(t: Table<V>, plain: Table<V>, run: seq<Access<V>>, limit: nat, now: int)
    requires Chronological(run) && NeverRefused(t, run, limit)
    requires run != [] ==> now <= run[0].at
    requires SameButDead(t, plain, now)
    ensures Answers(t, run, limit) == PlainAnswers(plain, run)
    decreases run
  {
    if run != [] {
      var a := run[0];
      StaysSameButDead(t, plain, a, limit, now);
      AnswersAgree(After(t, a, limit), PlainAfter(plain, a), run[1..], limit, a.at);
    }
  }

  /** As long as no store is refused, every read answers as if nothing had ever been swept. */
  lemma SweepsAreInvisible<V>(run: seq<Access<V>>, limit: nat)
    requires Chronological(run) && NeverRefused(map[], run, limit)
    ensures Answers(map[], run, limit) == PlainAnswers(map[], run)
  {
    if run != [] {
      AnswersAgree<V>(map[], map[], run, limit, run[0].at);
    }
  }

  /** What a read of one key at the end of the run returns. */
  function AfterRun<V>(t: Table<V>, run: seq<Access<V>>, limit: nat): Table<V>
    decreases run
  {
    if run == [] then t else AfterRun(After(t, run[0], limit), run[1..], limit)
  }

  lemma {:induction false} AbsentStaysAbsent<V>(t: Table<V>, run: seq<Access<V>>, limit: nat, key: string)
    requires key !in t && forall i :: 0 <= i < |run| && run[i].Store? ==> run[i].key != key
    ensures key !in AfterRun(t, run, limit)
    decreases run
  {
    if run != [] {
      AbsentStaysAbsent(After(t, run[0], limit), run[1..], limit, key);
    }
  }

  /**
   In every interleaving, whoever reads a key after its deletion finds nothing, unless it was stored
   again in between.
   */
  lemma NothingAfterDelete<V>(t: Table<V>, before: seq<Access<V>>, between: seq<Access<V>>, limit: nat, key: string, at: int, now: int)
    requires forall i :: 0 <= i < |between| && between[i].Store? ==> between[i].key != key
    ensures Fetch(AfterRun(t, before + [Delete(at, key)] + between, limit), key, now).None?
  {
    var deleted := After(AfterRun(t, before, limit), Delete(at, key), limit);
    AbsentStaysAbsent(deleted, between, limit, key);
    AfterRunSplits(t, before, [Delete(at, key)] + between, limit);
    assert before + [Delete(at, key)] + between == before + ([Delete(at, key)] + between);
    assert ([Delete(at, key)] + between)[1..] == between;
  }

  lemma {:induction false} AfterRunSplits<V>(t: Table<V>, a: seq<Access<V>>, b: seq<Access<V>>, limit: nat)
    ensures AfterRun(t, a + b, limit) == AfterRun(AfterRun(t, a, limit), b, limit)
    decreases a
  {
    if a == [] {
      assert a + b == b;
    } else {
      assert (a + b)[1..] == a[1..] + b;
      AfterRunSplits(After(t, a[0], limit), a[1..], b, limit);
    }
  }

  // ----- The storage -----

  datatype AuthorizationCode = AuthorizationCode(
    code: string, clientId: string, userId: string, username: string, redirectUri: string, scope: string,
    challenge: string, challengeMethod: string, state: string, nonce: string)

  datatype RefreshToken = RefreshToken(token: string, clientId: string, userId: string, username: string, scope: string)

  datatype Client = Client(clientId: string, clientSecret: string, redirectUris: seq<string>)

  const MAX_AUTH_CODES := 10000
  const MAX_REFRESH_TOKENS := 50000
  const MAX_CLIENTS := 1000

  class MemoryStorage {
    var authCodes: Table<AuthorizationCode>
    var refreshTokens: Table<RefreshToken>
    var clients: map<string, Client>

    constructor ()
      ensures authCodes == map[] && refreshTokens == map[] && clients == map[]
    {
      authCodes, refreshTokens, clients := map[], map[], map[];
    }

    method StoreAuthorizationCode(code: AuthorizationCode, expiresAt: int) returns (stored: bool)
      modifies this`authCodes
      ensures stored == (|old(authCodes)| < 10_000)
      ensures authCodes == if stored then old(authCodes)[code.code := Entry(code, expiresAt)] else old(authCodes)
    {
      if |authCodes| >= MAX_AUTH_CODES {
        return false;
      }
      authCodes := authCodes[code.code := Entry(code, expiresAt)];
      return true;
    }

    method GetAuthorizationCode(code: string, now: int) returns (r: Option<AuthorizationCode>)
      ensures r == if code in authCodes && now <= authCodes[code].expiresAt then Some(authCodes[code].value) else None
    {
      if code !in authCodes || now > authCodes[code].expiresAt {
        return None;
      }
      return Some(authCodes[code].value);
    }

    method DeleteAuthorizationCode(code: string)
      modifies this`authCodes
      ensures authCodes == old(authCodes) - {code}
    {
      authCodes := authCodes - {code};
    }

    method StoreRefreshToken(token: RefreshToken, expiresAt: int) returns (stored: bool)
      modifies this`refreshTokens
      ensures stored == (|old(refreshTokens)| < 50_000)
      ensures refreshTokens == if stored then old(refreshTokens)[token.token := Entry(token, expiresAt)] else old(refreshTokens)
    {
      if |refreshTokens| >= MAX_REFRESH_TOKENS {
        return false;
      }
      refreshTokens := refreshTokens[token.token := Entry(token, expiresAt)];
      return true;
    }

    method GetRefreshToken(token: string, now: int) returns (r: Option<RefreshToken>)
      ensures r == if token in refreshTokens && now <= refreshTokens[token].expiresAt then Some(refreshTokens[token].value) else None
    {
      if token !in refreshTokens || now > refreshTokens[token].expiresAt {
        return None;
      }
      return Some(refreshTokens[token].value);
    }

    method DeleteRefreshToken(token: string)
      modifies this`refreshTokens
      ensures refreshTokens == old(refreshTokens) - {token}
    {
      refreshTokens := refreshTokens - {token};
    }

    method StoreClient(client: Client) returns (stored: bool)
      modifies this`clients
      ensures stored == (|old(clients)| < 1_000)
      ensures clients == if stored then old(clients)[client.clientId := client] else old(clients)
    {
      if |clients| >= MAX_CLIENTS {
        return false;
      }
      clients := clients[client.clientId := client];
      return true;
    }

    method GetClient(clientId: string) returns (r: Option<Client>)
      ensures r == if clientId in clients then Some(clients[clientId]) else None
    {
      return if clientId in clients then Some(clients[clientId]) else None;
    }

    method CleanupExpired(now: int)
      modifies this`authCodes, this`refreshTokens
      ensures authCodes == Swept(old(authCodes), now)
      ensures refreshTokens == Swept(old(refreshTokens), now)
    {
      authCodes := SweepTable(authCodes, now);
      refreshTokens := SweepTable(refreshTokens, now);
    }
  }
}
