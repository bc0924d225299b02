/** Challenges, tokens and the gate over both: one person's approval, spent once, on one interaction. */
module Approvals {
  import opened Wrappers
  import opened Texts
  import opened TextLaws
  import opened Utf8

  // ---- a store whose entries lapse ----------------------------------------

  datatype Entry<+V> = Entry(value: V, expires: nat)

  datatype StoreError = Unknown | Expired | WrongInteraction | Full

  /** What is still good. */
  function Swept<K, V>(held: map<K, Entry<V>>, now: nat): map<K, Entry<V>> {
    map k | k in held && held[k].expires > now :: held[k]
  }

  /** An entry added after a sweep, or nothing but the sweep if the store is full. */
  function Added<K, V>(held: map<K, Entry<V>>, now: nat, ttl: nat, capacity: nat, key: K, value: V): map<K, Entry<V>> {
    var swept := Swept(held, now);
    if |swept| >= capacity then swept else swept[key := Entry(value, now + ttl)]
  }

  predicate HasRoom<K, V>(held: map<K, Entry<V>>, now: nat, capacity: nat) {
    |Swept(held, now)| < capacity
  }

  /** What taking a key answers; it is gone from the store whatever the answer. */
  function Take<K, V>(held: map<K, Entry<V>>, now: nat, key: K): Result<V, StoreError> {
    if key !in held then Err(Unknown)
    else if held[key].expires <= now then Err(Expired)
    else Ok(held[key].value)
  }

  /** A store never holds more than its capacity, whatever is added, taken or swept, and lets nothing go that is still
      good to make room. */
  lemma AddedWithin<K(!new), V>(held: map<K, Entry<V>>, now: nat, ttl: nat, capacity: nat, key: K, value: V)
    requires |held| <= capacity
    ensures |Swept(held, now)| <= |held| && |Added(held, now, ttl, capacity, key, value)| <= capacity
    ensures var room, added := |set k | k in held && held[k].expires > now| < capacity, Added(held, now, ttl, capacity, key, value);
            && (forall k :: k in held && held[k].expires > now && !(room && k == key) ==> k in added && added[k] == held[k])
            && (forall k :: k in added ==> (k in held && held[k].expires > now && added[k] == held[k]) || (room && k == key))
            && (room ==> key in added && added[key] == Entry(value, now + ttl))
  {
    var swept := Swept(held, now);
    SmallerKeys(swept.Keys, held.Keys);
    assert swept.Keys == set k | k in held && held[k].expires > now;
    assert |swept| == |swept.Keys| && |held| == |held.Keys|;
    if |swept| < capacity {
      var added := swept[key := Entry(value, now + ttl)];
      assert added.Keys == swept.Keys + {key};
      assert |added| == |added.Keys|;
    }
  }

  lemma {:induction false} SmallerKeys<K>(small: set<K>, large: set<K>)
    requires small <= large
    ensures |small| <= |large|
  {
    if k :| k in small {
      SmallerKeys(small - {k}, large - {k});
    }
  }

  // ---- scopes -------------------------------------------------------------

  /** The one interaction an approval is for. No query and an empty query are different. */
  datatype Scope = Scope(verb: string, path: string, query: Option<string>)

  function Upper(s: string): string {
    if s == "" then "" else [if 'a' <= s[0] <= 'z' then (s[0] as int - 32) as char else s[0]] + Upper(s[1..])
  }

  function ScopeOf(verb: string, path: string, query: Option<string>): Scope {
    Scope(Upper(verb), path, query)
  }

  function UpperLetter(c: char): char {
    if 'a' <= c <= 'z' then (c as int - 32) as char else c
  }

  /** The same letters, the small ones of ASCII made capital. */
  predicate IsUpperOf(upper: string, s: string) {
    |upper| == |s| && forall i :: 0 <= i < |s| ==> upper[i] == UpperLetter(s[i])
  }

  lemma {:induction false} UpperExactly(upper: string, s: string)
    ensures upper == Upper(s) <==> IsUpperOf(upper, s)
  {
    if s != "" {
      if upper != "" {
        UpperExactly(upper[1..], s[1..]);
        assert upper == [upper[0]] + upper[1..];
        if IsUpperOf(upper[1..], s[1..]) && upper[0] == UpperLetter(s[0]) {
          assert forall i :: 0 < i < |s| ==> upper[i] == upper[1..][i - 1] && s[i] == s[1..][i - 1];
        }
        if IsUpperOf(upper, s) {
          assert forall i :: 0 <= i < |s| - 1 ==> upper[1..][i] == upper[i + 1] && s[1..][i] == s[i + 1];
        }
      }
    }
  }

  /** Letters that differ in nothing but their case. */
  predicate SameLetter(a: char, b: char) {
    a == b || ('a' <= a <= 'z' && a as int == b as int + 32) || ('a' <= b <= 'z' && b as int == a as int + 32)
  }

  /** Two requests are one interaction exactly if their paths and queries are equal and their methods equal but for case. */
  lemma SameScope(a: string, b: string, path: string, other: string, query: Option<string>, asked: Option<string>)
    ensures ScopeOf(a, path, query) == ScopeOf(b, other, asked) <==>
              && path == other && query == asked
              && |a| == |b| && forall i :: 0 <= i < |a| ==> SameLetter(a[i], b[i])
  {
    UpperExactly(Upper(a), a);
    UpperExactly(Upper(b), b);
    UpperExactly(Upper(a), b);
    forall i | 0 <= i < |a| && i < |b| ensures UpperLetter(a[i]) == UpperLetter(b[i]) <==> SameLetter(a[i], b[i]) {
    }
    hide Upper, UpperLetter, SameLetter;
  }

  // ---- the stores ---------------------------------------------------------

  type ChallengeId = bytes
  type TenantId = nat

  /** What a challenge was issued for, and the ceremony's own state. */
  datatype Challenge = Challenge(scope: Scope, state: nat)

  datatype Granted = Granted(tenant: TenantId, scope: Scope)

  class ChallengeStore {
    const ttl: nat
    const capacity: nat
    var pending: map<ChallengeId, Entry<Challenge>>

    constructor (ttl: nat, capacity: nat)
      ensures this.ttl == ttl && this.capacity >= 1 && this.capacity >= capacity && (capacity >= 1 ==> this.capacity == capacity)
      ensures pending == map[]
    {
      this.ttl, this.capacity, pending := ttl, if capacity > 1 then capacity else 1, map[];
    }

    method Issue(now: nat, id: ChallengeId, scope: Scope, state: nat) returns (r: Result<(), StoreError>)
      modifies this
      ensures r == if HasRoom(old(pending), now, capacity) then Ok(()) else Err(Full)
      ensures pending == Added(old(pending), now, ttl, capacity, id, Challenge(scope, state))
    {
      pending := map k | k in pending && pending[k].expires > now :: pending[k];
      if |pending| >= capacity {
        return Err(Full);
      }
      pending := pending[id := Entry(Challenge(scope, state), now + ttl)];
      return Ok(());
    }

    method Consume(now: nat, id: ChallengeId) returns (r: Result<Challenge, StoreError>)
      modifies this
      ensures r == Take(old(pending), now, id) && pending == old(pending) - {id}
    {
      if id !in pending {
        assert pending - {id} == pending;
        return Err(Unknown);
      }
      var entry := pending[id];
      pending := pending - {id};
      if entry.expires <= now {
        return Err(Expired);
      }
      return Ok(entry.value);
    }

    method Outstanding(now: nat) returns (n: nat)
      modifies this
      ensures pending == Swept(old(pending), now) && n == |pending|
    {
      pending := map k | k in pending && pending[k].expires > now :: pending[k];
      return |pending|;
    }
  }

  /** What redeeming a token answers: the tenant, if the token is good and for this very interaction. */
  function Redeemed(granted: map<bytes, Entry<Granted>>, now: nat, key: bytes, scope: Scope): Result<TenantId, StoreError> {
    var taken := Take(granted, now, key);
    if taken.Err? then Err(taken.error)
    else if taken.value.scope != scope then Err(WrongInteraction)
    else Ok(taken.value.tenant)
  }

  class TokenStore {
    const digest: bytes -> bytes
    const ttl: nat
    const capacity: nat
    var granted: map<bytes, Entry<Granted>>

    constructor (digest: bytes -> bytes, ttl: nat, capacity: nat)
      ensures this.digest == digest && this.ttl == ttl && this.capacity >= 1 && (capacity >= 1 ==> this.capacity == capacity)
      ensures granted == map[]
    {
      this.digest, this.ttl, this.capacity, granted := digest, ttl, if capacity > 1 then capacity else 1, map[];
    }

    method Issue(now: nat, token: bytes, tenant: TenantId, scope: Scope) returns (r: Result<(), StoreError>)
      modifies this
      ensures r == if HasRoom(old(granted), now, capacity) then Ok(()) else Err(Full)
      ensures granted == Added(old(granted), now, ttl, capacity, digest(token), Granted(tenant, scope))
    {
      granted := map k | k in granted && granted[k].expires > now :: granted[k];
      if |granted| >= capacity {
        return Err(Full);
      }
      granted := granted[digest(token) := Entry(Granted(tenant, scope), now + ttl)];
      return Ok(());
    }

    method Redeem(now: nat, token: bytes, scope: Scope) returns (r: Result<TenantId, StoreError>)
      modifies this
      ensures r == Redeemed(old(granted), now, digest(token), scope) && granted == old(granted) - {digest(token)}
    {
      var key := digest(token);
      if key !in granted {
        assert granted - {key} == granted;
        return Err(Unknown);
      }
      var entry := granted[key];
      granted := granted - {key};
      if entry.expires <= now {
        return Err(Expired);
      }
      if entry.value.scope != scope {
        return Err(WrongInteraction);
      }
      return Ok(entry.value.tenant);
    }

    method Outstanding(now: nat) returns (n: nat)
      modifies this
      ensures granted == Swept(old(granted), now) && n == |granted|
    {
      granted := map k | k in granted && granted[k].expires > now :: granted[k];
      return |granted|;
    }
  }

  // ---- the gate -----------------------------------------------------------

  const MAX_TOKEN_CHARS: nat := 128

  /** What the credential store and the ceremony answer for an assertion, asked in this order. */
  datatype Assertion = Assertion(credential: Option<Credential>, verifies: bool, userVerified: bool, recorded: bool)

  datatype Credential = Credential(tenant: TenantId, active: bool)

  datatype Denied = Missing | Malformed | BadChallenge(reason: StoreError) | BadToken(why: StoreError) | UnknownCredential | BadAssertion

  datatype Authenticated = Authenticated(tenant: TenantId, scope: Scope)

  /** The token a header offers. */
  function Offered(header: Option<string>): Result<string, Denied> {
    if header.None? || !("Bearer " <= header.value) then Err(Missing)
    else
      var token := Trim(header.value[7..]);
      if token == "" || Size(token) > MAX_TOKEN_CHARS then Err(Malformed) else Ok(token)
  }

  /** The text after the word a token is announced with, less the white space around it, of at most 128 octets. */
  ghost predicate Carries(header: Option<string>, token: string) {
    && header.Some? && "Bearer " <= header.value && Trimmed(header.value[|"Bearer "|..], token)
    && token != "" && Size(token) <= 128
  }

  lemma OfferedExactly(header: Option<string>, token: string)
    ensures Offered(header) == Ok(token) <==> Carries(header, token)
  {
    if header.Some? && "Bearer " <= header.value {
      TrimExactly(header.value[7..], token);
    }
    hide Trim, Trimmed, Size;
  }

  /** A token held, good, and granted for this very request: its path, its query, and its method in capitals. */
  predicate GoodFor(granted: map<bytes, Entry<Granted>>, now: nat, key: bytes, verb: string, path: string, query: Option<string>) {
    && key in granted && granted[key].expires > now
    && var scope := granted[key].value.scope;
       scope.path == path && scope.query == query && IsUpperOf(scope.verb, verb)
  }

  lemma RedeemsExactly(granted: map<bytes, Entry<Granted>>, now: nat, key: bytes, verb: string, path: string, query: Option<string>)
    ensures var r := Redeemed(granted, now, key, ScopeOf(verb, path, query));
            && (r.Ok? <==> GoodFor(granted, now, key, verb, path, query))
            && (r.Ok? ==> r.value == granted[key].value.tenant)
            && (r == Err(Unknown) <==> key !in granted)
            && (r == Err(Expired) <==> key in granted && granted[key].expires <= now)
            && (r.Err? ==> r.error.Unknown? || r.error.Expired? || r.error.WrongInteraction?)
  {
    if key in granted {
      UpperExactly(granted[key].value.scope.verb, verb);
    }
    hide IsUpperOf, Upper;
  }

  class Gate {
    const challenges: ChallengeStore
    const tokens: TokenStore
    const octets: string -> bytes

    constructor (challenges: ChallengeStore, tokens: TokenStore, octets: string -> bytes)
      ensures this.challenges == challenges && this.tokens == tokens && this.octets == octets
    {
      this.challenges, this.tokens, this.octets := challenges, tokens, octets;
    }

    /** A challenge for one intended interaction; `state` is the ceremony's, if it could be started. */
    method Issue(now: nat, id: ChallengeId, scope: Scope, state: Option<nat>) returns (r: Result<(), Denied>)
      modifies challenges
      ensures r.Ok? <==> state.Some? && HasRoom(old(challenges.pending), now, challenges.capacity)
      ensures challenges.pending ==
              if state.None? then old(challenges.pending)
              else Added(old(challenges.pending), now, challenges.ttl, challenges.capacity, id, Challenge(scope, state.value))
    {
      if state.None? {
        return Err(BadAssertion);
      }
      var issued := challenges.Issue(now, id, scope, state.value);
      if issued.Err? {
        return Err(BadChallenge(issued.error));
      }
      return Ok(());
    }

    /** Prove who is asking, and for what. The challenge is spent whether or not the assertion holds. */
    method Authenticate(now: nat, id: ChallengeId, assertion: Challenge -> Assertion) returns (r: Result<Authenticated, Denied>)
      modifies challenges
      ensures challenges.pending == old(challenges.pending) - {id}
      ensures var held := old(challenges.pending);
              && (r.Ok? <==>
                    && id in held && held[id].expires > now
                    && var a := assertion(held[id].value);
                       && a.credential.Some? && a.credential.value.active
                       && a.verifies && a.userVerified && a.recorded)
              && (r.Ok? ==>
                    && r.value.scope == held[id].value.scope
                    && r.value.tenant == assertion(held[id].value).credential.value.tenant)
    {
      var taken := challenges.Consume(now, id);
      if taken.Err? {
        return Err(BadChallenge(taken.error));
      }
      var a := assertion(taken.value);
      if a.credential.None? || !a.credential.value.active {
        return Err(UnknownCredential);
      }
      if !a.verifies || !a.userVerified || !a.recorded {
        return Err(BadAssertion);
      }
      return Ok(Authenticated(a.credential.value.tenant, taken.value.scope));
    }

    /** Record an approval as a token, for the interaction its challenge was issued for and no other. */
    method Grant(now: nat, token: bytes, who: Authenticated) returns (r: Result<nat, Denied>)
      modifies tokens
      ensures r == if HasRoom(old(tokens.granted), now, tokens.capacity) then Ok(tokens.ttl) else Err(BadToken(Full))
      ensures tokens.granted ==
              Added(old(tokens.granted), now, tokens.ttl, tokens.capacity, tokens.digest(token), Granted(who.tenant, who.scope))
    {
      var issued := tokens.Issue(now, token, who.tenant, who.scope);
      if issued.Err? {
        return Err(BadToken(issued.error));
      }
      return Ok(tokens.ttl);
    }

    /** What redeeming comes to, by the token the header carries. */
    lemma Answers(now: nat, header: Option<string>, verb: string, path: string, query: Option<string>)
      ensures forall token :: Carries(header, token) <==> Offered(header) == Ok(token)
      ensures forall token :: Carries(header, token) ==>
                var key := tokens.digest(octets(token));
                var answer := Redeemed(tokens.granted, now, key, ScopeOf(verb, path, query));
                && (answer.Ok? <==> GoodFor(tokens.granted, now, key, verb, path, query))
                && (answer.Ok? ==> answer.value == tokens.granted[key].value.tenant)
    {
      hide Carries, Offered, Redeemed;
      forall token ensures Carries(header, token) <==> Offered(header) == Ok(token) {
        OfferedExactly(header, token);
      }
      forall token | Carries(header, token)
        ensures var key := tokens.digest(octets(token));
                var answer := Redeemed(tokens.granted, now, key, ScopeOf(verb, path, query));
                && (answer.Ok? <==> GoodFor(tokens.granted, now, key, verb, path, query))
                && (answer.Ok? ==> answer.value == tokens.granted[key].value.tenant)
      {
        RedeemsExactly(tokens.granted, now, tokens.digest(octets(token)), verb, path, query);
      }
    }

    /** Spend one approval on the request that arrived. A header that offers no plausible token spends nothing. */
    method Redeem(now: nat, header: Option<string>, verb: string, path: string, query: Option<string>)
      returns (r: Result<TenantId, Denied>)
      modifies tokens
      ensures var offered := Offered(header);
              if offered.Err? then r == Err(offered.error) && tokens.granted == old(tokens.granted)
              else
                var key := tokens.digest(octets(offered.value));
                var answer := Redeemed(old(tokens.granted), now, key, ScopeOf(verb, path, query));
                && tokens.granted == old(tokens.granted) - {key}
                && r == if answer.Ok? then Ok(answer.value) else Err(BadToken(answer.error))
      ensures forall token :: Carries(header, token) ==>
                var key := tokens.digest(octets(token));
                && (r.Ok? <==> GoodFor(old(tokens.granted), now, key, verb, path, query))
                && (r.Ok? ==> r.value == old(tokens.granted)[key].value.tenant)
                && tokens.granted == old(tokens.granted) - {key}
      ensures (forall token :: !Carries(header, token)) ==> r.Err? && tokens.granted == old(tokens.granted)
    {
      Answers(now, header, verb, path, query);
      if header.None? || !("Bearer " <= header.value) {
        return Err(Missing);
      }
      var token := Trim(header.value[7..]);
      if token == "" || Size(token) > MAX_TOKEN_CHARS {
        return Err(Malformed);
      }
      var tenant := tokens.Redeem(now, octets(token), ScopeOf(verb, path, query));
      if tenant.Err? {
        return Err(BadToken(tenant.error));
      }
      return Ok(tenant.value);
    }
  }
}
