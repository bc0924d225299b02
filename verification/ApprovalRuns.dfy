/** The gate over whole runs: every admitted request traces to a challenge of its own. */
module ApprovalRuns {
  import opened Wrappers
  import opened Approvals

  /** Lifetimes and bounds the stores were made with. */
  datatype Limits = Limits(challengeTtl: nat, challenges: nat, tokenTtl: nat, tokens: nat)

  datatype Issued = Issued(scope: Scope, at: nat)

  datatype Consumed = Consumed(tenant: TenantId, at: nat)

  datatype Admitted = Admitted(tenant: TenantId, scope: Scope, at: nat)

  /** Both stores and the clock, and beside them what has happened: every challenge issued, named by the state of
      its ceremony; who answered it and when; approvals not yet granted; which challenge each token in the store
      goes back to, and when it was granted; and for each request admitted, the challenge behind it. */
  datatype World = World(
    now: nat,
    pending: map<ChallengeId, Entry<Challenge>>,
    granted: map<bytes, Entry<Granted>>,
    issued: seq<Issued>,
    answered: map<nat, Consumed>,
    ready: set<nat>,
    behind: map<bytes, nat>,
    grantedAt: map<nat, nat>,
    admitted: map<nat, Admitted>)

  const Empty: World := World(0, map[], map[], [], map[], {}, map[], map[], map[])

  /** `Answer` is an assertion for a challenge, vouched for by a tenant's credential or not; `Approve` grants a
      token for an approval, once; the sweeps are what counting the outstanding entries does. */
  datatype Action =
    | Pass(time: nat)
    | Issue(id: ChallengeId, scope: Scope)
    | Answer(id: ChallengeId, vouched: Option<TenantId>)
    | Approve(challenge: nat, key: bytes)
    | Spend(key: bytes, arrived: Scope)
    | SweepChallenges
    | SweepTokens

  function Issuing(l: Limits, w: World, id: ChallengeId, scope: Scope): World {
    var pending := Added(w.pending, w.now, l.challengeTtl, l.challenges, id, Challenge(scope, |w.issued|));
    w.(pending := pending, issued := w.issued + [Issued(scope, w.now)])
  }

  function Answering(w: World, id: ChallengeId, vouched: Option<TenantId>): World {
    var taken := Take(w.pending, w.now, id);
    var next := w.(pending := w.pending - {id});
    if taken.Err? || vouched.None? then next
    else
      next.(answered := w.answered[taken.value.state := Consumed(vouched.value, w.now)], ready := w.ready + {taken.value.state})
  }

  /** The approval is used up, whether or not the store had room. */
  function Approving(l: Limits, w: World, challenge: nat, key: bytes): World
    requires challenge in w.answered && challenge < |w.issued|
  {
    var grant := Granted(w.answered[challenge].tenant, w.issued[challenge].scope);
    var next := w.(granted := Added(w.granted, w.now, l.tokenTtl, l.tokens, key, grant), ready := w.ready - {challenge});
    if HasRoom(w.granted, w.now, l.tokens) then
      next.(behind := w.behind[key := challenge], grantedAt := w.grantedAt[challenge := w.now])
    else next
  }

  function Spending(w: World, key: bytes, arrived: Scope): World {
    var answer := Redeemed(w.granted, w.now, key, arrived);
    var next := w.(granted := w.granted - {key});
    if answer.Ok? && key in w.behind then next.(admitted := w.admitted[w.behind[key] := Admitted(answer.value, arrived, w.now)])
    else next
  }

  function Next(l: Limits, w: World, action: Action): World {
    match action
    case Pass(time) => w.(now := w.now + time)
    case Issue(id, scope) => Issuing(l, w, id, scope)
    case Answer(id, vouched) => Answering(w, id, vouched)
    case Approve(challenge, key) =>
      if challenge in w.ready && challenge in w.answered && challenge < |w.issued| then Approving(l, w, challenge, key) else w
    case Spend(key, arrived) => Spending(w, key, arrived)
    case SweepChallenges => w.(pending := Swept(w.pending, w.now))
    case SweepTokens => w.(granted := Swept(w.granted, w.now))
  }

  function Run(l: Limits, actions: seq<Action>): World {
    if actions == [] then Empty else Next(l, Run(l, actions[..|actions| - 1]), actions[|actions| - 1])
  }

  /** Requests admitted so far, told by the answers given: each that was let through counts. */
  function Admissions(l: Limits, actions: seq<Action>): seq<Admitted> {
    if actions == [] then []
    else
      var before := actions[..|actions| - 1];
      Admissions(l, before) + AdmittedBy(Run(l, before), actions[|actions| - 1])
  }

  /** What one action lets through, if it does. */
  function AdmittedBy(w: World, action: Action): seq<Admitted> {
    if action.Spend? && Redeemed(w.granted, w.now, action.key, action.arrived).Ok? then
      [Admitted(Redeemed(w.granted, w.now, action.key, action.arrived).value, action.arrived, w.now)]
    else []
  }

  // ---- what every step keeps ----------------------------------------------

  ghost predicate ChallengeOk(l: Limits, issued: seq<Issued>, answered: map<nat, Consumed>, e: Entry<Challenge>) {
    && e.value.state < |issued| && e.value.scope == issued[e.value.state].scope
    && e.expires == issued[e.value.state].at + l.challengeTtl && e.value.state !in answered
  }

  /** Challenges outstanding were issued as they stand, each once, and nobody has answered one. */
  ghost predicate PendingOk(l: Limits, pending: map<ChallengeId, Entry<Challenge>>, issued: seq<Issued>, answered: map<nat, Consumed>) {
    && |pending| <= l.challenges
    && (forall id :: id in pending ==> ChallengeOk(l, issued, answered, pending[id]))
    && forall id, other :: id in pending && other in pending && id != other ==> pending[id].value.state != pending[other].value.state
  }

  ghost predicate AnswerOk(l: Limits, now: nat, issued: seq<Issued>, answered: map<nat, Consumed>, c: nat) {
    && c < |issued| && c in answered
    && issued[c].at <= answered[c].at < issued[c].at + l.challengeTtl && answered[c].at <= now
  }

  /** Answers came within the challenge's lifetime; what is ready to be granted was answered and never granted. */
  ghost predicate AnsweredOk(l: Limits, now: nat, issued: seq<Issued>, answered: map<nat, Consumed>, ready: set<nat>, grantedAt: map<nat, nat>) {
    && (forall i :: 0 <= i < |issued| ==> issued[i].at <= now)
    && (forall c :: c in answered ==> AnswerOk(l, now, issued, answered, c))
    && (forall c :: c in ready ==> c in answered && c !in grantedAt)
    && forall c :: c in grantedAt ==> c in answered && answered[c].at <= grantedAt[c] <= now
  }

  ghost predicate TokenOk(l: Limits, issued: seq<Issued>, answered: map<nat, Consumed>, grantedAt: map<nat, nat>, c: nat, e: Entry<Granted>) {
    && c in grantedAt && c in answered && c < |issued|
    && e == Entry(Granted(answered[c].tenant, issued[c].scope), grantedAt[c] + l.tokenTtl)
  }

  /** Tokens outstanding go each to an approval of its own that has admitted nothing. */
  ghost predicate GrantedOk(l: Limits, granted: map<bytes, Entry<Granted>>, behind: map<bytes, nat>, admitted: map<nat, Admitted>) {
    && |granted| <= l.tokens
    && (forall k :: k in granted ==> k in behind && behind[k] !in admitted)
    && forall k, other :: k in granted && other in granted && k != other && k in behind && other in behind ==> behind[k] != behind[other]
  }

  ghost predicate TokensOk(l: Limits, w: World) {
    forall k :: k in w.granted && k in w.behind ==> TokenOk(l, w.issued, w.answered, w.grantedAt, w.behind[k], w.granted[k])
  }

  /** A request goes back to a challenge of the same scope, answered for the same tenant, and was admitted within
      the lifetime of the token granted for it. */
  ghost predicate Traced(l: Limits, issued: seq<Issued>, answered: map<nat, Consumed>, grantedAt: map<nat, nat>, c: nat, a: Admitted) {
    && c < |issued| && c in answered && c in grantedAt
    && a.scope == issued[c].scope && a.tenant == answered[c].tenant
    && issued[c].at <= answered[c].at < issued[c].at + l.challengeTtl
    && answered[c].at <= grantedAt[c] <= a.at < grantedAt[c] + l.tokenTtl
  }

  ghost predicate AdmittedOk(l: Limits, w: World) {
    forall c :: c in w.admitted ==> Traced(l, w.issued, w.answered, w.grantedAt, c, w.admitted[c])
  }

  ghost predicate Inv(l: Limits, w: World) {
    && PendingOk(l, w.pending, w.issued, w.answered)
    && AnsweredOk(l, w.now, w.issued, w.answered, w.ready, w.grantedAt)
    && GrantedOk(l, w.granted, w.behind, w.admitted)
    && TokensOk(l, w)
    && AdmittedOk(l, w)
  }

  ghost predicate Within<K(!new), V>(small: map<K, V>, large: map<K, V>) {
    forall k :: k in small ==> k in large && small[k] == large[k]
  }

  lemma WithinSize<K, V>(small: map<K, V>, large: map<K, V>)
    requires small.Keys <= large.Keys
    ensures |small| <= |large|
  {
    SmallerKeys(small.Keys, large.Keys);
    assert |small| == |small.Keys| && |large| == |large.Keys|;
  }

  lemma PendingWithin(l: Limits, w: World, pending: map<ChallengeId, Entry<Challenge>>)
    requires Inv(l, w) && pending.Keys <= w.pending.Keys && Within(pending, w.pending)
    ensures Inv(l, w.(pending := pending))
  {
    WithinSize(pending, w.pending);
    hide ChallengeOk, AnsweredOk, GrantedOk, TokenOk, Traced;
  }

  lemma GrantedWithin(l: Limits, w: World, granted: map<bytes, Entry<Granted>>)
    requires Inv(l, w) && granted.Keys <= w.granted.Keys && Within(granted, w.granted)
    ensures Inv(l, w.(granted := granted))
  {
    WithinSize(granted, w.granted);
    hide AnsweredOk, PendingOk, TokenOk, Traced;
  }

  lemma IssuedGrows(l: Limits, w: World, issue: Issued)
    requires Inv(l, w) && issue.at == w.now
    ensures Inv(l, w.(issued := w.issued + [issue]))
  {
    var more := w.issued + [issue];
    forall id | id in w.pending ensures ChallengeOk(l, more, w.answered, w.pending[id]) {
      assert ChallengeOk(l, w.issued, w.answered, w.pending[id]);
    }
    forall c | c in w.answered ensures AnswerOk(l, w.now, more, w.answered, c) {
      assert AnswerOk(l, w.now, w.issued, w.answered, c);
    }
    forall k | k in w.granted && k in w.behind
      ensures TokenOk(l, more, w.answered, w.grantedAt, w.behind[k], w.granted[k])
    {
      assert TokenOk(l, w.issued, w.answered, w.grantedAt, w.behind[k], w.granted[k]);
    }
    forall c | c in w.admitted ensures Traced(l, more, w.answered, w.grantedAt, c, w.admitted[c]) {
      assert Traced(l, w.issued, w.answered, w.grantedAt, c, w.admitted[c]);
    }
    hide ChallengeOk, AnswerOk, TokenOk, Traced, GrantedOk;
  }

  lemma PendingAdded(l: Limits, w: World, id: ChallengeId, e: Entry<Challenge>)
    requires Inv(l, w) && ChallengeOk(l, w.issued, w.answered, e) && |w.pending[id := e]| <= l.challenges
    requires forall other :: other in w.pending && other != id ==> w.pending[other].value.state != e.value.state
    ensures Inv(l, w.(pending := w.pending[id := e]))
  {
    hide ChallengeOk, AnsweredOk, GrantedOk, TokenOk, Traced;
  }

  lemma PendingBounded(l: Limits, w: World)
    requires Inv(l, w)
    ensures |w.pending| <= l.challenges
  {
  }

  lemma IssuedAdded(l: Limits, w: World, id: ChallengeId, scope: Scope)
    requires Inv(l, w)
    requires |w.pending[id := Entry(Challenge(scope, |w.issued|), w.now + l.challengeTtl)]| <= l.challenges
    ensures Inv(l, w.(pending := w.pending[id := Entry(Challenge(scope, |w.issued|), w.now + l.challengeTtl)],
                      issued := w.issued + [Issued(scope, w.now)]))
  {
    var e, more := Entry(Challenge(scope, |w.issued|), w.now + l.challengeTtl), w.issued + [Issued(scope, w.now)];
    NewState(l, w);
    IssuedGrows(l, w, Issued(scope, w.now));
    assert ChallengeOk(l, more, w.answered, e);
    hide Inv, ChallengeOk;
    PendingAdded(l, w.(issued := more), id, e);
  }

  lemma SweptWithin<K(!new), V>(held: map<K, Entry<V>>, now: nat)
    ensures Swept(held, now).Keys <= held.Keys && Within(Swept(held, now), held)
  {
  }

  /** Issuing, told from the sweep on. */
  lemma IssuingIs(l: Limits, w: World, id: ChallengeId, scope: Scope, swept: map<ChallengeId, Entry<Challenge>>)
    requires |w.pending| <= l.challenges && swept == Swept(w.pending, w.now)
    ensures var e, more := Entry(Challenge(scope, |w.issued|), w.now + l.challengeTtl), w.issued + [Issued(scope, w.now)];
            if |swept| < l.challenges then
              |swept[id := e]| <= l.challenges && Issuing(l, w, id, scope) == w.(pending := swept[id := e], issued := more)
            else Issuing(l, w, id, scope) == w.(pending := swept, issued := more)
  {
    AddedWithin(w.pending, w.now, l.challengeTtl, l.challenges, id, Challenge(scope, |w.issued|));
    hide Swept;
  }

  lemma SweepKeeps(l: Limits, w: World)
    requires Inv(l, w)
    ensures Inv(l, w.(pending := Swept(w.pending, w.now))) && |w.pending| <= l.challenges
  {
    PendingBounded(l, w);
    SweptWithin(w.pending, w.now);
    hide Inv;
    PendingWithin(l, w, Swept(w.pending, w.now));
  }

  lemma IssuedAfter(l: Limits, w: World, id: ChallengeId, scope: Scope, next: World)
    requires Inv(l, w)
    requires var e, more := Entry(Challenge(scope, |w.issued|), w.now + l.challengeTtl), w.issued + [Issued(scope, w.now)];
             || (|w.pending[id := e]| <= l.challenges && next == w.(pending := w.pending[id := e], issued := more))
             || next == w.(issued := more)
    ensures Inv(l, next)
  {
    hide Inv;
    if next == w.(issued := w.issued + [Issued(scope, w.now)]) {
      IssuedGrows(l, w, Issued(scope, w.now));
    } else {
      IssuedAdded(l, w, id, scope);
    }
  }

  lemma IssuingKeeps(l: Limits, w: World, id: ChallengeId, scope: Scope)
    requires Inv(l, w)
    ensures Inv(l, Issuing(l, w, id, scope))
  {
    hide Inv, Swept, Issuing;
    var swept := Swept(w.pending, w.now);
    SweepKeeps(l, w);
    IssuingIs(l, w, id, scope, swept);
    IssuedAfter(l, w.(pending := swept), id, scope, Issuing(l, w, id, scope));
  }

  lemma NewState(l: Limits, w: World)
    requires Inv(l, w)
    ensures forall id :: id in w.pending ==> w.pending[id].value.state < |w.issued|
    ensures |w.issued| !in w.answered
  {
    hide GrantedOk, TokensOk, AdmittedOk;
    assert |w.issued| in w.answered ==> AnswerOk(l, w.now, w.issued, w.answered, |w.issued|);
  }

  lemma OldAnswersStand(l: Limits, w: World, c: nat, answered: map<nat, Consumed>)
    requires Inv(l, w) && c !in w.answered && c in answered && answered == w.answered[c := answered[c]]
    ensures TokensOk(l, w.(answered := answered)) && AdmittedOk(l, w.(answered := answered))
  {
    forall k | k in w.granted && k in w.behind
      ensures TokenOk(l, w.issued, answered, w.grantedAt, w.behind[k], w.granted[k])
    {
      assert TokenOk(l, w.issued, w.answered, w.grantedAt, w.behind[k], w.granted[k]);
    }
    forall d | d in w.admitted ensures Traced(l, w.issued, answered, w.grantedAt, d, w.admitted[d]) {
      assert Traced(l, w.issued, w.answered, w.grantedAt, d, w.admitted[d]);
    }
  }

  lemma AnswerAdded(l: Limits, w: World, c: nat, tenant: TenantId)
    requires Inv(l, w) && c !in w.answered && c < |w.issued| && w.now < w.issued[c].at + l.challengeTtl
    requires forall id :: id in w.pending ==> w.pending[id].value.state != c
    ensures Inv(l, w.(answered := w.answered[c := Consumed(tenant, w.now)], ready := w.ready + {c}))
  {
    var answered := w.answered[c := Consumed(tenant, w.now)];
    forall id | id in w.pending ensures ChallengeOk(l, w.issued, answered, w.pending[id]) {
      assert ChallengeOk(l, w.issued, w.answered, w.pending[id]);
    }
    forall d | d in answered ensures AnswerOk(l, w.now, w.issued, answered, d) {
      assert d != c ==> AnswerOk(l, w.now, w.issued, w.answered, d);
    }
    OldAnswersStand(l, w, c, answered);
    hide ChallengeOk, AnswerOk, TokenOk, Traced, GrantedOk;
  }

  lemma TakenFacts(l: Limits, w: World, id: ChallengeId)
    requires Inv(l, w) && Take(w.pending, w.now, id).Ok?
    ensures var c := Take(w.pending, w.now, id).value.state;
            && c < |w.issued| && c !in w.answered && w.now < w.issued[c].at + l.challengeTtl
            && forall other :: other in w.pending - {id} ==> (w.pending - {id})[other].value.state != c
  {
    assert ChallengeOk(l, w.issued, w.answered, w.pending[id]);
    hide AnsweredOk, GrantedOk, TokensOk, AdmittedOk;
  }

  lemma AnsweringKeeps(l: Limits, w: World, id: ChallengeId, vouched: Option<TenantId>)
    requires Inv(l, w)
    ensures Inv(l, Answering(w, id, vouched))
  {
    hide Inv;
    PendingWithin(l, w, w.pending - {id});
    if Take(w.pending, w.now, id).Ok? && vouched.Some? {
      TakenFacts(l, w, id);
      hide Take;
      AnswerAdded(l, w.(pending := w.pending - {id}), Take(w.pending, w.now, id).value.state, vouched.value);
    }
  }

  /** The approval is granted: from here on it is ready no more, and nothing yet goes back to it. */
  lemma GrantNoted(l: Limits, w: World, c: nat)
    requires Inv(l, w) && c in w.ready
    ensures Inv(l, w.(ready := w.ready - {c}, grantedAt := w.grantedAt[c := w.now]))
    ensures c !in w.admitted && forall k :: k in w.granted && k in w.behind ==> w.behind[k] != c
  {
    var grantedAt := w.grantedAt[c := w.now];
    assert AnswerOk(l, w.now, w.issued, w.answered, c);
    forall k | k in w.granted && k in w.behind
      ensures w.behind[k] != c && TokenOk(l, w.issued, w.answered, grantedAt, w.behind[k], w.granted[k])
    {
      assert TokenOk(l, w.issued, w.answered, w.grantedAt, w.behind[k], w.granted[k]);
    }
    forall d | d in w.admitted ensures d != c && Traced(l, w.issued, w.answered, grantedAt, d, w.admitted[d]) {
      assert Traced(l, w.issued, w.answered, w.grantedAt, d, w.admitted[d]);
    }
    hide PendingOk, GrantedOk, TokenOk, Traced, AnswerOk;
  }

  lemma TokenPlaced(l: Limits, w: World, c: nat, key: bytes, e: Entry<Granted>)
    requires Inv(l, w) && TokenOk(l, w.issued, w.answered, w.grantedAt, c, e) && |w.granted[key := e]| <= l.tokens
    requires c !in w.admitted && forall k :: k in w.granted && k in w.behind ==> w.behind[k] != c
    ensures Inv(l, w.(granted := w.granted[key := e], behind := w.behind[key := c]))
  {
    hide PendingOk, AnsweredOk, TokenOk, Traced;
  }

  lemma TokenAdded(l: Limits, w: World, c: nat, key: bytes)
    requires Inv(l, w) && c in w.ready && c in w.answered && c < |w.issued|
    requires var e := Entry(Granted(w.answered[c].tenant, w.issued[c].scope), w.now + l.tokenTtl); |w.granted[key := e]| <= l.tokens
    ensures var e := Entry(Granted(w.answered[c].tenant, w.issued[c].scope), w.now + l.tokenTtl);
            Inv(l, w.(granted := w.granted[key := e], ready := w.ready - {c}, behind := w.behind[key := c], grantedAt := w.grantedAt[c := w.now]))
  {
    var e := Entry(Granted(w.answered[c].tenant, w.issued[c].scope), w.now + l.tokenTtl);
    hide Inv;
    GrantNoted(l, w, c);
    TokenPlaced(l, w.(ready := w.ready - {c}, grantedAt := w.grantedAt[c := w.now]), c, key, e);
  }

  lemma NotGranted(l: Limits, w: World, c: nat)
    requires Inv(l, w)
    ensures Inv(l, w.(ready := w.ready - {c}))
  {
    hide PendingOk, GrantedOk, TokenOk, Traced, AnswerOk;
  }

  lemma GrantedBounded(l: Limits, w: World)
    requires Inv(l, w)
    ensures |w.granted| <= l.tokens
  {
  }

  lemma ApprovingKeeps(l: Limits, w: World, challenge: nat, key: bytes)
    requires Inv(l, w) && challenge in w.ready && challenge in w.answered && challenge < |w.issued|
    ensures Inv(l, Approving(l, w, challenge, key))
  {
    hide Inv;
    GrantedBounded(l, w);
    AddedWithin(w.granted, w.now, l.tokenTtl, l.tokens, key, Granted(w.answered[challenge].tenant, w.issued[challenge].scope));
    var swept := Swept(w.granted, w.now);
    GrantedWithin(l, w, swept);
    hide Swept;
    if |swept| < l.tokens {
      TokenAdded(l, w.(granted := swept), challenge, key);
    } else {
      NotGranted(l, w.(granted := swept), challenge);
    }
  }

  lemma AdmittedAdded(l: Limits, w: World, c: nat, a: Admitted)
    requires Inv(l, w) && Traced(l, w.issued, w.answered, w.grantedAt, c, a)
    requires forall k :: k in w.granted && k in w.behind ==> w.behind[k] != c
    ensures Inv(l, w.(admitted := w.admitted[c := a]))
  {
    hide PendingOk, AnsweredOk, TokenOk, Traced;
  }

  lemma SpendingKeeps(l: Limits, w: World, key: bytes, arrived: Scope)
    requires Inv(l, w)
    ensures Inv(l, Spending(w, key, arrived))
  {
    hide Inv, Traced;
    GrantedWithin(l, w, w.granted - {key});
    var answer := Redeemed(w.granted, w.now, key, arrived);
    if answer.Ok? {
      SpentIsTraced(l, w, key, arrived);
      hide Redeemed;
      AdmittedAdded(l, w.(granted := w.granted - {key}), w.behind[key], Admitted(answer.value, arrived, w.now));
    }
  }

  /** A token that is good names an approval that has admitted nothing, for this tenant and this scope. */
  lemma SpentIsTraced(l: Limits, w: World, key: bytes, arrived: Scope)
    requires Inv(l, w) && Redeemed(w.granted, w.now, key, arrived).Ok?
    ensures key in w.behind && w.behind[key] !in w.admitted
    ensures Traced(l, w.issued, w.answered, w.grantedAt, w.behind[key], Admitted(Redeemed(w.granted, w.now, key, arrived).value, arrived, w.now))
    ensures forall k :: k in w.granted - {key} && k in w.behind ==> w.behind[k] != w.behind[key]
  {
    assert TokenOk(l, w.issued, w.answered, w.grantedAt, w.behind[key], w.granted[key]);
    assert AnswerOk(l, w.now, w.issued, w.answered, w.behind[key]);
    hide PendingOk, AdmittedOk;
  }

  lemma PassKeeps(l: Limits, w: World, time: nat)
    requires Inv(l, w)
    ensures Inv(l, w.(now := w.now + time))
  {
  }

  lemma NextKeeps(l: Limits, w: World, action: Action)
    requires Inv(l, w)
    ensures Inv(l, Next(l, w, action))
  {
    hide Inv;
    match action
    case Pass(time) => PassKeeps(l, w, time);
    case Issue(id, scope) => IssuingKeeps(l, w, id, scope);
    case Answer(id, vouched) => AnsweringKeeps(l, w, id, vouched);
    case Approve(challenge, key) =>
      if challenge in w.ready && challenge in w.answered && challenge < |w.issued| {
        ApprovingKeeps(l, w, challenge, key);
      }
    case Spend(key, arrived) => SpendingKeeps(l, w, key, arrived);
    case SweepChallenges => PendingWithin(l, w, Swept(w.pending, w.now));
    case SweepTokens => GrantedWithin(l, w, Swept(w.granted, w.now));
  }

  lemma {:induction false} RunKeeps(l: Limits, actions: seq<Action>)
    ensures Inv(l, Run(l, actions))
  {
    if actions != [] {
      RunKeeps(l, actions[..|actions| - 1]);
      hide Inv;
      NextKeeps(l, Run(l, actions[..|actions| - 1]), actions[|actions| - 1]);
    }
  }

  // ---- over whole runs ----------------------------------------------------

  /** The requests let through are as many as the challenges behind them, and the same ones. */
  ghost predicate OneEach(w: World, admissions: seq<Admitted>, behind: seq<nat>) {
    && |behind| == |admissions| == |w.admitted|
    && (forall i :: 0 <= i < |behind| ==> behind[i] in w.admitted && w.admitted[behind[i]] == admissions[i])
    && forall i, j :: 0 <= i < j < |behind| ==> behind[i] != behind[j]
  }

  lemma AdmissionCounted(w: World, admissions: seq<Admitted>, behind: seq<nat>, c: nat, a: Admitted)
    requires OneEach(w, admissions, behind) && c !in w.admitted
    ensures OneEach(w.(admitted := w.admitted[c := a]), admissions + [a], behind + [c])
  {
    assert w.admitted[c := a].Keys == w.admitted.Keys + {c};
    assert |w.admitted| == |w.admitted.Keys| && |w.admitted[c := a]| == |w.admitted[c := a].Keys|;
  }

  lemma AdmittedUnchanged(l: Limits, w: World, action: Action)
    requires !(action.Spend? && Redeemed(w.granted, w.now, action.key, action.arrived).Ok?)
    ensures Next(l, w, action).admitted == w.admitted
  {
    hide Added, Swept, Take, Redeemed, HasRoom;
  }

  lemma SpendCounted(l: Limits, w: World, admissions: seq<Admitted>, behind: seq<nat>, key: bytes, arrived: Scope)
    requires Inv(l, w) && OneEach(w, admissions, behind) && Redeemed(w.granted, w.now, key, arrived).Ok?
    ensures key in w.behind
    ensures OneEach(Spending(w, key, arrived),
                    admissions + [Admitted(Redeemed(w.granted, w.now, key, arrived).value, arrived, w.now)], behind + [w.behind[key]])
  {
    SpentIsTraced(l, w, key, arrived);
    hide Inv, Traced, Redeemed;
    AdmissionCounted(w, admissions, behind, w.behind[key], Admitted(Redeemed(w.granted, w.now, key, arrived).value, arrived, w.now));
  }

  lemma SameAdmitted(w: World, next: World, admissions: seq<Admitted>, behind: seq<nat>)
    requires OneEach(w, admissions, behind) && next.admitted == w.admitted
    ensures OneEach(next, admissions, behind)
  {
  }

  lemma NextCounted(l: Limits, w: World, action: Action, admissions: seq<Admitted>, behind: seq<nat>) returns (more: seq<nat>)
    requires Inv(l, w) && OneEach(w, admissions, behind)
    ensures OneEach(Next(l, w, action), admissions + AdmittedBy(w, action), more)
  {
    more := behind;
    hide Inv, OneEach, Redeemed, Spending;
    if action.Spend? && Redeemed(w.granted, w.now, action.key, action.arrived).Ok? {
      SpendCounted(l, w, admissions, behind, action.key, action.arrived);
      more := behind + [w.behind[action.key]];
    } else {
      AdmittedUnchanged(l, w, action);
      SameAdmitted(w, Next(l, w, action), admissions, behind);
      hide Next;
      assert admissions + [] == admissions;
    }
  }

  lemma {:induction false} AdmissionsCounted(l: Limits, actions: seq<Action>) returns (behind: seq<nat>)
    ensures OneEach(Run(l, actions), Admissions(l, actions), behind)
  {
    if actions == [] {
      behind := [];
    } else {
      hide OneEach, Inv, Next, AdmittedBy;
      behind := AdmissionsCounted(l, actions[..|actions| - 1]);
      RunKeeps(l, actions[..|actions| - 1]);
      behind := NextCounted(l, Run(l, actions[..|actions| - 1]), actions[|actions| - 1], Admissions(l, actions[..|actions| - 1]), behind);
    }
  }

  /** In any run every request that was let through goes back to a challenge of its own: no two to one. */
  lemma AdmissionsTraced(l: Limits, actions: seq<Action>) returns (behind: seq<nat>)
    ensures var w, admissions := Run(l, actions), Admissions(l, actions);
            && OneEach(w, admissions, behind)
            && forall i :: 0 <= i < |admissions| ==> Traced(l, w.issued, w.answered, w.grantedAt, behind[i], admissions[i])
  {
    RunKeeps(l, actions);
    behind := AdmissionsCounted(l, actions);
    AllTraced(l, Run(l, actions), Admissions(l, actions), behind);
  }

  lemma AllTraced(l: Limits, w: World, admissions: seq<Admitted>, behind: seq<nat>)
    requires Inv(l, w) && OneEach(w, admissions, behind)
    ensures forall i :: 0 <= i < |admissions| ==> Traced(l, w.issued, w.answered, w.grantedAt, behind[i], admissions[i])
  {
    hide PendingOk, AnsweredOk, GrantedOk, TokensOk, Traced;
  }

  /** Neither store ever holds more than its capacity. */
  lemma StoresBounded(l: Limits, actions: seq<Action>)
    ensures |Run(l, actions).pending| <= l.challenges && |Run(l, actions).granted| <= l.tokens
  {
    RunKeeps(l, actions);
  }

  // ---- an approval gets through -------------------------------------------

  lemma RunMore(l: Limits, actions: seq<Action>, a: Action) returns (more: seq<Action>)
    ensures more == actions + [a] && Run(l, more) == Next(l, Run(l, actions), a)
    ensures Admissions(l, more) == Admissions(l, actions) + AdmittedBy(Run(l, actions), a)
  {
    more := actions + [a];
    assert more[..|more| - 1] == actions;
  }

  /** A challenge answered in time, granted while there is room and spent in time on the request it was for admits that
      request, for whoever answered it, from every reachable state with room for a challenge. */
  lemma ApprovedIsAdmitted(l: Limits, actions: seq<Action>, id: ChallengeId, scope: Scope, tenant: TenantId, key: bytes,
                           answered: nat, approved: nat, spent: nat) returns (all: seq<Action>)
    requires var w := Run(l, actions);
             && HasRoom(w.pending, w.now, l.challenges) && answered < l.challengeTtl
             && HasRoom(w.granted, w.now + answered + approved, l.tokens) && spent < l.tokenTtl
    ensures all == actions + [Issue(id, scope), Pass(answered), Answer(id, Some(tenant)), Pass(approved),
                              Approve(|Run(l, actions).issued|, key), Pass(spent), Spend(key, scope)]
    ensures Admissions(l, all) == Admissions(l, actions) + [Admitted(tenant, scope, Run(l, actions).now + answered + approved + spent)]
  {
    hide Swept, HasRoom;
    var w := Run(l, actions);
    var c := |w.issued|;
    var one := RunMore(l, actions, Issue(id, scope));
    var two := RunMore(l, one, Pass(answered));
    var three := RunMore(l, two, Answer(id, Some(tenant)));
    hide Run, Admissions;
    IssuedThenAnswered(l, w, id, scope, tenant, answered);
    var four := RunMore(l, three, Pass(approved));
    var five := RunMore(l, four, Approve(c, key));
    var six := RunMore(l, five, Pass(spent));
    GrantedThenSpent(l, Run(l, four), c, key, spent);
    all := RunMore(l, six, Spend(key, scope));
  }

  lemma IssuedThenAnswered(l: Limits, w: World, id: ChallengeId, scope: Scope, tenant: TenantId, answered: nat)
    requires HasRoom(w.pending, w.now, l.challenges) && answered < l.challengeTtl
    ensures var next := Next(l, Next(l, Next(l, w, Issue(id, scope)), Pass(answered)), Answer(id, Some(tenant)));
            && next.now == w.now + answered && next.granted == w.granted
            && next.issued == w.issued + [Issued(scope, w.now)]
            && |w.issued| in next.ready && |w.issued| in next.answered
            && next.answered[|w.issued|] == Consumed(tenant, next.now)
  {
    hide Swept;
  }

  lemma GrantedThenSpent(l: Limits, w: World, c: nat, key: bytes, spent: nat)
    requires c in w.ready && c in w.answered && c < |w.issued|
    requires HasRoom(w.granted, w.now, l.tokens) && spent < l.tokenTtl
    ensures var next := Next(l, Next(l, w, Approve(c, key)), Pass(spent));
            Redeemed(next.granted, next.now, key, w.issued[c].scope) == Ok(w.answered[c].tenant) && next.now == w.now + spent
  {
    hide Swept;
  }
}
