/** The passkey authenticator: host grants, one-time challenges, credentials and timed sessions.
    Each database transaction is one atomic step; instants are microseconds. */
module Passkeys {
  import opened Outcomes

  const SECOND: int := 1_000_000

  datatype GrantPurpose = Bootstrap | Recovery

  datatype ChallengePurpose = Registration | Authentication | Reauthentication

  datatype Settings = Settings(
    bootstrapSecret: bool, recoverySecret: bool, bootstrapTtl: nat, recoveryTtl: nat,
    challengeTtl: nat, idleTtl: nat, absoluteTtl: nat, recencyTtl: nat)
  {
    predicate HasSecret(purpose: GrantPurpose) {
      if purpose == Bootstrap then bootstrapSecret else recoverySecret
    }

    function GrantTtl(purpose: GrantPurpose): nat {
      if purpose == Bootstrap then bootstrapTtl else recoveryTtl
    }
  }

  datatype Grant = Grant(purpose: GrantPurpose, expiresAt: int)

  datatype Challenge = Challenge(purpose: ChallengePurpose, grant: Option<string>, expiresAt: int)

  datatype Credential = Credential(publicKey: string, signCount: int)

  datatype Session = Session(
    csrf: string, credential: string, createdAt: int, lastSeen: int, recentReauth: int, absoluteExpiresAt: int)

  /** What became of a consumed challenge: its request is under way, an assertion of a credential
      was verified for it, or what it stood for was done. */
  datatype Answer = Open(kind: ChallengePurpose, grant: Option<string>) | Proved(kind: ChallengePurpose, credential: string) | Spent

  /** The four tables, and the requests in flight: the consumed challenges, and the tokens that
      passed the session check, each with the credential that the check returned. SHA-256 digests
      are injective, so sessions are keyed by their tokens. */
  datatype Tables = Tables(
    grants: map<string, Grant>, challenges: map<string, Challenge>,
    credentials: map<string, Credential>, sessions: map<string, Session>,
    answers: map<string, Answer>, inFlight: set<(string, string)>)

  const EMPTY: Tables := Tables(map[], map[], map[], map[], map[], {})

  // ---- expiry rules ---------------------------------------------------------------------

  predicate Expired(at: int, now: int) {
    at <= now
  }

  predicate Active(s: Session, settings: Settings, absolute: int, idle: int) {
    && !Expired(s.absoluteExpiresAt, absolute)
    && !Expired(s.lastSeen + settings.idleTtl * SECOND, idle)
  }

  // ---- the transactions -------------------------------------------------------------------

  /** One committed transaction; the instants are the clock values it reads, in order. */
  datatype Step =
    | Mint(purpose: GrantPurpose, grant: string, now: int)
    | Issue(kind: ChallengePurpose, challenge: string, bound: Option<string>, now: int)
    | Consume(challenge: string, kind: ChallengePurpose, now: int)
    | Enroll(challenge: string, grant: string, credential: string, publicKey: string, count: int, now: int)
    | Assert(challenge: string, kind: ChallengePurpose, credential: string, count: int)
    | Login(kind: ChallengePurpose, challenge: string, token: string, csrf: string, credential: string, now: int, later: int)
    | Authorize(token: string, csrf: string, now: int, idle: int)
    | Refresh(token: string, credential: string, later: int)
    | Reauthenticate(challenge: string, token: string, credential: string, later: int, last: int)
    | Logout(token: string, csrf: string, now: int, idle: int)

  /** `_validate_session_mutation`. */
  predicate MayMutate(settings: Settings, t: Tables, token: string, csrf: string, now: int, idle: int) {
    && token != "" && csrf != ""
    && token in t.sessions && Active(t.sessions[token], settings, now, idle) && t.sessions[token].csrf == csrf
  }

  /** A token that is minted at random is neither stored nor carried by a request in flight. */
  predicate IsNewToken(t: Tables, token: string) {
    token !in t.sessions && forall p :: p in t.inFlight ==> p.0 != token
  }

  /** A write follows the check in a transaction of its own, at any later time. It is an UPDATE
      that finds no row once the session has ended. */
  predicate MayWrite(t: Tables, token: string, credential: string) {
    (token, credential) in t.inFlight && token in t.sessions
  }

  /** The request that consumed the challenge got as far as the answer says. */
  predicate Stands(t: Tables, challenge: string, answer: Answer) {
    challenge in t.answers && t.answers[challenge] == answer
  }

  /** When a step has an effect; otherwise it raises and leaves the tables alone. */
  predicate Enabled(settings: Settings, t: Tables, s: Step) {
    match s
    case Mint(purpose, grant, _) => settings.HasSecret(purpose) && grant !in t.grants
    case Issue(_, challenge, _, _) => challenge !in t.challenges && challenge !in t.answers
    case Consume(challenge, kind, now) =>
      && challenge in t.challenges
      && t.challenges[challenge].purpose == kind
      && !Expired(t.challenges[challenge].expiresAt, now)
    case Enroll(challenge, grant, credential, _, _, now) =>
      && Stands(t, challenge, Open(Registration, Some(grant)))
      && grant in t.grants && !Expired(t.grants[grant].expiresAt, now) && credential !in t.credentials
    case Assert(challenge, kind, credential, _) =>
      challenge in t.answers && t.answers[challenge].Open? && t.answers[challenge].kind == kind && credential in t.credentials
    case Login(kind, challenge, token, _, credential, _, _) =>
      Stands(t, challenge, Proved(kind, credential)) && IsNewToken(t, token)
    case Authorize(token, csrf, now, idle) => MayMutate(settings, t, token, csrf, now, idle)
    case Refresh(token, credential, _) => MayWrite(t, token, credential)
    case Reauthenticate(challenge, token, credential, _, _) =>
      Stands(t, challenge, Proved(Reauthentication, credential)) && MayWrite(t, token, credential)
    case Logout(token, csrf, now, idle) => MayMutate(settings, t, token, csrf, now, idle)
  }

  function Apply(settings: Settings, t: Tables, s: Step): Tables {
    if !Enabled(settings, t, s) then t
    else
      match s
      case Mint(purpose, grant, now) =>
        t.(grants := t.grants[grant := Grant(purpose, now + settings.GrantTtl(purpose) * SECOND)])
      case Issue(kind, challenge, bound, now) =>
        t.(challenges := t.challenges[challenge := Challenge(kind, bound, now + settings.challengeTtl * SECOND)])
      case Consume(challenge, kind, _) =>
        t.(challenges := t.challenges - {challenge},
           answers := t.answers[challenge := Open(kind, t.challenges[challenge].grant)])
      case Enroll(challenge, grant, credential, key, count, _) =>
        t.(grants := t.grants - {grant}, credentials := t.credentials[credential := Credential(key, count)],
           answers := t.answers[challenge := Spent])
      case Assert(challenge, kind, credential, count) =>
        t.(credentials := t.credentials[credential := t.credentials[credential].(signCount := count)],
           answers := t.answers[challenge := Proved(kind, credential)])
      case Login(_, challenge, token, csrf, credential, now, later) =>
        t.(sessions := t.sessions[token :=
             Session(csrf, credential, now, now, now, later + settings.absoluteTtl * SECOND)],
           answers := t.answers[challenge := Spent])
      case Authorize(token, _, _, _) => t.(inFlight := t.inFlight + {(token, t.sessions[token].credential)})
      case Refresh(token, _, later) =>
        t.(sessions := t.sessions[token := t.sessions[token].(lastSeen := later)])
      case Reauthenticate(challenge, token, _, later, last) =>
        t.(sessions := t.sessions[token := t.sessions[token].(recentReauth := later, lastSeen := last)],
           answers := t.answers[challenge := Spent])
      case Logout(token, _, _, _) => t.(sessions := t.sessions - {token})
  }

  /** The tables after all but the last step, then the last step. */
  function Run(settings: Settings, t: Tables, steps: seq<Step>): Tables {
    if steps == [] then t
    else Apply(settings, Run(settings, t, steps[..|steps| - 1]), steps[|steps| - 1])
  }

  // ---- conservation -----------------------------------------------------------------------------

  predicate Happens(settings: Settings, t: Tables, steps: seq<Step>, i: nat)
    requires i < |steps|
  {
    Enabled(settings, Run(settings, t, steps[..i]), steps[i])
  }

  /** How many grants the run minted. */
  function Minted(settings: Settings, t: Tables, steps: seq<Step>): nat {
    if steps == [] then 0
    else
      var init, last := steps[..|steps| - 1], steps[|steps| - 1];
      Minted(settings, t, init) + if last.Mint? && Enabled(settings, Run(settings, t, init), last) then 1 else 0
  }

  lemma {:induction false} StepConservesGrants(settings: Settings, t: Tables, s: Step)
    ensures var u := Apply(settings, t, s);
      |u.grants| + |u.credentials|
      == |t.grants| + |t.credentials| + if s.Mint? && Enabled(settings, t, s) then 1 else 0
  {
  }

  /** Every credential cost one grant: minted grants are either outstanding or enrolled. */
  lemma {:induction false} GrantsAreConserved(settings: Settings, t: Tables, steps: seq<Step>)
    ensures var u := Run(settings, t, steps);
      |u.grants| + |u.credentials| == |t.grants| + |t.credentials| + Minted(settings, t, steps)
  {
    hide Apply, Enabled;
    if steps != [] {
      var init, s := steps[..|steps| - 1], steps[|steps| - 1];
      GrantsAreConserved(settings, t, init);
      StepConservesGrants(settings, Run(settings, t, init), s);
    }
  }

  /** How often the run issued, and consumed, a challenge under an identity, for any purpose. */
  function Issued(settings: Settings, t: Tables, steps: seq<Step>, id: string): nat {
    if steps == [] then 0
    else
      var init, last := steps[..|steps| - 1], steps[|steps| - 1];
      Issued(settings, t, init, id)
      + if last.Issue? && last.challenge == id && Enabled(settings, Run(settings, t, init), last) then 1 else 0
  }

  function Consumed(settings: Settings, t: Tables, steps: seq<Step>, id: string): nat {
    if steps == [] then 0
    else
      var init, last := steps[..|steps| - 1], steps[|steps| - 1];
      Consumed(settings, t, init, id)
      + if last.Consume? && last.challenge == id && Enabled(settings, Run(settings, t, init), last) then 1 else 0
  }

  /** How often a challenge served to enroll, log in or reauthenticate. */
  function Uses(settings: Settings, t: Tables, steps: seq<Step>, id: string): nat {
    if steps == [] then 0
    else
      var init, last := steps[..|steps| - 1], steps[|steps| - 1];
      Uses(settings, t, init, id)
      + if IsUse(last) && last.challenge == id && Enabled(settings, Run(settings, t, init), last) then 1 else 0
  }

  predicate IsUse(s: Step) {
    s.Enroll? || s.Login? || s.Reauthenticate?
  }

  function One(b: bool): nat {
    if b then 1 else 0
  }

  /** Each challenge identity is issued at most once; what was issued is outstanding or was consumed,
      across all purposes; and a consumed challenge serves at most once. So logins never exceed the
      consumed challenges. */
  lemma {:induction false} ChallengesAreConserved(settings: Settings, steps: seq<Step>, id: string)
    ensures var t := Run(settings, EMPTY, steps);
      && Issued(settings, EMPTY, steps, id) == Consumed(settings, EMPTY, steps, id) + One(id in t.challenges) <= 1
      && Consumed(settings, EMPTY, steps, id) == One(id in t.answers)
      && Uses(settings, EMPTY, steps, id) == One(id in t.answers && t.answers[id].Spent?)
      && Uses(settings, EMPTY, steps, id) <= Consumed(settings, EMPTY, steps, id)
  {
    hide Enabled, Apply;
    if steps != [] {
      ChallengesAreConserved(settings, steps[..|steps| - 1], id);
      StepConservesChallenge(settings, Run(settings, EMPTY, steps[..|steps| - 1]), steps[|steps| - 1], id);
    }
  }

  lemma {:induction false} StepConservesChallenge(settings: Settings, t: Tables, s: Step, id: string)
    requires id in t.challenges ==> id !in t.answers
    ensures var u := Apply(settings, t, s); var on := Enabled(settings, t, s);
      && (id in u.challenges ==> id !in u.answers)
      && One(id in u.challenges) + One(id in u.answers)
         == One(id in t.challenges) + One(id in t.answers) + One(on && s.Issue? && s.challenge == id)
      && One(id in u.answers) == One(id in t.answers) + One(on && s.Consume? && s.challenge == id)
      && One(id in u.answers && u.answers[id].Spent?)
         == One(id in t.answers && t.answers[id].Spent?) + One(on && IsUse(s) && s.challenge == id)
  {
  }

  /** Stored sessions, and requests that proved a credential, belong to enrolled credentials. */
  ghost predicate Enrolled(t: Tables) {
    && (forall token :: token in t.sessions ==> t.sessions[token].credential in t.credentials)
    && (forall id :: id in t.answers && t.answers[id].Proved? ==> t.answers[id].credential in t.credentials)
  }

  lemma {:induction false} StepKeepsEnrolled(settings: Settings, t: Tables, s: Step)
    requires Enrolled(t)
    ensures Enrolled(Apply(settings, t, s))
  {
  }

  /** On every run, the credential of every stored session is enrolled. */
  lemma {:induction false} SessionsAreEnrolled(settings: Settings, steps: seq<Step>)
    ensures Enrolled(Run(settings, EMPTY, steps))
  {
    hide Enrolled, Apply;
    if steps == [] {
      EmptyIsEnrolled();
    } else {
      SessionsAreEnrolled(settings, steps[..|steps| - 1]);
      StepKeepsEnrolled(settings, Run(settings, EMPTY, steps[..|steps| - 1]), steps[|steps| - 1]);
    }
  }

  lemma {:induction false} EmptyIsEnrolled()
    ensures Enrolled(EMPTY)
  {
  }

  // ---- lifetimes of grants and challenges ------------------------------------------------------

  /** The mint that a stored grant comes from. */
  predicate IsMint(s: Step, id: string, grant: Grant, settings: Settings) {
    && s.Mint? && s.grant == id && s.purpose == grant.purpose && settings.HasSecret(s.purpose)
    && grant.expiresAt == s.now + settings.GrantTtl(s.purpose) * SECOND
  }

  predicate IsIssue(s: Step, id: string, challenge: Challenge, settings: Settings) {
    && s.Issue? && s.challenge == id && s.kind == challenge.purpose && s.bound == challenge.grant
    && challenge.expiresAt == s.now + settings.challengeTtl * SECOND
  }

  ghost predicate GrantIsMinted(settings: Settings, steps: seq<Step>, id: string, grant: Grant) {
    exists i :: 0 <= i < |steps| && Happens(settings, EMPTY, steps, i) && IsMint(steps[i], id, grant, settings)
  }

  ghost predicate ChallengeIsIssued(settings: Settings, steps: seq<Step>, id: string, challenge: Challenge) {
    exists i :: 0 <= i < |steps| && Happens(settings, EMPTY, steps, i) && IsIssue(steps[i], id, challenge, settings)
  }

  lemma {:induction false} LastHappens(settings: Settings, steps: seq<Step>)
    requires steps != []
    requires Enabled(settings, Run(settings, EMPTY, steps[..|steps| - 1]), steps[|steps| - 1])
    ensures Happens(settings, EMPTY, steps, |steps| - 1)
  {
  }

  lemma {:induction false} HappensGrows(settings: Settings, t: Tables, steps: seq<Step>, s: Step, i: nat)
    requires i < |steps|
    ensures Happens(settings, t, steps + [s], i) == Happens(settings, t, steps, i)
    ensures (steps + [s])[i] == steps[i]
  {
    assert (steps + [s])[..i] == steps[..i];
  }

  lemma {:induction false} GrantsAreMinted(settings: Settings, steps: seq<Step>, id: string)
    requires id in Run(settings, EMPTY, steps).grants
    ensures GrantIsMinted(settings, steps, id, Run(settings, EMPTY, steps).grants[id])
    decreases |steps|
  {
    var init, s := steps[..|steps| - 1], steps[|steps| - 1];
    assert steps == init + [s];
    var u := Run(settings, EMPTY, init);
    var grant := Run(settings, EMPTY, steps).grants[id];
    hide Happens;
    if s.Mint? && s.grant == id && Enabled(settings, u, s) {
      LastHappens(settings, steps);
      assert IsMint(steps[|steps| - 1], id, grant, settings);
    } else {
      GrantsAreMinted(settings, init, id);
      var i :| 0 <= i < |init| && Happens(settings, EMPTY, init, i) && IsMint(init[i], id, grant, settings);
      HappensGrows(settings, EMPTY, init, s, i);
    }
  }

  lemma {:induction false} ChallengesAreIssued(settings: Settings, steps: seq<Step>, id: string)
    requires id in Run(settings, EMPTY, steps).challenges
    ensures ChallengeIsIssued(settings, steps, id, Run(settings, EMPTY, steps).challenges[id])
    decreases |steps|
  {
    var init, s := steps[..|steps| - 1], steps[|steps| - 1];
    assert steps == init + [s];
    var u := Run(settings, EMPTY, init);
    var challenge := Run(settings, EMPTY, steps).challenges[id];
    hide Happens;
    if s.Issue? && s.challenge == id && Enabled(settings, u, s) {
      LastHappens(settings, steps);
      assert IsIssue(steps[|steps| - 1], id, challenge, settings);
    } else {
      ChallengesAreIssued(settings, init, id);
      var i :| 0 <= i < |init| && Happens(settings, EMPTY, init, i) && IsIssue(init[i], id, challenge, settings);
      HappensGrows(settings, EMPTY, init, s, i);
    }
  }

  /** On every run, a credential is enrolled only against a grant that the host minted, for a
      purpose whose secret is configured, less than that purpose's lifetime ago. */
  lemma {:induction false} EnrolledGrantIsFresh(settings: Settings, steps: seq<Step>, s: Step)
    requires s.Enroll? && Enabled(settings, Run(settings, EMPTY, steps), s)
    ensures (exists i :: 0 <= i < |steps| && Happens(settings, EMPTY, steps, i)
               && steps[i].Mint? && steps[i].grant == s.grant && settings.HasSecret(steps[i].purpose)
               && s.now < steps[i].now + settings.GrantTtl(steps[i].purpose) * SECOND)
  {
    GrantsAreMinted(settings, steps, s.grant);
  }

  /** On every run, a challenge is consumed only for the purpose it was issued for, less than the
      challenge lifetime after it was issued. */
  lemma {:induction false} ConsumedChallengeIsFresh(settings: Settings, steps: seq<Step>, s: Step)
    requires s.Consume? && Enabled(settings, Run(settings, EMPTY, steps), s)
    ensures (exists i :: 0 <= i < |steps| && Happens(settings, EMPTY, steps, i)
               && steps[i].Issue? && steps[i].challenge == s.challenge && steps[i].kind == s.kind
               && s.now < steps[i].now + settings.challengeTtl * SECOND)
  {
    ChallengesAreIssued(settings, steps, s.challenge);
  }

  // ---- signature counters -----------------------------------------------------------------------

  /** The count of the last assertion of the credential that took effect. */
  function LastCount(settings: Settings, t: Tables, steps: seq<Step>, credential: string): Option<int> {
    if steps == [] then None
    else
      var init, last := steps[..|steps| - 1], steps[|steps| - 1];
      if last.Assert? && last.credential == credential && Enabled(settings, Run(settings, t, init), last)
      then Some(last.count) else LastCount(settings, t, init, credential)
  }

  /** The stored counter is the count of the last assertion, not the greatest. */
  lemma {:induction false} CounterIsLast(settings: Settings, t: Tables, steps: seq<Step>, credential: string)
    requires credential in t.credentials
    ensures var u := Run(settings, t, steps); var last := LastCount(settings, t, steps, credential);
      && credential in u.credentials
      && u.credentials[credential].signCount == if last.Some? then last.value else t.credentials[credential].signCount
  {
    hide Apply, Enabled;
    if steps != [] {
      var init, s := steps[..|steps| - 1], steps[|steps| - 1];
      CounterIsLast(settings, t, init, credential);
      StepOfCounter(settings, Run(settings, t, init), s, credential);
    }
  }

  lemma {:induction false} StepOfCounter(settings: Settings, t: Tables, s: Step, credential: string)
    requires credential in t.credentials
    ensures var u := Apply(settings, t, s);
      && credential in u.credentials
      && u.credentials[credential].signCount
         == if s.Assert? && s.credential == credential && Enabled(settings, t, s) then s.count
            else t.credentials[credential].signCount
  {
  }

  /** An assertion that was verified against a smaller stored count leaves a larger one than it finds
      exactly when the last assertion of that credential since then, if any, brought less. */
  lemma {:induction false} CounterAdvancesIff(settings: Settings, read: Tables, next: seq<Step>, s: Step)
    requires s.Assert? && s.credential in read.credentials
    requires read.credentials[s.credential].signCount < s.count
    requires Enabled(settings, Run(settings, read, next), s)
    ensures var found := Run(settings, read, next); var last := LastCount(settings, read, next, s.credential);
      var left := Apply(settings, found, s);
      && s.credential in left.credentials && left.credentials[s.credential].signCount == s.count
      && (found.credentials[s.credential].signCount < s.count <==> last.None? || last.value < s.count)
  {
    hide Run, LastCount;
    CounterIsLast(settings, read, next, s.credential);
    StepOfCounter(settings, Run(settings, read, next), s, s.credential);
  }

  /** Two requests that read the same counter, each verified above it: the second write takes the
      counter back from the higher count to the lower. */
  lemma {:induction false} CounterGoesBack(settings: Settings, read: Tables, high: Step, low: Step)
    requires high.Assert? && low.Assert? && high.challenge != low.challenge && high.credential == low.credential
    requires Enabled(settings, read, high) && Enabled(settings, read, low)
    requires read.credentials[low.credential].signCount < low.count < high.count
    ensures var found := Run(settings, read, [high]);
      && Enabled(settings, found, low)
      && found.credentials[low.credential].signCount == high.count
      && Apply(settings, found, low).credentials[low.credential].signCount == low.count < high.count
  {
    assert [high][..0] == [] && Run(settings, read, []) == read;
    assert Run(settings, read, [high]) == Apply(settings, read, high);
  }

  // ---- session lifetimes ----------------------------------------------------------------------------

  predicate IsLogin(s: Step, token: string, session: Session, settings: Settings) {
    && s.Login? && s.token == token
    && session.csrf == s.csrf && session.credential == s.credential && session.createdAt == s.now
    && session.absoluteExpiresAt == s.later + settings.absoluteTtl * SECOND
  }

  /** A login, refresh or reauthentication of the session at the given instant. */
  predicate IsActivity(s: Step, token: string, at: int) {
    || (s.Login? && s.token == token && s.now == at)
    || (s.Refresh? && s.token == token && s.later == at)
    || (s.Reauthenticate? && s.token == token && s.last == at)
  }

  /** A login or a reauthentication with the session's own credential at the given instant. */
  predicate IsProof(s: Step, token: string, credential: string, at: int) {
    || (s.Login? && s.token == token && s.credential == credential && s.now == at)
    || (s.Reauthenticate? && s.token == token && s.credential == credential && s.later == at)
  }

  /** A verified assertion of the credential, for a consumed challenge of the purpose. */
  predicate IsAssertion(s: Step, challenge: string, kind: ChallengePurpose, credential: string) {
    s.Assert? && s.challenge == challenge && s.kind == kind && s.credential == credential
  }

  ghost predicate WasAsserted(settings: Settings, steps: seq<Step>, challenge: string, kind: ChallengePurpose, credential: string) {
    exists i :: 0 <= i < |steps| && Happens(settings, EMPTY, steps, i) && IsAssertion(steps[i], challenge, kind, credential)
  }

  /** On every run, what a challenge is said to prove was asserted before. */
  lemma {:induction false} ProofsWereAsserted(settings: Settings, steps: seq<Step>, id: string)
    requires id in Run(settings, EMPTY, steps).answers && Run(settings, EMPTY, steps).answers[id].Proved?
    ensures var a := Run(settings, EMPTY, steps).answers[id]; WasAsserted(settings, steps, id, a.kind, a.credential)
    decreases |steps|
  {
    var init, s := steps[..|steps| - 1], steps[|steps| - 1];
    assert steps == init + [s];
    var u := Run(settings, EMPTY, init);
    var a := Run(settings, EMPTY, steps).answers[id];
    hide Happens;
    if s.Assert? && s.challenge == id && Enabled(settings, u, s) {
      LastHappens(settings, steps);
      assert IsAssertion(steps[|steps| - 1], id, a.kind, a.credential);
    } else {
      ProofsWereAsserted(settings, init, id);
      var i :| 0 <= i < |init| && Happens(settings, EMPTY, init, i) && IsAssertion(init[i], id, a.kind, a.credential);
      HappensGrows(settings, EMPTY, init, s, i);
    }
  }

  /** Every login and every reauthentication that took effect was preceded by a verified assertion
      of that credential, for a challenge of the purpose it names that served for nothing before. */
  lemma {:induction false} LoginsWereAsserted(settings: Settings, steps: seq<Step>, s: Step)
    requires (s.Login? || s.Reauthenticate?) && Enabled(settings, Run(settings, EMPTY, steps), s)
    ensures WasAsserted(settings, steps, s.challenge, if s.Login? then s.kind else Reauthentication, s.credential)
    ensures Uses(settings, EMPTY, steps, s.challenge) == 0
  {
    ProofsWereAsserted(settings, steps, s.challenge);
    ChallengesAreConserved(settings, steps, s.challenge);
  }

  /** The clocks that the last steps of a token set: the last login, refresh or reauthentication, and
      the last login or reauthentication. */
  datatype Clocks = Clocks(created: int, seen: int, proved: int, expires: int)

  function LastClocks(settings: Settings, t: Tables, steps: seq<Step>, token: string): Option<Clocks> {
    if steps == [] then None
    else
      var init, s := steps[..|steps| - 1], steps[|steps| - 1];
      var earlier := LastClocks(settings, t, init, token);
      if !Enabled(settings, Run(settings, t, init), s) then earlier
      else if s.Login? && s.token == token then
        Some(Clocks(s.now, s.now, s.now, s.later + settings.absoluteTtl * SECOND))
      else if s.Logout? && s.token == token then None
      else if earlier.None? then None
      else if s.Refresh? && s.token == token then Some(earlier.value.(seen := s.later))
      else if s.Reauthenticate? && s.token == token then Some(earlier.value.(seen := s.last, proved := s.later))
      else earlier
  }

  /** Over every run, a session is stored exactly when its token logged in and has not logged out
      since, and its clocks are those of the last steps that set them. */
  lemma {:induction false} SessionClocksAreLast(settings: Settings, steps: seq<Step>, token: string)
    ensures var t := Run(settings, EMPTY, steps); var last := LastClocks(settings, EMPTY, steps, token);
      && (token in t.sessions <==> last.Some?)
      && (last.Some? ==>
            var x := t.sessions[token];
            last.value == Clocks(x.createdAt, x.lastSeen, x.recentReauth, x.absoluteExpiresAt))
  {
    if steps != [] {
      var init, s := steps[..|steps| - 1], steps[|steps| - 1];
      SessionClocksAreLast(settings, init, token);
      hide Run;
      StepOfSession(settings, Run(settings, EMPTY, init), s, token);
      assert Run(settings, EMPTY, steps) == Apply(settings, Run(settings, EMPTY, init), s) by { RunNext(settings, EMPTY, steps); }
    }
  }

  lemma {:induction false} RunNext(settings: Settings, t: Tables, steps: seq<Step>)
    requires steps != []
    ensures Run(settings, t, steps) == Apply(settings, Run(settings, t, steps[..|steps| - 1]), steps[|steps| - 1])
  {
  }

  /** What one step does to the session of a token. */
  lemma {:induction false} StepOfSession(settings: Settings, t: Tables, s: Step, token: string)
    ensures var u := Apply(settings, t, s);
      if !Enabled(settings, t, s) then u == t
      else if s.Login? && s.token == token then
        && token in u.sessions
        && u.sessions[token] == Session(s.csrf, s.credential, s.now, s.now, s.now, s.later + settings.absoluteTtl * SECOND)
      else if s.Logout? && s.token == token then token !in u.sessions
      else
        && (token in u.sessions <==> token in t.sessions)
        && (token in t.sessions ==>
              u.sessions[token] ==
                if s.Refresh? && s.token == token then t.sessions[token].(lastSeen := s.later)
                else if s.Reauthenticate? && s.token == token
                then t.sessions[token].(recentReauth := s.later, lastSeen := s.last)
                else t.sessions[token])
  {
  }

  /** What the steps that took effect say about a stored session. */
  ghost predicate Explained(settings: Settings, steps: seq<Step>, token: string, session: Session) {
    && (exists i :: 0 <= i < |steps| && Happens(settings, EMPTY, steps, i) && IsLogin(steps[i], token, session, settings))
    && (exists i :: 0 <= i < |steps| && Happens(settings, EMPTY, steps, i) && IsActivity(steps[i], token, session.lastSeen))
    && (exists i :: 0 <= i < |steps| && Happens(settings, EMPTY, steps, i)
          && IsProof(steps[i], token, session.credential, session.recentReauth))
  }

  lemma {:induction false} ExplainedGrows(settings: Settings, steps: seq<Step>, s: Step, token: string, session: Session)
    requires Explained(settings, steps, token, session)
    ensures Explained(settings, steps + [s], token, session)
  {
    hide Happens, IsLogin, IsActivity, IsProof;
    var i :| 0 <= i < |steps| && Happens(settings, EMPTY, steps, i) && IsLogin(steps[i], token, session, settings);
    var j :| 0 <= j < |steps| && Happens(settings, EMPTY, steps, j) && IsActivity(steps[j], token, session.lastSeen);
    var k :| 0 <= k < |steps| && Happens(settings, EMPTY, steps, k)
      && IsProof(steps[k], token, session.credential, session.recentReauth);
    HappensGrows(settings, EMPTY, steps, s, i);
    HappensGrows(settings, EMPTY, steps, s, j);
    HappensGrows(settings, EMPTY, steps, s, k);
  }

  /** A request in flight carries the credential of the session that its token names. */
  ghost predicate Matches(t: Tables) {
    forall p :: p in t.inFlight && p.0 in t.sessions ==> t.sessions[p.0].credential == p.1
  }

  lemma {:induction false} RequestsMatch(settings: Settings, steps: seq<Step>)
    ensures Matches(Run(settings, EMPTY, steps))
  {
    if steps != [] {
      RequestsMatch(settings, steps[..|steps| - 1]);
      StepKeepsMatch(settings, Run(settings, EMPTY, steps[..|steps| - 1]), steps[|steps| - 1]);
    }
  }

  lemma {:induction false} StepKeepsMatch(settings: Settings, t: Tables, s: Step)
    requires Matches(t)
    ensures Matches(Apply(settings, t, s))
  {
  }

  /** The step that changed a session explains its new clocks; the rest was explained before. */
  lemma {:induction false} ChangeIsExplained(settings: Settings, steps: seq<Step>, s: Step, token: string)
    requires var u := Run(settings, EMPTY, steps); Enabled(settings, u, s)
    requires s.Login? || s.Refresh? || s.Reauthenticate?
    requires s.token == token
    requires var u := Run(settings, EMPTY, steps);
      token in u.sessions ==> Explained(settings, steps, token, u.sessions[token])
    ensures var u := Apply(settings, Run(settings, EMPTY, steps), s);
      token in u.sessions && Explained(settings, steps + [s], token, u.sessions[token])
  {
    RequestsMatch(settings, steps);
    var u, all := Run(settings, EMPTY, steps), steps + [s];
    assert all[..|steps|] == steps && all[|steps|] == s;
    assert Happens(settings, EMPTY, all, |steps|);
    var after := Apply(settings, u, s).sessions[token];
    if !s.Login? {
      var before := u.sessions[token];
      ExplainedGrows(settings, steps, s, token, before);
      var i :| 0 <= i < |all| && Happens(settings, EMPTY, all, i) && IsLogin(all[i], token, before, settings);
      assert IsLogin(all[i], token, after, settings);
    } else {
      assert IsLogin(all[|steps|], token, after, settings);
    }
    assert IsActivity(all[|steps|], token, after.lastSeen);
    if !s.Refresh? {
      assert IsProof(all[|steps|], token, after.credential, after.recentReauth);
    }
  }

  /** Over every run from empty tables, each stored session is explained by its history. */
  lemma {:induction false} SessionsAreExplained(settings: Settings, steps: seq<Step>, token: string)
    requires token in Run(settings, EMPTY, steps).sessions
    ensures Explained(settings, steps, token, Run(settings, EMPTY, steps).sessions[token])
    decreases |steps|
  {
    hide Explained;
    var init, s := steps[..|steps| - 1], steps[|steps| - 1];
    assert steps == init + [s];
    var u := Run(settings, EMPTY, init);
    if token in u.sessions {
      SessionsAreExplained(settings, init, token);
    }
    if Enabled(settings, u, s) && (s.Login? || s.Refresh? || s.Reauthenticate?) && s.token == token {
      ChangeIsExplained(settings, init, s, token);
    } else {
      ExplainedGrows(settings, init, s, token, u.sessions[token]);
    }
  }

  /** A check that took effect as step i: the session was live then, and the CSRF token its own. */
  ghost predicate IsCheck(settings: Settings, steps: seq<Step>, i: nat, token: string, credential: string)
    requires i < |steps|
  {
    var s, t := steps[i], Run(settings, EMPTY, steps[..i]);
    && s.Authorize? && s.token == token && token in t.sessions
    && Active(t.sessions[token], settings, s.now, s.idle)
    && t.sessions[token].csrf == s.csrf && t.sessions[token].credential == credential
  }

  /** A request comes in flight by a check that takes effect, and stays there. */
  lemma {:induction false} StepOfRequests(settings: Settings, t: Tables, s: Step)
    ensures t.inFlight <= Apply(settings, t, s).inFlight
    ensures forall p :: p in Apply(settings, t, s).inFlight && p !in t.inFlight ==>
      s.Authorize? && Enabled(settings, t, s) && p == (s.token, t.sessions[s.token].credential)
  {
  }

  lemma {:induction false} RequestsWereChecked(settings: Settings, steps: seq<Step>, token: string, credential: string)
    requires (token, credential) in Run(settings, EMPTY, steps).inFlight
    ensures exists i :: 0 <= i < |steps| && IsCheck(settings, steps, i, token, credential)
  {
    hide Apply;
    var init, s := steps[..|steps| - 1], steps[|steps| - 1];
    var u := Run(settings, EMPTY, init);
    StepOfRequests(settings, u, s);
    if (token, credential) in u.inFlight {
      RequestsWereChecked(settings, init, token, credential);
      var i :| 0 <= i < |init| && IsCheck(settings, init, i, token, credential);
      assert init[..i] == steps[..i];
      assert IsCheck(settings, steps, i, token, credential);
    } else {
      assert IsCheck(settings, steps, |init|, token, credential);
    }
  }

  /** On every run, a write that advances a session's clocks was preceded by a check of that token
      at which the session was live, and carries the credential that the session still has. */
  lemma {:induction false} WritesWereChecked(settings: Settings, steps: seq<Step>, s: Step)
    requires (s.Refresh? || s.Reauthenticate?) && Enabled(settings, Run(settings, EMPTY, steps), s)
    ensures Run(settings, EMPTY, steps).sessions[s.token].credential == s.credential
    ensures exists i :: 0 <= i < |steps| && IsCheck(settings, steps, i, s.token, s.credential)
  {
    RequestsMatch(settings, steps);
    RequestsWereChecked(settings, steps, s.token, s.credential);
  }

  /** Every clock value a step read, and those of one step in order. */
  predicate ReadsBefore(s: Step, now: int) {
    match s
    case Login(_, _, _, _, _, first, later) => first <= later <= now
    case Refresh(_, _, later) => later <= now
    case Reauthenticate(_, _, _, later, last) => later <= last <= now
    case _ => true
  }

  /** `require_session`, with the clock read once per test. */
  predicate Accepts(settings: Settings, t: Tables, token: string, recent: bool, absolute: int, idle: int, reauth: int) {
    && token != "" && token in t.sessions
    && Active(t.sessions[token], settings, absolute, idle)
    && (recent ==> !Expired(t.sessions[token].recentReauth + settings.recencyTtl * SECOND, reauth))
  }

  /** A login or reauthentication that took effect as step i, after a verified assertion of the
      credential for the challenge that it names. */
  ghost predicate IsProvedAt(settings: Settings, steps: seq<Step>, i: nat, token: string, credential: string, at: int)
    requires i < |steps|
  {
    var s := steps[i];
    && Happens(settings, EMPTY, steps, i) && IsProof(s, token, credential, at)
    && WasAsserted(settings, steps[..i], s.challenge, if s.Login? then s.kind else Reauthentication, credential)
  }

  lemma {:induction false} ProofIsProved(settings: Settings, steps: seq<Step>, i: nat, token: string, credential: string, at: int)
    requires i < |steps| && Happens(settings, EMPTY, steps, i) && IsProof(steps[i], token, credential, at)
    ensures IsProvedAt(settings, steps, i, token, credential, at)
  {
    LoginsWereAsserted(settings, steps[..i], steps[i]);
  }

  /** On every run with a monotone clock, an accepted session was opened by a login that took
      effect and is used strictly before that login's expiry reading plus the absolute lifetime,
      whatever refreshes and reauthentications followed; it was active within the idle lifetime;
      and if recency was demanded, its own credential, by a verified assertion, was proved within
      the recency lifetime. The credential is enrolled. */
  lemma {:induction false} AcceptedSessionIsLive(settings: Settings, steps: seq<Step>, token: string, recent: bool,
                                                 absolute: int, idle: int, reauth: int)
    requires absolute <= idle <= reauth
    requires forall i :: 0 <= i < |steps| ==> ReadsBefore(steps[i], absolute)
    requires Accepts(settings, Run(settings, EMPTY, steps), token, recent, absolute, idle, reauth)
    ensures var session := Run(settings, EMPTY, steps).sessions[token];
      && session.credential in Run(settings, EMPTY, steps).credentials
      && (exists i :: 0 <= i < |steps| && IsProvedAt(settings, steps, i, token, session.credential, session.createdAt)
            && IsLogin(steps[i], token, session, settings)
            && steps[i].now <= steps[i].later <= absolute < steps[i].later + settings.absoluteTtl * SECOND)
      && (exists i :: 0 <= i < |steps| && Happens(settings, EMPTY, steps, i)
            && IsActivity(steps[i], token, session.lastSeen)
            && session.lastSeen <= idle < session.lastSeen + settings.idleTtl * SECOND)
      && (recent ==>
            (exists i :: 0 <= i < |steps|
               && IsProvedAt(settings, steps, i, token, session.credential, session.recentReauth)
               && session.recentReauth <= reauth < session.recentReauth + settings.recencyTtl * SECOND))
  {
    hide Happens, Run, IsProvedAt;
    SessionsAreExplained(settings, steps, token);
    SessionsAreEnrolled(settings, steps);
    var session := Run(settings, EMPTY, steps).sessions[token];
    var i :| 0 <= i < |steps| && Happens(settings, EMPTY, steps, i) && IsLogin(steps[i], token, session, settings);
    var j :| 0 <= j < |steps| && Happens(settings, EMPTY, steps, j) && IsActivity(steps[j], token, session.lastSeen);
    var k :| 0 <= k < |steps| && Happens(settings, EMPTY, steps, k)
      && IsProof(steps[k], token, session.credential, session.recentReauth);
    ProofIsProved(settings, steps, i, token, session.credential, session.createdAt);
    ProofIsProved(settings, steps, k, token, session.credential, session.recentReauth);
    assert ReadsBefore(steps[i], absolute) && ReadsBefore(steps[j], absolute) && ReadsBefore(steps[k], absolute);
  }

  /** On every run, a session is accepted exactly when its token logged in and has not logged out
      since, before the expiry that its last login fixed, within the idle lifetime of its last login,
      refresh or reauthentication, and, if recency is demanded, within the recency lifetime of its
      last login or reauthentication. */
  lemma {:induction false} AcceptedIff(settings: Settings, steps: seq<Step>, token: string, recent: bool,
                                       absolute: int, idle: int, reauth: int)
    ensures var last := LastClocks(settings, EMPTY, steps, token);
      Accepts(settings, Run(settings, EMPTY, steps), token, recent, absolute, idle, reauth) <==>
      && token != "" && last.Some?
      && absolute < last.value.expires
      && idle < last.value.seen + settings.idleTtl * SECOND
      && (recent ==> reauth < last.value.proved + settings.recencyTtl * SECOND)
  {
    hide Run, LastClocks;
    SessionClocksAreLast(settings, steps, token);
  }

  /** A change of a session needs the token, a live session, and that session's CSRF token. */
  lemma {:induction false} MayMutateIff(settings: Settings, t: Tables, token: string, csrf: string, now: int, idle: int)
    ensures MayMutate(settings, t, token, csrf, now, idle) <==>
      && token != "" && csrf != "" && token in t.sessions && t.sessions[token].csrf == csrf
      && now < t.sessions[token].absoluteExpiresAt && idle < t.sessions[token].lastSeen + settings.idleTtl * SECOND
  {
  }

  /** The saved `created_at` bounds the lifetime exactly when the two clock reads of the login
      agree: the expiry is computed from a later read. */
  lemma {:induction false} CreationBoundsLifetimeIff(settings: Settings, t: Tables, s: Step)
    requires s.Login? && Enabled(settings, t, s) && s.now <= s.later
    ensures var session := Apply(settings, t, s).sessions[s.token];
      (forall now :: !Expired(session.absoluteExpiresAt, now) ==> now < session.createdAt + settings.absoluteTtl * SECOND)
      <==> s.now == s.later
  {
    var session := Apply(settings, t, s).sessions[s.token];
    if s.now < s.later {
      assert !Expired(session.absoluteExpiresAt, session.createdAt + settings.absoluteTtl * SECOND);
    }
  }

  /** `_cookie_max_age_seconds`: whole seconds, never past the expiry. */
  function CookieAge(expiresAt: int, now: int): (age: nat)
    ensures age > 0 ==> now + age * SECOND <= expiresAt
    ensures expiresAt < now + (age + 1) * SECOND
  {
    if expiresAt > now then (expiresAt - now) / SECOND else 0
  }

  // ---- the authenticator --------------------------------------------------------------------------------

  datatype Reply<T> = Done(value: T) | Denied

  lemma {:induction false} RequestsStay(settings: Settings, t: Tables, steps: seq<Step>, request: (string, string))
    requires request in t.inFlight
    ensures request in Run(settings, t, steps).inFlight
  {
    hide Apply;
    if steps != [] {
      RequestsStay(settings, t, steps[..|steps| - 1], request);
      StepOfRequests(settings, Run(settings, t, steps[..|steps| - 1]), steps[|steps| - 1]);
    }
  }

  /** Transactions of requests that did not consume the challenge. */
  predicate Leave(steps: seq<Step>, challenge: string) {
    forall k :: 0 <= k < |steps| ==> !((IsUse(steps[k]) || steps[k].Assert?) && steps[k].challenge == challenge)
  }

  lemma {:induction false} AnswerStays(settings: Settings, t: Tables, steps: seq<Step>, challenge: string)
    requires challenge in t.answers && challenge !in t.challenges && Leave(steps, challenge)
    ensures var u := Run(settings, t, steps);
      challenge !in u.challenges && Stands(u, challenge, t.answers[challenge])
  {
    hide Enabled, Apply;
    if steps != [] {
      var init := steps[..|steps| - 1];
      AnswerStays(settings, t, init, challenge);
      assert !((IsUse(steps[|init|]) || steps[|init|].Assert?) && steps[|init|].challenge == challenge);
      AnswerStaysOnce(settings, Run(settings, t, init), steps[|init|], challenge);
    }
  }

  lemma {:induction false} AnswerStaysOnce(settings: Settings, t: Tables, s: Step, challenge: string)
    requires challenge in t.answers && challenge !in t.challenges
    requires !((IsUse(s) || s.Assert?) && s.challenge == challenge)
    ensures var u := Apply(settings, t, s); challenge !in u.challenges && Stands(u, challenge, t.answers[challenge])
  {
  }

  /** Credentials are never removed. */
  lemma {:induction false} CredentialStays(settings: Settings, t: Tables, steps: seq<Step>, credential: string)
    requires credential in t.credentials
    ensures credential in Run(settings, t, steps).credentials
  {
    hide Apply, Enabled;
    if steps != [] {
      CredentialStays(settings, t, steps[..|steps| - 1], credential);
      CredentialStaysOnce(settings, Run(settings, t, steps[..|steps| - 1]), steps[|steps| - 1], credential);
    }
  }

  lemma {:induction false} CredentialStaysOnce(settings: Settings, t: Tables, s: Step, credential: string)
    requires credential in t.credentials
    ensures credential in Apply(settings, t, s).credentials
  {
  }

  /** The challenge of a request that got as far as its proof is no longer stored. */
  lemma {:induction false} ConsumedIsGone(settings: Settings, t: Tables, consume: Step, gap: seq<Step>, next: seq<Step>, proof: Step)
    requires consume.Consume? && Enabled(settings, t, consume) && proof.Assert?
    requires Leave(gap, consume.challenge) && Leave(next, consume.challenge)
    ensures consume.challenge !in
      Apply(settings, Run(settings, Run(settings, Apply(settings, t, consume), gap), next), proof).challenges
  {
    var consumed := Apply(settings, t, consume);
    AnswerStays(settings, consumed, gap, consume.challenge);
    AnswerStays(settings, Run(settings, consumed, gap), next, consume.challenge);
  }

  class PasskeyAuthenticator {
    const settings: Settings
    var grants: map<string, Grant>
    var challenges: map<string, Challenge>
    var credentials: map<string, Credential>
    var sessions: map<string, Session>
    var answers: map<string, Answer>
    var inFlight: set<(string, string)>

    function State(): Tables
      reads this
    {
      Tables(grants, challenges, credentials, sessions, answers, inFlight)
    }

    constructor (settings: Settings)
      ensures this.settings == settings && State() == EMPTY
    {
      this.settings := settings;
      grants, challenges, credentials, sessions := map[], map[], map[], map[];
      answers, inFlight := map[], {};
    }

    /** Transactions of other requests. */
    method Interleave(gap: seq<Step>)
      modifies this
      ensures State() == Run(settings, old(State()), gap)
    {
      var t := Run(settings, State(), gap);
      grants, challenges, credentials, sessions := t.grants, t.challenges, t.credentials, t.sessions;
      answers, inFlight := t.answers, t.inFlight;
    }

    method CreateHostConsoleGrant(purpose: GrantPurpose, token: string, now: int) returns (r: Reply<string>)
      modifies this`grants
      ensures State() == Apply(settings, old(State()), Mint(purpose, token, now))
      ensures r == if settings.HasSecret(purpose) && token !in old(grants) then Done(token) else Denied
      ensures r.Done? && purpose == Bootstrap ==>
        settings.bootstrapSecret && grants == old(grants)[token := Grant(Bootstrap, now + settings.bootstrapTtl * SECOND)]
      ensures r.Done? && purpose == Recovery ==>
        settings.recoverySecret && grants == old(grants)[token := Grant(Recovery, now + settings.recoveryTtl * SECOND)]
    {
      if !settings.HasSecret(purpose) || token in grants {
        return Denied;
      }
      grants := grants[token := Grant(purpose, now + settings.GrantTtl(purpose) * SECOND)];
      r := Done(token);
    }

    method SaveChallenge(kind: ChallengePurpose, id: string, bound: Option<string>, now: int) returns (r: Reply<string>)
      modifies this`challenges
      ensures State() == Apply(settings, old(State()), Issue(kind, id, bound, now))
      ensures r == if id in old(challenges) || id in old(answers) then Denied else Done(id)
      ensures r.Done? ==>
        challenges == old(challenges)[id := Challenge(kind, bound, now + settings.challengeTtl * SECOND)]
    {
      if id in challenges || id in answers {
        return Denied;
      }
      challenges := challenges[id := Challenge(kind, bound, now + settings.challengeTtl * SECOND)];
      r := Done(id);
    }

    /** A challenge is issued exactly against a grant that is active at the first clock read. */
    method RegistrationOptions(grant: string, id: string, now: int, gap: seq<Step>, later: int) returns (r: Reply<string>)
      modifies this
      ensures var between := Run(settings, old(State()), gap); var issue := Issue(Registration, id, Some(grant), later);
        if grant in old(grants) && !Expired(old(grants)[grant].expiresAt, now) then
          && State() == Apply(settings, between, issue)
          && (r.Done? <==> Enabled(settings, between, issue))
        else r == Denied && State() == old(State())
    {
      if grant !in grants || Expired(grants[grant].expiresAt, now) {
        return Denied;
      }
      Interleave(gap);
      r := SaveChallenge(Registration, id, Some(grant), later);
    }

    method ConsumeChallenge(id: string, kind: ChallengePurpose, now: int) returns (r: Reply<Challenge>)
      modifies this`challenges, this`answers
      ensures State() == Apply(settings, old(State()), Consume(id, kind, now))
      ensures r.Done? <==> Enabled(settings, old(State()), Consume(id, kind, now))
      ensures r.Done? <==> id in old(challenges) && old(challenges)[id].purpose == kind && now < old(challenges)[id].expiresAt
      ensures r.Done? ==> r.value == old(challenges)[id] && challenges == old(challenges) - {id}
    {
      if id !in challenges || challenges[id].purpose != kind || Expired(challenges[id].expiresAt, now) {
        return Denied;
      }
      r := Done(challenges[id]);
      answers := answers[id := Open(kind, challenges[id].grant)];
      challenges := challenges - {id};
    }

    /** A challenge that is accepted is used up whatever follows; the grant and the credential move
        together, exactly after a verified response for a grant that is still active. */
    method RegistrationVerify(id: string, verified: bool, credential: string, key: string, count: int,
                              now: int, gap: seq<Step>, later: int) returns (r: Reply<()>)
      requires Leave(gap, id)
      modifies this
      ensures var consume := Consume(id, Registration, now); var consumed := Apply(settings, old(State()), consume);
        if !Enabled(settings, old(State()), consume) then r == Denied && State() == old(State())
        else
          && id !in challenges
          && var bound := old(challenges)[id].grant;
          if bound.None? || !verified then
            r == Denied && State() == consumed && grants == old(grants) && credentials == old(credentials)
          else
            var between := Run(settings, consumed, gap);
            var enroll := Enroll(id, bound.value, credential, key, count, later);
            && (r.Done? <==> bound.value in between.grants && !Expired(between.grants[bound.value].expiresAt, later)
                             && credential !in between.credentials)
            && (r.Done? <==> Enabled(settings, between, enroll))
            && State() == Apply(settings, between, enroll)
            && (r.Done? ==>
                  && grants == between.grants - {bound.value}
                  && credentials == between.credentials[credential := Credential(key, count)]
                  && (challenges, sessions) == (between.challenges, between.sessions))
            && (r.Denied? ==> State() == between)
    {
      var challenge := ConsumeChallenge(id, Registration, now);
      if challenge.Denied? || challenge.value.grant.None? || !verified {
        return Denied;
      }
      var grant := challenge.value.grant.value;
      AnswerStays(settings, State(), gap, id);
      Interleave(gap);
      if grant !in grants || Expired(grants[grant].expiresAt, later) || credential in credentials {
        return Denied;
      }
      grants := grants - {grant};
      credentials := credentials[credential := Credential(key, count)];
      answers := answers[id := Spent];
      r := Done(());
    }

    method AuthenticationOptions(kind: ChallengePurpose, id: string, gap: seq<Step>, now: int) returns (r: Reply<string>)
      modifies this
      ensures var between := Run(settings, old(State()), gap); var issue := Issue(kind, id, None, now);
        if old(credentials) == map[] then r == Denied && State() == old(State())
        else State() == Apply(settings, between, issue) && (r.Done? <==> Enabled(settings, between, issue))
    {
      if credentials == map[] {
        return Denied;
      }
      Interleave(gap);
      r := SaveChallenge(kind, id, None, now);
    }

    /** Consume the challenge, read the credential, verify, and update: three transactions, with
        those of others between them. The counter of a known credential is set to the verified count
        exactly with a response that verifies against what was read. */
    method VerifyAssertion(id: string, kind: ChallengePurpose, credential: string, verified: bool, count: int,
                           now: int, gap: seq<Step>, next: seq<Step>) returns (r: Reply<string>)
      requires Leave(gap, id) && Leave(next, id)
      modifies this
      ensures var consume := Consume(id, kind, now);
        var read := Run(settings, Apply(settings, old(State()), consume), gap);
        if !Enabled(settings, old(State()), consume) then r == Denied && State() == old(State())
        else if credential in read.credentials && verified then
          && r == Done(credential)
          && State() == Apply(settings, Run(settings, read, next), Assert(id, kind, credential, count))
          && credential in Run(settings, read, next).credentials
          && credentials == Run(settings, read, next).credentials
               [credential := Run(settings, read, next).credentials[credential].(signCount := count)]
          && Stands(State(), id, Proved(kind, credential))
        else
          r == Denied && State() == read
    {
      var challenge := ConsumeChallenge(id, kind, now);
      if challenge.Denied? {
        return Denied;
      }
      AnswerStays(settings, State(), gap, id);
      Interleave(gap);
      if credential !in credentials || !verified {
        return Denied;
      }
      AnswerStays(settings, State(), next, id);
      CredentialStays(settings, State(), next, credential);
      Interleave(next);
      credentials := credentials[credential := credentials[credential].(signCount := count)];
      answers := answers[id := Proved(kind, credential)];
      r := Done(credential);
    }

    /** `_create_session` for a proved credential; it reads the clock twice. */
    method CreateSession(kind: ChallengePurpose, id: string, credential: string, token: string, csrf: string,
                         now: int, later: int) returns (r: Reply<string>)
      requires Stands(State(), id, Proved(kind, credential))
      modifies this`sessions, this`answers
      ensures State() == Apply(settings, old(State()), Login(kind, id, token, csrf, credential, now, later))
      ensures r == if IsNewToken(old(State()), token) then Done(token) else Denied
      ensures r.Done? ==>
        sessions == old(sessions)[token := Session(csrf, credential, now, now, now, later + settings.absoluteTtl * SECOND)]
    {
      if !IsNewToken(State(), token) {
        return Denied;
      }
      sessions := sessions[token :=
        Session(csrf, credential, now, now, now, later + settings.absoluteTtl * SECOND)];
      answers := answers[id := Spent];
      r := Done(token);
    }

    /** `authentication_verify`: a session exactly for a verified assertion of an enrolled
        credential against a live challenge of the given purpose. */
    method AuthenticationVerify(kind: ChallengePurpose, id: string, credential: string, verified: bool, count: int,
                                token: string, csrf: string, now: int, gap: seq<Step>, next: seq<Step>,
                                last: seq<Step>, created: int, later: int) returns (r: Reply<string>)
      requires Leave(gap, id) && Leave(next, id) && Leave(last, id)
      modifies this
      ensures var consume := Consume(id, kind, now);
        var read := Run(settings, Apply(settings, old(State()), consume), gap);
        var proved := Apply(settings, Run(settings, read, next), Assert(id, kind, credential, count));
        var between := Run(settings, proved, last);
        if !Enabled(settings, old(State()), consume) then r == Denied && State() == old(State())
        else if !verified || credential !in read.credentials then r == Denied && State() == read
        else
          && (r.Done? <==> IsNewToken(between, token))
          && State() == Apply(settings, between, Login(kind, id, token, csrf, credential, created, later))
          && (r.Done? ==> token in sessions && sessions[token].credential == credential)
    {
      ghost var before := State();
      r := VerifyAssertion(id, kind, credential, verified, count, now, gap, next);
      if r.Done? {
        assert id !in challenges by {
          ConsumedIsGone(settings, before, Consume(id, kind, now), gap, next, Assert(id, kind, credential, count));
        }
        AnswerStays(settings, State(), last, id);
        Interleave(last);
        r := CreateSession(kind, id, credential, token, csrf, created, later);
      }
    }

    /** Returns the credential and a cookie lifetime that never outlives the session. */
    method RequireSession(token: string, recent: bool, absolute: int, idle: int, reauth: int, cookie: int)
      returns (r: Reply<(string, nat)>)
      ensures r.Done? <==> Accepts(settings, State(), token, recent, absolute, idle, reauth)
      ensures r.Done? ==>
        r.value == (sessions[token].credential, CookieAge(sessions[token].absoluteExpiresAt, cookie))
    {
      if token == "" || token !in sessions || !Active(sessions[token], settings, absolute, idle)
         || (recent && Expired(sessions[token].recentReauth + settings.recencyTtl * SECOND, reauth)) {
        return Denied;
      }
      r := Done((sessions[token].credential, CookieAge(sessions[token].absoluteExpiresAt, cookie)));
    }

    /** `require_mutable_session`: the check alone, in a transaction of its own. */
    method RequireMutableSession(token: string, csrf: string, now: int, idle: int, cookie: int)
      returns (r: Reply<(string, nat)>)
      modifies this`inFlight
      ensures State() == Apply(settings, old(State()), Authorize(token, csrf, now, idle))
      ensures r == if MayMutate(settings, old(State()), token, csrf, now, idle)
                   then Done((sessions[token].credential, CookieAge(sessions[token].absoluteExpiresAt, cookie)))
                   else Denied
    {
      if token == "" || csrf == "" || token !in sessions || !Active(sessions[token], settings, now, idle)
         || sessions[token].csrf != csrf {
        return Denied;
      }
      inFlight := inFlight + {(token, sessions[token].credential)};
      r := Done((sessions[token].credential, CookieAge(sessions[token].absoluteExpiresAt, cookie)));
    }

    /** The check, whatever other requests do next, and then the write. */
    method RefreshSession(token: string, csrf: string, now: int, idle: int, cookie: int, gap: seq<Step>, later: int)
      returns (r: Reply<(string, nat)>)
      modifies this
      ensures var check := Authorize(token, csrf, now, idle);
        if !Enabled(settings, old(State()), check) then r == Denied && State() == old(State())
        else
          var between := Run(settings, Apply(settings, old(State()), check), gap);
          var credential := old(State()).sessions[token].credential;
          && r.Done? && r.value.0 == credential
          && State() == Apply(settings, between, Refresh(token, credential, later))
          && State() == between.(sessions := if token !in between.sessions then between.sessions
               else between.sessions[token := between.sessions[token].(lastSeen := later)])
    {
      r := RequireMutableSession(token, csrf, now, idle, cookie);
      if r.Done? {
        ghost var checked := State();
        Interleave(gap);
        RequestsStay(settings, checked, gap, (token, r.value.0));
        if token in sessions {
          sessions := sessions[token := sessions[token].(lastSeen := later)];
        }
      }
    }

    /** The request that proved the credential marks the session recent, if it is that session's. */
    method ReauthenticateSession(id: string, token: string, csrf: string, credential: string, now: int, idle: int,
                                 cookie: int, gap: seq<Step>, later: int, last: int)
      returns (r: Reply<(string, nat)>)
      requires Stands(State(), id, Proved(Reauthentication, credential)) && id !in challenges
      requires Leave(gap, id)
      modifies this
      ensures var check := Authorize(token, csrf, now, idle);
        var checked := Apply(settings, old(State()), check);
        if !Enabled(settings, old(State()), check) then r == Denied && State() == old(State())
        else if old(State()).sessions[token].credential != credential then r == Denied && State() == checked
        else
          var between := Run(settings, checked, gap);
          && r.Done? && r.value.0 == credential
          && State() == Apply(settings, between, Reauthenticate(id, token, credential, later, last))
          && sessions == (if token !in between.sessions then between.sessions
               else between.sessions[token := between.sessions[token].(recentReauth := later, lastSeen := last)])
          && (grants, challenges, credentials) == (between.grants, between.challenges, between.credentials)
    {
      r := RequireMutableSession(token, csrf, now, idle, cookie);
      if r.Done? && r.value.0 != credential {
        return Denied;
      }
      if r.Done? {
        ghost var checked := State();
        Interleave(gap);
        RequestsStay(settings, checked, gap, (token, r.value.0));
        AnswerStays(settings, checked, gap, id);
        if token in sessions {
          sessions := sessions[token := sessions[token].(recentReauth := later, lastSeen := last)];
          answers := answers[id := Spent];
        }
      }
    }

    method EndSession(token: string, csrf: string, now: int, idle: int) returns (r: Reply<()>)
      modifies this`sessions
      ensures State() == Apply(settings, old(State()), Logout(token, csrf, now, idle))
      ensures r.Done? <==> Enabled(settings, old(State()), Logout(token, csrf, now, idle))
      ensures sessions == if r.Done? then old(sessions) - {token} else old(sessions)
    {
      if token == "" || csrf == "" || token !in sessions || !Active(sessions[token], settings, now, idle)
         || sessions[token].csrf != csrf {
        return Denied;
      }
      sessions := sessions - {token};
      r := Done(());
    }
  }
}
