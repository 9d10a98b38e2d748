/**
 * What holds of refresh tokens however the statements of concurrent refreshes interleave.
 */
module RefreshRuns {
  import opened Prelude
  import opened RefreshTokens

  // ----- one live token per family

  predicate Succeeds(rows: seq<Token>, s: Id, t: Id) {
    s < t < |rows| && rows[s].family == rows[t].family
  }

  predicate AllRotated(rows: seq<Token>, family: Id) {
    forall t :: 0 <= t < |rows| && rows[t].family == family ==> rows[t].rotatedAt.Some?
  }

  /**
   * A family is a chain: every token but the newest is rotated, and the newest too while its
   * successor is being issued.
   */
  ghost predicate Chained(w: World) {
    && (forall i :: 0 <= i < |w.rows| ==> w.rows[i].family <= i)
    && (forall s: Id, t: Id :: Succeeds(w.rows, s, t) ==> w.rows[s].rotatedAt.Some?)
    && (forall p: nat :: At(w, p).Issuing? ==> At(w, p).family < |w.rows| && AllRotated(w.rows, At(w, p).family))
    && (forall p: nat, q: nat :: At(w, p).Issuing? && At(w, q).Issuing? && At(w, p).family == At(w, q).family ==>
          p == q)
  }

  /** No step but a claim, a log-in and an issue matters to the chain. */
  ghost predicate SameChain(w: World, w': World) {
    && |w'.rows| == |w.rows|
    && (forall i :: 0 <= i < |w.rows| ==>
          w'.rows[i].family == w.rows[i].family && w'.rows[i].rotatedAt == w.rows[i].rotatedAt)
    && (forall p: nat :: At(w', p).Issuing? ==> At(w', p) == At(w, p))
  }

  lemma SameChainKeeps(w: World, w': World)
    requires Chained(w) && SameChain(w, w')
    ensures Chained(w')
  {
    forall s: Id, t: Id | Succeeds(w'.rows, s, t) ensures w'.rows[s].rotatedAt.Some? {
      assert Succeeds(w.rows, s, t);
    }
  }

  lemma UnrotatedIsNewest(w: World, newest: Id, t: Id)
    requires Chained(w) && newest < |w.rows| && w.rows[newest].rotatedAt == None
    requires t < |w.rows| && w.rows[t].family == w.rows[newest].family
    ensures t <= newest
  {
    assert Succeeds(w.rows, newest, t) <==> t > newest;
  }

  lemma ClaimKeepsChain(w: World, p: nat)
    requires Chained(w) && At(w, p).Claiming? && IsClaimable(w.rows, At(w, p).token)
    ensures Chained(Next(w, Claim(p)))
  {
    var w', token := Next(w, Claim(p)), At(w, p).token;
    forall t | 0 <= t < |w.rows| && w.rows[t].family == w.rows[token].family
      ensures w'.rows[t].rotatedAt.Some?
    {
      if t != token {
        UnrotatedIsNewest(w, token, t);
        assert Succeeds(w.rows, t, token);
      }
    }
    forall s: Id, t: Id | Succeeds(w'.rows, s, t) ensures w'.rows[s].rotatedAt.Some? {
      assert Succeeds(w.rows, s, t);
    }
    forall q: nat | At(w', q).Issuing?
      ensures AllRotated(w'.rows, At(w', q).family)
      ensures q != p ==> At(w', q) == At(w, q) && At(w, q).family != w.rows[token].family
    {
      if q != p { assert AllRotated(w.rows, At(w, q).family); }
    }
  }

  /** A new row at the end of a family all of whose tokens are rotated. */
  lemma NewRowKeepsChain(w: World, w': World, row: Token)
    requires Chained(w) && w'.rows == w.rows + [row] && row.family <= |w.rows|
    requires AllRotated(w.rows, row.family)
    requires forall p: nat :: At(w', p).Issuing? ==> At(w', p) == At(w, p) && At(w, p).family != row.family
    ensures Chained(w')
  {
    forall s: Id, t: Id | Succeeds(w'.rows, s, t) ensures w'.rows[s].rotatedAt.Some? {
      if t < |w.rows| { assert Succeeds(w.rows, s, t); }
    }
    forall p: nat | At(w', p).Issuing? ensures AllRotated(w'.rows, At(w', p).family) {
      assert AllRotated(w.rows, At(w, p).family);
    }
  }

  lemma StepKeepsChain(w: World, step: Step)
    requires Chained(w)
    ensures Chained(Next(w, step))
  {
    var w' := Next(w, step);
    if step.Claim? && At(w, step.p).Claiming? && IsClaimable(w.rows, At(w, step.p).token) {
      ClaimKeepsChain(w, step.p);
    } else if step.Login? || (step.Issue? && At(w, step.p).Issuing? && step.userUnchanged) {
      NewRowKeepsChain(w, w', w'.rows[|w.rows|]);
    } else {
      SameChainKeeps(w, w');
    }
  }

  lemma {:induction false} EveryRunIsChained(w: World, steps: seq<Step>)
    requires Chained(w)
    ensures Chained(Run(w, steps))
    decreases |steps|
  {
    if steps != [] {
      StepKeepsChain(w, steps[0]);
      EveryRunIsChained(Next(w, steps[0]), steps[1..]);
    }
  }

  function Nobody(refreshes: nat, reading: Time): World {
    World([], seq(refreshes, _ => Quiet), reading)
  }

  /** In any run, with any clock: a family never has two tokens that could be refreshed. */
  lemma OneLiveToken(refreshes: nat, reading: Time, steps: seq<Step>, s: Id, t: Id)
    ensures var rows := Run(Nobody(refreshes, reading), steps).rows;
            s < |rows| && t < |rows| && rows[s].family == rows[t].family &&
            rows[s].rotatedAt == rows[t].rotatedAt == None ==>
              s == t
  {
    EveryRunIsChained(Nobody(refreshes, reading), steps);
    var rows := Run(Nobody(refreshes, reading), steps).rows;
    assert Succeeds(rows, s, t) || Succeeds(rows, t, s) || s == t ||
           !(s < |rows| && t < |rows| && rows[s].family == rows[t].family);
  }

  // ----- a claim is for good

  /** Rows stay; a rotation or a revocation is never undone, repeated or moved. */
  predicate RowsKept(before: seq<Token>, after: seq<Token>) {
    && |before| <= |after|
    && forall i :: 0 <= i < |before| ==>
         && after[i].family == before[i].family && after[i].user == before[i].user
         && (before[i].rotatedAt.Some? ==> after[i].rotatedAt == before[i].rotatedAt)
         && (before[i].revokedAt.Some? ==> after[i].revokedAt == before[i].revokedAt)
  }

  /** So each token is claimed at most once: a claim succeeds only on a token that was never rotated. */
  lemma {:induction false} ClaimedOnce(w: World, steps: seq<Step>)
    ensures RowsKept(w.rows, Run(w, steps).rows)
    decreases |steps|
  {
    if steps != [] { ClaimedOnce(Next(w, steps[0]), steps[1..]); }
  }

  // ----- a revoked family

  predicate AllRevoked(w: World, family: Id) {
    forall i :: 0 <= i < |w.rows| && w.rows[i].family == family ==> w.rows[i].revokedAt.Some?
  }

  /** A refresh of the family is between its claim and its issue. */
  ghost predicate InFlight(w: World, family: Id) {
    exists p :: At(w, p).Issuing? && At(w, p).family == family
  }

  lemma StepKeepsRevoked(w: World, step: Step, family: Id)
    requires AllRevoked(w, family) && !InFlight(w, family) && family < |w.rows|
    ensures AllRevoked(Next(w, step), family) && !InFlight(Next(w, step), family)
  {
    var w' := Next(w, step);
    assert forall p: nat :: At(w', p) == At(w, p) || At(w', p) == w'.phases[p];
  }

  lemma {:induction false} StaysRevoked(w: World, steps: seq<Step>, family: Id)
    requires AllRevoked(w, family) && !InFlight(w, family) && family < |w.rows|
    ensures AllRevoked(Run(w, steps), family)
    decreases |steps|
  {
    if steps != [] {
      StepKeepsRevoked(w, steps[0], family);
      StaysRevoked(Next(w, steps[0]), steps[1..], family);
    }
  }

  /** A run after which the family has a token that is not revoked. */
  ghost predicate CanComeBack(w: World, family: Id) {
    exists steps :: !AllRevoked(Run(w, steps), family)
  }

  /**
   * A family whose tokens are all revoked can have a live token again if and only if one of its
   * refreshes had already been claimed and not yet issued.
   */
  lemma RevokedForGood(w: World, family: Id)
    requires AllRevoked(w, family) && family < |w.rows|
    ensures CanComeBack(w, family) <==> InFlight(w, family)
  {
    if InFlight(w, family) {
      var p :| At(w, p).Issuing? && At(w, p).family == family;
      var step := Issue(p, true, 0);
      RunStep(w, step, []);
      assert [step] + [] == [step];
      var w' := Run(w, [step]);
      assert w'.rows[|w.rows|].family == family && w'.rows[|w.rows|].revokedAt == None;
      assert !AllRevoked(w', family);
    } else {
      forall steps ensures AllRevoked(Run(w, steps), family) {
        StaysRevoked(w, steps, family);
      }
    }
  }

  // ----- what revokes a family

  /** Exactly these tokens are revoked, and those that already were keep their time. */
  predicate Revokes(rows: seq<Token>, rows': seq<Token>, which: Token -> bool, now: Time) {
    && |rows'| == |rows|
    && forall i :: 0 <= i < |rows| ==>
         && rows'[i].(revokedAt := rows[i].revokedAt) == rows[i]
         && rows'[i].revokedAt == (if which(rows[i]) && rows[i].revokedAt == None then Some(now) else rows[i].revokedAt)
         && (which(rows[i]) ==> rows'[i].revokedAt.Some?)
  }

  function OfFamily(family: Id): Token -> bool {
    (t: Token) => t.family == family
  }

  function OfUser(user: string): Token -> bool {
    (t: Token) => t.user == user
  }

  lemma FamilyIsRevoked(rows: seq<Token>, family: Id, now: Time)
    ensures Revokes(rows, FamilyRevoked(rows, family, now), OfFamily(family), now)
  {
  }

  lemma UserIsRevoked(rows: seq<Token>, user: string, now: Time)
    ensures Revokes(rows, UserRevoked(rows, user, now), OfUser(user), now)
  {
  }

  /** Every token of a family is its first one's user's, and so is one being issued. */
  ghost predicate Owned(w: World) {
    && (forall i :: 0 <= i < |w.rows| ==> OwnedRow(w.rows, i))
    && (forall p: nat :: At(w, p).Issuing? ==> OwnedPhase(w.rows, At(w, p)))
  }

  predicate OwnedRow(rows: seq<Token>, i: Id)
    requires i < |rows|
  {
    rows[i].family < |rows| && rows[i].user == rows[rows[i].family].user
  }

  predicate OwnedPhase(rows: seq<Token>, phase: Phase)
    requires phase.Issuing?
  {
    phase.family < |rows| && phase.user == rows[phase.family].user
  }

  lemma StepKeepsOwned(w: World, step: Step)
    requires Owned(w)
    ensures Owned(Next(w, step))
  {
    var w' := Next(w, step);
    forall i | 0 <= i < |w'.rows| ensures OwnedRow(w'.rows, i) {
      if i < |w.rows| { assert OwnedRow(w.rows, i); }
    }
    forall p: nat | At(w', p).Issuing? ensures OwnedPhase(w'.rows, At(w', p)) {
      if At(w, p).Issuing? {
        assert At(w', p) == At(w, p) && OwnedPhase(w.rows, At(w, p));
      } else {
        assert OwnedRow(w.rows, At(w, p).token);
      }
    }
  }

  lemma {:induction false} EveryFamilyIsOwned(w: World, steps: seq<Step>)
    requires Owned(w)
    ensures Owned(Run(w, steps))
    decreases |steps|
  {
    if steps != [] {
      StepKeepsOwned(w, steps[0]);
      EveryFamilyIsOwned(Next(w, steps[0]), steps[1..]);
    }
  }

  /** A step that revokes the family: reuse of it was detected, or its session or its user logs out. */
  predicate Ends(w: World, step: Step, family: Id) {
    && family < |w.rows|
    && match step
       case Revoke(p) => At(w, p).Revoking? && At(w, p).family == family
       case Logout(f, _) => f == family
       case LogoutAll(user, _) => w.rows[family].user == user
       case _ => false
  }

  /** What the step revokes, and when. */
  predicate RevokedBy(w: World, step: Step, w': World) {
    match step
    case Revoke(p) => At(w, p).Revoking? && Revokes(w.rows, w'.rows, OfFamily(At(w, p).family), At(w, p).now)
    case Logout(family, now) => Revokes(w.rows, w'.rows, OfFamily(family), now)
    case LogoutAll(user, now) => Revokes(w.rows, w'.rows, OfUser(user), now)
    case _ => false
  }

  /** A log-in begins a family of its own with one token of that user, neither rotated nor revoked. */
  lemma LoginOutcome(w: World, user: string, expiresAt: Time)
    ensures Next(w, Login(user, expiresAt)) ==
            w.(rows := w.rows + [Token(|w.rows|, user, expiresAt, None, None)])
  {
  }

  /**
   * In any run: once a family is revoked each of its tokens is refused, and it has a live token again
   * if and only if one of its refreshes was already between its claim and its issue.
   */
  lemma RevocationIsFinal(refreshes: nat, reading: Time, steps: seq<Step>, step: Step, family: Id)
    requires Ends(Run(Nobody(refreshes, reading), steps), step, family)
    ensures var w := Run(Nobody(refreshes, reading), steps);
            && AllRevoked(Next(w, step), family) && RevokedBy(w, step, Next(w, step))
            && (CanComeBack(Next(w, step), family) <==> InFlight(w, family))
            && forall p: Presented :: p.token < |w.rows| && w.rows[p.token].family == family ==>
                 OutcomeOf(Next(w, step).rows, p) == SessionRevoked
  {
    var w := Run(Nobody(refreshes, reading), steps);
    EveryFamilyIsOwned(Nobody(refreshes, reading), steps);
    var w' := Next(w, step);
    forall p: nat | At(w, p).Issuing? || At(w', p).Issuing? ensures At(w, p) == At(w', p) {
    }
    match step {
      case Revoke(p) => FamilyIsRevoked(w.rows, family, At(w, p).now);
      case Logout(_, now) => FamilyIsRevoked(w.rows, family, now);
      case LogoutAll(user, now) => UserIsRevoked(w.rows, user, now);
      case _ =>
    }
    assert |w'.rows| == |w.rows| && forall i :: 0 <= i < |w.rows| ==> w'.rows[i].family == w.rows[i].family;
    forall i | 0 <= i < |w.rows| && w.rows[i].family == family ensures w'.rows[i].revokedAt.Some? {
      assert OwnedRow(w.rows, i);
    }
    SameFlights(w, w', family);
    RevokedForGood(w', family);
  }

  lemma SameFlights(w: World, w': World, family: Id)
    requires forall p: nat :: At(w, p).Issuing? || At(w', p).Issuing? ==> At(w, p) == At(w', p)
    ensures InFlight(w', family) <==> InFlight(w, family)
  {
    if InFlight(w, family) {
      var p: nat :| At(w, p).Issuing? && At(w, p).family == family;
      assert At(w', p).Issuing?;
    }
    if InFlight(w', family) {
      var p: nat :| At(w', p).Issuing? && At(w', p).family == family;
      assert At(w, p).Issuing?;
    }
  }

  /**
   * How a refresh ends and what it writes: a revoked token is refused, a rotated one is a race or a
   * reuse, an expired one is refused; any other is rotated and, if the user is unchanged, succeeded by
   * a fresh token of the same family and user.
   */
  lemma RefreshOutcome(rows: seq<Token>, p: Presented)
    ensures OutcomeOf(rows, p) == Unknown <==> p.token >= |rows|
    ensures p.token < |rows| ==>
              var row, outcome, rows' := rows[p.token], OutcomeOf(rows, p), RowsAfter(rows, p);
              && (outcome == SessionRevoked <==> row.revokedAt.Some?)
              && (outcome == AlreadyUsed || outcome == ReuseDetected <==> row.revokedAt == None && row.rotatedAt.Some?)
              && (outcome == Expired <==> row.revokedAt == row.rotatedAt == None && row.expiresAt <= p.now)
              && (outcome == UserChanged || outcome == Issued(|rows|) <==>
                    row.revokedAt == row.rotatedAt == None && row.expiresAt > p.now)
              && (outcome == UserChanged ==> !p.userUnchanged) && (outcome == Issued(|rows|) ==> p.userUnchanged)
              && (outcome == UserChanged ==> rows' == rows[p.token := row.(rotatedAt := Some(p.now))])
              && (outcome == Issued(|rows|) ==>
                    rows' == rows[p.token := row.(rotatedAt := Some(p.now))] +
                             [Token(row.family, row.user, p.expiresAt, None, None)])
              && (outcome == ReuseDetected ==> Revokes(rows, rows', OfFamily(row.family), p.now))
              && (outcome == SessionRevoked || outcome == AlreadyUsed || outcome == Expired ==> rows' == rows)
  {
    if p.token < |rows| { FamilyIsRevoked(rows, rows[p.token].family, p.now); }
  }

  // ----- the order of rotations

  predicate NotBefore(strict: bool, a: Time, b: Time) {
    if strict then a < b else a <= b
  }

  /** Every refresh reads the clock after the ones before it, `strict`ly or not. */
  ghost predicate OnTime(strict: bool, w: World, steps: seq<Step>)
    decreases |steps|
  {
    steps != [] ==>
      && (steps[0].Begin? ==> NotBefore(strict, w.lastReading, steps[0].now))
      && OnTime(strict, Next(w, steps[0]), steps[1..])
  }

  predicate Presenting(phase: Phase, t: Id) {
    (phase.Begun? || phase.Claiming?) && phase.token == t
  }

  /** Along a family the rotations are in the order of the clock, and so will those under way be. */
  ghost predicate Timed(strict: bool, w: World) {
    && (forall i :: 0 <= i < |w.rows| && w.rows[i].rotatedAt.Some? ==> w.rows[i].rotatedAt.value <= w.lastReading)
    && (forall p: nat :: At(w, p).Begun? || At(w, p).Claiming? ==> At(w, p).now <= w.lastReading)
    && (forall s: Id, t: Id :: Succeeds(w.rows, s, t) && w.rows[t].rotatedAt.Some? ==>
          w.rows[s].rotatedAt.Some? && NotBefore(strict, w.rows[s].rotatedAt.value, w.rows[t].rotatedAt.value))
    && (forall p: nat, s: Id, t: Id :: Presenting(At(w, p), t) && Succeeds(w.rows, s, t) ==>
          w.rows[s].rotatedAt.Some? && NotBefore(strict, w.rows[s].rotatedAt.value, At(w, p).now))
  }

  lemma SameTimes(strict: bool, w: World, w': World)
    requires Timed(strict, w) && |w'.rows| == |w.rows| && w'.lastReading >= w.lastReading
    requires forall i :: 0 <= i < |w.rows| ==>
               w'.rows[i].family == w.rows[i].family && w'.rows[i].rotatedAt == w.rows[i].rotatedAt
    requires forall p: nat :: At(w', p).Begun? || At(w', p).Claiming? ==>
               || At(w', p) == At(w, p)
               || (At(w, p).Begun? && At(w', p) == Claiming(At(w, p).token, At(w, p).now))
    ensures Timed(strict, w')
  {
    forall s: Id, t: Id | Succeeds(w'.rows, s, t) && w'.rows[t].rotatedAt.Some?
      ensures w'.rows[s].rotatedAt.Some? && NotBefore(strict, w'.rows[s].rotatedAt.value, w'.rows[t].rotatedAt.value)
    {
      assert Succeeds(w.rows, s, t);
    }
    forall p: nat, s: Id, t: Id | Presenting(At(w', p), t) && Succeeds(w'.rows, s, t)
      ensures w'.rows[s].rotatedAt.Some? && NotBefore(strict, w'.rows[s].rotatedAt.value, At(w', p).now)
    {
      assert Presenting(At(w, p), t) && Succeeds(w.rows, s, t);
    }
  }

  lemma BeginIsTimed(strict: bool, w: World, p: nat, token: Id, now: Time)
    requires Timed(strict, w) && Chained(w) && NotBefore(strict, w.lastReading, now)
    ensures Timed(strict, Next(w, Begin(p, token, now)))
  {
    var w' := Next(w, Begin(p, token, now));
    forall q: nat | At(w', q).Begun? || At(w', q).Claiming? ensures At(w', q).now <= w'.lastReading {
      assert q != p ==> At(w', q) == At(w, q);
    }
    forall q: nat, s: Id, t: Id | Presenting(At(w', q), t) && Succeeds(w'.rows, s, t)
      ensures w'.rows[s].rotatedAt.Some? && NotBefore(strict, w'.rows[s].rotatedAt.value, At(w', q).now)
    {
      assert Succeeds(w.rows, s, t);
      if At(w', q) == At(w, q) { assert Presenting(At(w, q), t); }
    }
  }

  lemma ClaimIsTimed(strict: bool, w: World, p: nat)
    requires Timed(strict, w) && Chained(w) && At(w, p).Claiming? && IsClaimable(w.rows, At(w, p).token)
    ensures Timed(strict, Next(w, Claim(p)))
  {
    var w', token := Next(w, Claim(p)), At(w, p).token;
    assert forall q: nat :: At(w', q).Begun? || At(w', q).Claiming? ==> At(w', q) == At(w, q);
    forall s: Id, t: Id | Succeeds(w'.rows, s, t)
      ensures s != token && w'.rows[s] == w.rows[s] && w.rows[s].rotatedAt.Some?
    {
      assert Succeeds(w.rows, s, t);
    }
    forall s: Id, t: Id | Succeeds(w'.rows, s, t) && w'.rows[t].rotatedAt.Some?
      ensures NotBefore(strict, w'.rows[s].rotatedAt.value, w'.rows[t].rotatedAt.value)
    {
      assert Succeeds(w.rows, s, t);
      if t == token { assert Presenting(At(w, p), token); }
    }
    forall q: nat, s: Id, t: Id | Presenting(At(w', q), t) && Succeeds(w'.rows, s, t)
      ensures NotBefore(strict, w'.rows[s].rotatedAt.value, At(w', q).now)
    {
      assert Presenting(At(w, q), t) && Succeeds(w.rows, s, t);
    }
  }

  lemma NewRowIsTimed(strict: bool, w: World, w': World, row: Token)
    requires Timed(strict, w) && w'.rows == w.rows + [row] && row.rotatedAt == None && w'.lastReading == w.lastReading
    requires forall p: nat :: At(w', p).Begun? || At(w', p).Claiming? ==> At(w', p) == At(w, p)
    requires forall p: nat :: At(w, p).Begun? || At(w, p).Claiming? ==> At(w, p).token < |w.rows|
    ensures Timed(strict, w')
  {
    forall s: Id, t: Id | Succeeds(w'.rows, s, t) && w'.rows[t].rotatedAt.Some?
      ensures w'.rows[s].rotatedAt.Some? && NotBefore(strict, w'.rows[s].rotatedAt.value, w'.rows[t].rotatedAt.value)
    {
      assert Succeeds(w.rows, s, t);
    }
    forall p: nat, s: Id, t: Id | Presenting(At(w', p), t) && Succeeds(w'.rows, s, t)
      ensures w'.rows[s].rotatedAt.Some? && NotBefore(strict, w'.rows[s].rotatedAt.value, At(w', p).now)
    {
      assert Presenting(At(w, p), t) && Succeeds(w.rows, s, t);
    }
  }

  /** Only tokens that are there are presented. */
  ghost predicate Known(w: World) {
    forall p: nat :: At(w, p).Begun? || At(w, p).Claiming? ==> At(w, p).token < |w.rows|
  }

  lemma StepKeepsTimes(strict: bool, w: World, step: Step)
    requires Timed(strict, w) && Chained(w) && Known(w)
    requires step.Begin? ==> NotBefore(strict, w.lastReading, step.now)
    ensures Timed(strict, Next(w, step)) && Known(Next(w, step))
  {
    var w' := Next(w, step);
    forall p: nat | At(w', p).Begun? || At(w', p).Claiming? ensures At(w', p).token < |w'.rows| {
      assert At(w', p) == At(w, p) || step.Begin? || (step.Find? && At(w, p).Begun?);
    }
    if step.Begin? {
      BeginIsTimed(strict, w, step.p, step.token, step.now);
    } else if step.Claim? && At(w, step.p).Claiming? && IsClaimable(w.rows, At(w, step.p).token) {
      ClaimIsTimed(strict, w, step.p);
    } else if step.Login? || (step.Issue? && At(w, step.p).Issuing? && step.userUnchanged) {
      NewRowIsTimed(strict, w, w', w'.rows[|w.rows|]);
    } else {
      SameTimes(strict, w, w');
    }
  }

  lemma {:induction false} RotationsAreInOrder(strict: bool, w: World, steps: seq<Step>)
    requires Timed(strict, w) && Chained(w) && Known(w) && OnTime(strict, w, steps)
    ensures Timed(strict, Run(w, steps)) && Chained(Run(w, steps))
    decreases |steps|
  {
    if steps != [] {
      StepKeepsTimes(strict, w, steps[0]);
      StepKeepsChain(w, steps[0]);
      RotationsAreInOrder(strict, Next(w, steps[0]), steps[1..]);
    }
  }

  // ----- reuse detection

  lemma {:induction false} SomeRotatedAfter(rows: seq<Token>, family: Id, after: Time)
    ensures CountRotationsAfter(rows, family, after) > 0 <==>
            exists s :: 0 <= s < |rows| && RotatedAfter(rows[s], family, after)
  {
    if rows != [] {
      var front, last := rows[..|rows| - 1], |rows| - 1;
      SomeRotatedAfter(front, family, after);
      if RotatedAfter(rows[last], family, after) {
      } else if s :| 0 <= s < |rows| && RotatedAfter(rows[s], family, after) {
        assert RotatedAfter(front[s], family, after);
      }
    }
  }

  /** The places of the family's tokens that were rotated after a reading. */
  function PlacesRotatedAfter(rows: seq<Token>, family: Id, after: Time): set<nat> {
    set k: nat | k < |rows| && RotatedAfter(rows[k], family, after)
  }

  lemma {:induction false} RotationsAreCounted(rows: seq<Token>, family: Id, after: Time)
    ensures CountRotationsAfter(rows, family, after) == |PlacesRotatedAfter(rows, family, after)|
  {
    if rows == [] {
      assert PlacesRotatedAfter(rows, family, after) == {};
    } else {
      var last: nat := |rows| - 1;
      RotationsAreCounted(rows[..last], family, after);
      var front := PlacesRotatedAfter(rows[..last], family, after);
      assert PlacesRotatedAfter(rows, family, after) ==
             if RotatedAfter(rows[last], family, after) then front + {last} else front;
    }
  }

  /** `s` came after `t` in its family and was itself rotated. */
  predicate Passed(rows: seq<Token>, t: Id, s: Id) {
    Succeeds(rows, t, s) && rows[s].rotatedAt.Some?
  }

  /** The family has moved on past `t`: whoever presents it again reuses it. */
  ghost predicate MovedOn(rows: seq<Token>, t: Id) {
    exists s: Id :: Passed(rows, t, s)
  }

  predicate IsRotated(rows: seq<Token>, t: Id) {
    t < |rows| && rows[t].rotatedAt.Some?
  }

  /** `s` is of the family of `t` and was rotated at a later reading. */
  predicate ReadLater(rows: seq<Token>, t: Id, s: Id) {
    IsRotated(rows, t) && s < |rows| && RotatedAfter(rows[s], rows[t].family, rows[t].rotatedAt.value)
  }

  /**
   * In any run, with any clock: presenting a rotated token revokes its family exactly when some token
   * of the family was rotated at a later reading, and otherwise changes nothing. So it is a false
   * alarm on the newest rotated token exactly when a token before it has a later reading, and it
   * hides a reuse exactly when no token that has passed the one presented, nor any before it, has one.
   */
  lemma ReuseIsDetected(refreshes: nat, reading: Time, steps: seq<Step>, p: Presented)
    requires var rows := Run(Nobody(refreshes, reading), steps).rows;
             IsRotated(rows, p.token) && rows[p.token].revokedAt == None
    ensures var rows, t := Run(Nobody(refreshes, reading), steps).rows, p.token;
            && (OutcomeOf(rows, p) == ReuseDetected <==> exists s: Id :: ReadLater(rows, t, s))
            && (OutcomeOf(rows, p) == ReuseDetected ==>
                  Revokes(rows, RowsAfter(rows, p), OfFamily(rows[t].family), p.now))
            && (OutcomeOf(rows, p) != ReuseDetected ==> OutcomeOf(rows, p) == AlreadyUsed && RowsAfter(rows, p) == rows)
    ensures var rows, t := Run(Nobody(refreshes, reading), steps).rows, p.token;
            && (!MovedOn(rows, t) ==>
                  (OutcomeOf(rows, p) == ReuseDetected <==>
                   exists s: Id :: Succeeds(rows, s, t) && ReadLater(rows, t, s)))
            && (MovedOn(rows, t) ==>
                  (OutcomeOf(rows, p) == AlreadyUsed <==>
                    forall s: Id :: Succeeds(rows, s, t) || Passed(rows, t, s) ==> !ReadLater(rows, t, s)))
  {
    var rows, t := Run(Nobody(refreshes, reading), steps).rows, p.token;
    SomeRotatedAfter(rows, rows[t].family, rows[t].rotatedAt.value);
    FamilyIsRevoked(rows, rows[t].family, p.now);
    assert OutcomeOf(rows, p) == ReuseDetected <==> exists s: Id :: ReadLater(rows, t, s) by {
      if s :| 0 <= s < |rows| && RotatedAfter(rows[s], rows[t].family, rows[t].rotatedAt.value) {
        assert ReadLater(rows, t, s);
      }
    }
    forall s: Id | ReadLater(rows, t, s) ensures Succeeds(rows, s, t) || Passed(rows, t, s) {
    }
  }

  /** Presenting any rotated token of the family, the detector is right: it sees reuse where there is some. */
  ghost predicate DetectsRightly(rows: seq<Token>, family: Id) {
    forall t: Id :: IsRotated(rows, t) && rows[t].family == family ==>
      ((exists s: Id :: ReadLater(rows, t, s)) <==> MovedOn(rows, t))
  }

  /** The newest rotated token of the family has a later reading than every other. */
  ghost predicate NewestIsLatest(rows: seq<Token>, family: Id) {
    forall s: Id, t: Id ::
      IsRotated(rows, s) && rows[s].family == family && Passed(rows, s, t) && !MovedOn(rows, t) ==>
        ReadLater(rows, s, t)
  }

  lemma {:induction false} NewestPassed(rows: seq<Token>, t: Id, s: Id) returns (newest: Id)
    requires Passed(rows, t, s)
    ensures Passed(rows, t, newest) && !MovedOn(rows, newest)
    decreases |rows| - s
  {
    if MovedOn(rows, s) {
      var u: Id :| Passed(rows, s, u);
      newest := NewestPassed(rows, t, u);
    } else {
      newest := s;
    }
  }

  /**
   * The test that auth.service.ts says needs no clock is right for a whole family if and only if the
   * clock's reading at the newest rotation is later than at every other.
   */
  lemma RightIffNewestIsLatest(rows: seq<Token>, family: Id)
    ensures DetectsRightly(rows, family) <==> NewestIsLatest(rows, family)
  {
    if NewestIsLatest(rows, family) {
      forall t: Id | IsRotated(rows, t) && rows[t].family == family
        ensures (exists s: Id :: ReadLater(rows, t, s)) <==> MovedOn(rows, t)
      {
        if MovedOn(rows, t) {
          var s: Id :| Passed(rows, t, s);
          var newest := NewestPassed(rows, t, s);
          assert ReadLater(rows, t, newest);
        } else {
          forall s: Id ensures !ReadLater(rows, t, s) {
            if IsRotated(rows, s) && rows[s].family == family {
              assert !Passed(rows, t, s);
              assert Passed(rows, s, t) ==> ReadLater(rows, s, t);
            }
          }
        }
      }
    }
    if DetectsRightly(rows, family) {
      forall s: Id, t: Id | IsRotated(rows, s) && rows[s].family == family && Passed(rows, s, t) && !MovedOn(rows, t)
        ensures ReadLater(rows, s, t)
      {
        assert !exists u: Id :: ReadLater(rows, t, u);
        var u: Id :| ReadLater(rows, s, u);
        assert !ReadLater(rows, t, u);
      }
    }
  }

  /** If readings never go back, reuse is detected exactly at another reading; if they always advance, always. */
  lemma ReuseIsDetectedInOrder(strict: bool, refreshes: nat, reading: Time, steps: seq<Step>, p: Presented)
    requires OnTime(strict, Nobody(refreshes, reading), steps)
    requires var rows := Run(Nobody(refreshes, reading), steps).rows;
             IsRotated(rows, p.token) && rows[p.token].revokedAt == None
    ensures var rows, t := Run(Nobody(refreshes, reading), steps).rows, p.token;
            && (OutcomeOf(rows, p) == ReuseDetected <==>
                  exists s: Id :: Passed(rows, t, s) && rows[s].rotatedAt != rows[t].rotatedAt)
            && (strict ==> (OutcomeOf(rows, p) == ReuseDetected <==> MovedOn(rows, t)))
  {
    RotationsAreInOrder(strict, Nobody(refreshes, reading), steps);
    ReuseIsDetected(refreshes, reading, steps, p);
    var rows, t := Run(Nobody(refreshes, reading), steps).rows, p.token;
    forall s: Id
      ensures ReadLater(rows, t, s) <==> Passed(rows, t, s) && rows[s].rotatedAt != rows[t].rotatedAt
      ensures strict && Passed(rows, t, s) ==> rows[s].rotatedAt != rows[t].rotatedAt
    {
      assert Succeeds(rows, t, s) || Succeeds(rows, s, t) || s == t || s >= |rows| || rows[s].family != rows[t].family;
    }
  }

  /**
   * A second instance whose clock is behind: the first token is rotated at one reading and the second
   * at an earlier one. Presenting the newest rotated token then revokes the family, although nobody
   * has moved on past it, and presenting the one before it, which is reuse, does nothing.
   */
  lemma BackwardsReadingsMislead(user: string, a: Time, b: Time, later: Time)
    requires b < a < later
    ensures var first := [Token(0, user, later, None, None)];
            var second := RowsAfter(first, Presented(0, a, true, later));
            var third := RowsAfter(second, Presented(1, b, true, later));
            && Passed(third, 0, 1) && !MovedOn(third, 1)
            && OutcomeOf(third, Presented(1, later, true, later)) == ReuseDetected
            && OutcomeOf(third, Presented(0, later, true, later)) == AlreadyUsed
  {
    var first := [Token(0, user, later, None, None)];
    var second := RowsAfter(first, Presented(0, a, true, later));
    assert second == [Token(0, user, later, Some(a), None), Token(0, user, later, None, None)];
    var third := RowsAfter(second, Presented(1, b, true, later));
    assert third == [Token(0, user, later, Some(a), None), Token(0, user, later, Some(b), None),
                     Token(0, user, later, None, None)];
    SomeRotatedAfter(third, 0, a);
    SomeRotatedAfter(third, 0, b);
    assert RotatedAfter(third[0], 0, b);
  }

  /**
   * Two rotations within one reading of the clock hide the reuse of the first token: the family has
   * moved on past it, and presenting it changes nothing.
   */
  lemma SameReadingHidesReuse(user: string, now: Time, later: Time)
    requires now < later
    ensures var first := [Token(0, user, later, None, None)];
            var second := RowsAfter(first, Presented(0, now, true, later));
            var third := RowsAfter(second, Presented(1, now, true, later));
            && |third| == 3 && third[2].rotatedAt == None
            && Succeeds(third, 0, 1) && third[1].rotatedAt.Some?
            && OutcomeOf(third, Presented(0, later, true, later)) == AlreadyUsed
  {
    var first := [Token(0, user, later, None, None)];
    var second := RowsAfter(first, Presented(0, now, true, later));
    assert second == [Token(0, user, later, Some(now), None), Token(0, user, later, None, None)];
    var third := RowsAfter(second, Presented(1, now, true, later));
    assert third == [Token(0, user, later, Some(now), None), Token(0, user, later, Some(now), None),
                     Token(0, user, later, None, None)];
    SomeRotatedAfter(third, 0, now);
  }
}
