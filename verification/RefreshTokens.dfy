/**
 * Refresh-token rotation: `refresh`, `issueTokens` and `logout` of
 * apps/api/src/services/auth.service.ts over apps/api/src/repositories/refresh-token.repository.ts.
 *
 * Tokens are opaque: a token is the row its hash finds, and rows are numbered as they are issued. A
 * family is named after its first token.
 */
module RefreshTokens {
  import opened Prelude

  type Id = nat
  type Time = int

  datatype Token =
    Token(family: Id, user: string, expiresAt: Time, rotatedAt: Option<Time>, revokedAt: Option<Time>)

  // ----- the repository's statements

  function FamilyRevoked(rows: seq<Token>, family: Id, now: Time): seq<Token> {
    seq(|rows|, i requires 0 <= i < |rows| =>
      if rows[i].family == family && rows[i].revokedAt == None then rows[i].(revokedAt := Some(now)) else rows[i])
  }

  function UserRevoked(rows: seq<Token>, user: string, now: Time): seq<Token> {
    seq(|rows|, i requires 0 <= i < |rows| =>
      if rows[i].user == user && rows[i].revokedAt == None then rows[i].(revokedAt := Some(now)) else rows[i])
  }

  predicate IsClaimable(rows: seq<Token>, token: Id) {
    token < |rows| && rows[token].rotatedAt == None && rows[token].revokedAt == None
  }

  predicate RotatedAfter(row: Token, family: Id, after: Time) {
    row.family == family && row.rotatedAt.Some? && row.rotatedAt.value > after
  }

  function CountRotationsAfter(rows: seq<Token>, family: Id, after: Time): nat {
    if rows == [] then 0
    else CountRotationsAfter(rows[..|rows| - 1], family, after) +
         if RotatedAfter(rows[|rows| - 1], family, after) then 1 else 0
  }

  // ----- one refresh that nobody interrupts

  datatype Outcome =
    Issued(token: Id) | Unknown | SessionRevoked | AlreadyUsed | ReuseDetected | Expired | ClaimLost | UserChanged

  /** `userUnchanged`: the user is still there with the token's version; `expiresAt` is the successor's. */
  datatype Presented = Presented(token: Id, now: Time, userUnchanged: bool, expiresAt: Time)

  function Rotated(rows: seq<Token>, p: Presented): seq<Token>
    requires p.token < |rows|
  {
    var row := rows[p.token];
    var claimed := rows[p.token := row.(rotatedAt := Some(p.now))];
    if p.userUnchanged then claimed + [Token(row.family, row.user, p.expiresAt, None, None)] else claimed
  }

  function OutcomeOf(rows: seq<Token>, p: Presented): Outcome {
    if p.token >= |rows| then Unknown
    else
      var row := rows[p.token];
      if row.revokedAt.Some? then SessionRevoked
      else if row.rotatedAt.Some? then
        if CountRotationsAfter(rows, row.family, row.rotatedAt.value) == 0 then AlreadyUsed else ReuseDetected
      else if row.expiresAt <= p.now then Expired
      else if p.userUnchanged then Issued(|rows|) else UserChanged
  }

  function RowsAfter(rows: seq<Token>, p: Presented): seq<Token> {
    match OutcomeOf(rows, p)
    case ReuseDetected => if p.token < |rows| then FamilyRevoked(rows, rows[p.token].family, p.now) else rows
    case Issued(_) => if p.token < |rows| then Rotated(rows, p) else rows
    case UserChanged => if p.token < |rows| then Rotated(rows, p) else rows
    case _ => rows
  }

  class RefreshTokenTable {
    var rows: seq<Token>

    method Create(family: Id, user: string, expiresAt: Time) returns (token: Id)
      modifies this
      ensures rows == old(rows) + [Token(family, user, expiresAt, None, None)] && token == |old(rows)|
    {
      token := |rows|;
      rows := rows + [Token(family, user, expiresAt, None, None)];
    }

    method ClaimForRotation(token: Id, now: Time) returns (count: nat)
      modifies this
      ensures count == if IsClaimable(old(rows), token) then 1 else 0
      ensures rows == if count == 1 then old(rows)[token := old(rows)[token].(rotatedAt := Some(now))] else old(rows)
    {
      if token < |rows| && rows[token].rotatedAt == None && rows[token].revokedAt == None {
        rows := rows[token := rows[token].(rotatedAt := Some(now))];
        return 1;
      }
      return 0;
    }

    method CountAfter(family: Id, after: Time) returns (count: nat)
      ensures count == CountRotationsAfter(rows, family, after)
    {
      count := 0;
      for i := 0 to |rows|
        invariant count == CountRotationsAfter(rows[..i], family, after)
      {
        assert rows[..i + 1][..i] == rows[..i];
        if rows[i].family == family && rows[i].rotatedAt.Some? && rows[i].rotatedAt.value > after {
          count := count + 1;
        }
      }
      assert rows[..|rows|] == rows;
    }

    method RevokeFamily(family: Id, now: Time)
      modifies this
      ensures rows == FamilyRevoked(old(rows), family, now)
    {
      var before := rows;
      for i := 0 to |before|
        invariant |rows| == |before|
        invariant rows[..i] == FamilyRevoked(before, family, now)[..i] && rows[i..] == before[i..]
      {
        assert rows[i] == rows[i..][0];
        if rows[i].family == family && rows[i].revokedAt == None {
          rows := rows[i := rows[i].(revokedAt := Some(now))];
        }
        assert rows[i + 1..] == before[i..][1..];
      }
    }

    /** `refresh`, uninterrupted. */
    method Refresh(p: Presented) returns (outcome: Outcome)
      modifies this
      ensures outcome == OutcomeOf(old(rows), p) && rows == RowsAfter(old(rows), p)
    {
      if p.token >= |rows| { return Unknown; }
      var stored := rows[p.token];
      if stored.revokedAt.Some? { return SessionRevoked; }
      if stored.rotatedAt.Some? {
        var movedOn := CountAfter(stored.family, stored.rotatedAt.value);
        if movedOn == 0 { return AlreadyUsed; }
        RevokeFamily(stored.family, p.now);
        return ReuseDetected;
      }
      if stored.expiresAt <= p.now { return Expired; }
      var claimed := ClaimForRotation(p.token, p.now);
      if claimed != 1 { return ClaimLost; }
      if !p.userUnchanged { return UserChanged; }
      var token := Create(stored.family, stored.user, p.expiresAt);
      return Issued(token);
    }
  }

  // ----- many refreshes at once

  /** A refresh between its statements. */
  datatype Phase =
    | Quiet
    | Begun(token: Id, now: Time)
    | Counting(family: Id, after: Time, now: Time)
    | Revoking(family: Id, now: Time)
    | Claiming(token: Id, now: Time)
    | Issuing(family: Id, user: string)

  datatype World = World(rows: seq<Token>, phases: seq<Phase>, lastReading: Time)

  datatype Step =
    | Login(user: string, expiresAt: Time)
    | Begin(p: nat, token: Id, now: Time)
    | Find(p: nat)
    | Count(p: nat)
    | Revoke(p: nat)
    | Claim(p: nat)
    | Issue(p: nat, userUnchanged: bool, expiresAt: Time)
    | Logout(family: Id, now: Time)
    | LogoutAll(user: string, now: Time)

  function At(w: World, p: nat): Phase {
    if p < |w.phases| then w.phases[p] else Quiet
  }

  function Moved(w: World, p: nat, phase: Phase): World
    requires p < |w.phases|
  {
    w.(phases := w.phases[p := phase])
  }

  /** What a refresh does with the row it has found. */
  function Looked(row: Token, token: Id, now: Time): Phase {
    if row.revokedAt.Some? then Quiet
    else if row.rotatedAt.Some? then Counting(row.family, row.rotatedAt.value, now)
    else if row.expiresAt <= now then Quiet
    else Claiming(token, now)
  }

  /** One statement of one refresh, or a log-in or log-out. One that cannot be taken changes nothing. */
  function Next(w: World, step: Step): World {
    match step
    case Login(user, expiresAt) => w.(rows := w.rows + [Token(|w.rows|, user, expiresAt, None, None)])
    case Begin(p, token, now) =>
      if p < |w.phases| && At(w, p) == Quiet && token < |w.rows| then
        Moved(w, p, Begun(token, now)).(lastReading := now)
      else w
    case Find(p) =>
      if At(w, p).Begun? && At(w, p).token < |w.rows| then
        Moved(w, p, Looked(w.rows[At(w, p).token], At(w, p).token, At(w, p).now))
      else w
    case Count(p) =>
      if At(w, p).Counting? then
        Moved(w, p, if CountRotationsAfter(w.rows, At(w, p).family, At(w, p).after) == 0 then Quiet
                    else Revoking(At(w, p).family, At(w, p).now))
      else w
    case Revoke(p) =>
      if At(w, p).Revoking? then
        Moved(w, p, Quiet).(rows := FamilyRevoked(w.rows, At(w, p).family, At(w, p).now))
      else w
    case Claim(p) =>
      if !At(w, p).Claiming? then w
      else if !IsClaimable(w.rows, At(w, p).token) then Moved(w, p, Quiet)
      else
        var row := w.rows[At(w, p).token];
        Moved(w, p, Issuing(row.family, row.user)).(
          rows := w.rows[At(w, p).token := row.(rotatedAt := Some(At(w, p).now))])
    case Issue(p, userUnchanged, expiresAt) =>
      if !At(w, p).Issuing? then w
      else if !userUnchanged then Moved(w, p, Quiet)
      else Moved(w, p, Quiet).(rows := w.rows + [Token(At(w, p).family, At(w, p).user, expiresAt, None, None)])
    case Logout(family, now) => w.(rows := FamilyRevoked(w.rows, family, now))
    case LogoutAll(user, now) => w.(rows := UserRevoked(w.rows, user, now))
  }

  function Run(w: World, steps: seq<Step>): World
    decreases |steps|
  {
    if steps == [] then w else Run(Next(w, steps[0]), steps[1..])
  }

  // ----- an uninterrupted refresh is a run

  lemma RunStep(w: World, step: Step, rest: seq<Step>)
    ensures Run(w, [step] + rest) == Run(Next(w, step), rest)
  {
    assert ([step] + rest)[1..] == rest;
  }

  lemma RefreshIsARun(w: World, r: nat, p: Presented) returns (steps: seq<Step>)
    requires r < |w.phases| && w.phases[r] == Quiet && p.token < |w.rows|
    ensures Run(w, steps) == w.(rows := RowsAfter(w.rows, p), lastReading := p.now)
  {
    var begin := Begin(r, p.token, p.now);
    var w1 := Next(w, begin);
    var w2 := Next(w1, Find(r));
    var rest: seq<Step> := [];
    if At(w2, r).Counting? {
      var w3 := Next(w2, Count(r));
      if At(w3, r).Revoking? {
        rest := [Count(r)] + ([Revoke(r)] + []);
        RunStep(w2, Count(r), [Revoke(r)] + []);
        RunStep(w3, Revoke(r), []);
      } else {
        rest := [Count(r)] + [];
        RunStep(w2, Count(r), []);
      }
    } else if At(w2, r).Claiming? {
      var issue := Issue(r, p.userUnchanged, p.expiresAt);
      rest := [Claim(r)] + ([issue] + []);
      RunStep(w2, Claim(r), [issue] + []);
      RunStep(Next(w2, Claim(r)), issue, []);
    }
    steps := [begin] + ([Find(r)] + rest);
    RunStep(w, begin, [Find(r)] + rest);
    RunStep(w1, Find(r), rest);
    assert Run(w, steps).phases == w.phases;
  }
}
