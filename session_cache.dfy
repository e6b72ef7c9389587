/**
 * The server's session tokens: issued for a player, valid until their
 * expiry instant, refreshable while valid, revocable one by one or per
 * player, and swept once expired. Instants are whole seconds passed in as
 * `now`; token ids (random UUIDs) are passed in too.
 */
module SessionCache {
  import opened Wrappers
  import opened Decimal

  datatype SessionToken = SessionToken(tokenId: string, playerId: int, issuedAt: nat, expiresAt: nat)

  /** The default lifetime: 24 hours. */
  const DefaultDuration: nat := 86400

  /** The lifetime setting: the variable's value when it parses as a u64, else the default. */
  function SessionDuration(setting: Option<string>): (d: nat)
    ensures setting.None? ==> d == DefaultDuration
    ensures setting.Some? && ParseU64(setting.value).Some? ==> d == ParseU64(setting.value).value
    ensures setting.Some? && ParseU64(setting.value).None? ==> d == DefaultDuration
  {
    if setting.Some? && ParseU64(setting.value).Some? then ParseU64(setting.value).value else DefaultDuration
  }

  /** What verifying a token at `now` gives: its player, unless it is unknown or expired. */
  function Verify(sessions: map<string, SessionToken>, tokenId: string, now: nat): (r: Result<int, string>)
    ensures tokenId !in sessions ==> r == Err("Invalid session")
    ensures tokenId in sessions && now > sessions[tokenId].expiresAt ==> r == Err("Session expired")
    ensures r.Ok? <==> tokenId in sessions && now <= sessions[tokenId].expiresAt
    ensures r.Ok? ==> r.value == sessions[tokenId].playerId
  {
    if tokenId !in sessions then Err("Invalid session")
    else if now > sessions[tokenId].expiresAt then Err("Session expired")
    else Ok(sessions[tokenId].playerId)
  }

  /** The sessions of every player but `playerId`. */
  function WithoutPlayer(sessions: map<string, SessionToken>, playerId: int): (r: map<string, SessionToken>)
    ensures forall t :: t in r <==> t in sessions && sessions[t].playerId != playerId
    ensures forall t :: t in r ==> r[t] == sessions[t]
  {
    map t | t in sessions && sessions[t].playerId != playerId :: sessions[t]
  }

  /** The sessions that expire after `now`. */
  function Unexpired(sessions: map<string, SessionToken>, now: nat): (r: map<string, SessionToken>)
    ensures forall t :: t in r <==> t in sessions && sessions[t].expiresAt > now
    ensures forall t :: t in r ==> r[t] == sessions[t]
  {
    map t | t in sessions && sessions[t].expiresAt > now :: sessions[t]
  }

  class SessionCache {
    var sessions: map<string, SessionToken>

    /** Every session is filed under its own token id. */
    ghost predicate Valid()
      reads this
    {
      forall t :: t in sessions ==> sessions[t].tokenId == t
    }

    constructor ()
      ensures Valid() && sessions == map[]
    {
      sessions := map[];
    }

    /** Issues `tokenId` to the player, valid for `duration` seconds from `now`. */
    method CreateSession(playerId: int, tokenId: string, now: nat, duration: nat) returns (token: string)
      requires Valid()
      modifies this
      ensures Valid()
      ensures token == tokenId
      ensures sessions == old(sessions)[tokenId := SessionToken(tokenId, playerId, now, now + duration)]
    {
      sessions := sessions[tokenId := SessionToken(tokenId, playerId, now, now + duration)];
      return tokenId;
    }

    method VerifySession(tokenId: string, now: nat) returns (r: Result<int, string>)
      ensures r == Verify(sessions, tokenId, now)
    {
      if tokenId !in sessions {
        return Err("Invalid session");
      }
      var session := sessions[tokenId];
      if now > session.expiresAt {
        return Err("Session expired");
      }
      return Ok(session.playerId);
    }

    /** Extends a still-valid session to `now + duration`; an unknown or expired one is an error and stays. */
    method RefreshSession(tokenId: string, now: nat, duration: nat) returns (r: Result<(), string>)
      requires Valid()
      modifies this
      ensures Valid()
      ensures r.Err? <==> Verify(old(sessions), tokenId, now).Err?
      ensures r.Err? ==> r.error == Verify(old(sessions), tokenId, now).error && sessions == old(sessions)
      ensures r.Ok? ==> sessions == old(sessions)[tokenId := old(sessions)[tokenId].(expiresAt := now + duration)]
    {
      if tokenId !in sessions {
        return Err("Invalid session");
      }
      if now > sessions[tokenId].expiresAt {
        return Err("Session expired");
      }
      sessions := sessions[tokenId := sessions[tokenId].(expiresAt := now + duration)];
      return Ok(());
    }

    method RevokeSession(tokenId: string)
      requires Valid()
      modifies this
      ensures Valid()
      ensures sessions == old(sessions) - {tokenId}
    {
      sessions := sessions - {tokenId};
    }

    method RevokeAllForPlayer(playerId: int)
      requires Valid()
      modifies this
      ensures Valid()
      ensures sessions == WithoutPlayer(old(sessions), playerId)
    {
      sessions := WithoutPlayer(sessions, playerId);
    }

    /** Keeps exactly the sessions that expire after `now`. */
    method CleanupExpired(now: nat)
      requires Valid()
      modifies this
      ensures Valid()
      ensures sessions == Unexpired(old(sessions), now)
    {
      sessions := Unexpired(sessions, now);
    }

    method GetActiveSessionCount() returns (n: nat)
      ensures n == |sessions|
    {
      return |sessions|;
    }

    /** The player's sessions, each once, in some order. */
    method GetPlayerSessions(playerId: int) returns (r: seq<SessionToken>)
      requires Valid()
      ensures forall k :: 0 <= k < |r| ==>
        r[k].playerId == playerId && r[k].tokenId in sessions && sessions[r[k].tokenId] == r[k]
      ensures forall t :: t in sessions && sessions[t].playerId == playerId ==> sessions[t] in r
      ensures forall j, k :: 0 <= j < k < |r| ==> r[j].tokenId != r[k].tokenId
    {
      r := [];
      var rest := sessions.Keys;
      while rest != {}
        invariant rest <= sessions.Keys
        invariant forall k :: 0 <= k < |r| ==>
          r[k].playerId == playerId && r[k].tokenId in sessions && sessions[r[k].tokenId] == r[k] && r[k].tokenId !in rest
        invariant forall t :: t in sessions && t !in rest && sessions[t].playerId == playerId ==> sessions[t] in r
        invariant forall j, k :: 0 <= j < k < |r| ==> r[j].tokenId != r[k].tokenId
        decreases |rest|
      {
        var t :| t in rest;
        if sessions[t].playerId == playerId {
          r := r + [sessions[t]];
        }
        rest := rest - {t};
      }
    }
  }

  /** A session is valid at every instant up to and including its expiry, and at none after. */
  lemma CreatedThenVerified(sessions: map<string, SessionToken>, tokenId: string, playerId: int,
                            issuedAt: nat, duration: nat, now: nat)
    ensures var s := sessions[tokenId := SessionToken(tokenId, playerId, issuedAt, issuedAt + duration)];
      Verify(s, tokenId, now) == if now <= issuedAt + duration then Ok(playerId) else Err("Session expired")
  {
  }

  /** At the expiry instant a session still verifies, yet cleanup at that instant removes it. */
  lemma ExpiryBoundary(sessions: map<string, SessionToken>, tokenId: string)
    requires tokenId in sessions
    ensures Verify(sessions, tokenId, sessions[tokenId].expiresAt).Ok?
    ensures tokenId !in Unexpired(sessions, sessions[tokenId].expiresAt)
  {
  }

  /** Revoking one player's sessions leaves every other player's sessions verifying as before. */
  lemma RevokeAllKeepsOthers(sessions: map<string, SessionToken>, playerId: int, tokenId: string, now: nat)
    requires tokenId in sessions && sessions[tokenId].playerId != playerId
    ensures Verify(WithoutPlayer(sessions, playerId), tokenId, now) == Verify(sessions, tokenId, now)
  {
  }

  /** After revoking a player's sessions none of them verifies. */
  lemma RevokeAllRemovesPlayer(sessions: map<string, SessionToken>, playerId: int, tokenId: string, now: nat)
    requires tokenId in sessions && sessions[tokenId].playerId == playerId
    ensures Verify(WithoutPlayer(sessions, playerId), tokenId, now) == Err("Invalid session")
  {
  }

  /** A refresh makes the session valid for another full duration from the refresh instant. */
  lemma RefreshExtends(sessions: map<string, SessionToken>, tokenId: string, now: nat, duration: nat, later: nat)
    requires Verify(sessions, tokenId, now).Ok?
    requires later <= now + duration
    ensures Verify(sessions[tokenId := sessions[tokenId].(expiresAt := now + duration)], tokenId, later)
            == Verify(sessions, tokenId, now)
  {
  }
}
