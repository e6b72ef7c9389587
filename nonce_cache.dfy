/**
 * Single-use login nonces: issued for a player, consumable once by that
 * player within 60 seconds, swept after 300 seconds. Instants are whole
 * seconds passed in as `now`; nonce strings (random) are passed in too.
 */
module NonceCache {
  import opened Wrappers

  datatype NonceInfo = NonceInfo(playerId: int, createdAt: nat, used: bool)

  /** How long a nonce may be consumed, and how long it is kept. */
  const MaxAge: nat := 60
  const KeepFor: nat := 300

  /** Time since `createdAt`; None when the clock reads earlier than the creation instant. */
  function Elapsed(createdAt: nat, now: nat): (r: Option<nat>)
    ensures r.Some? <==> now >= createdAt
    ensures r.Some? ==> createdAt + r.value == now
  {
    if now >= createdAt then Some(now - createdAt) else None
  }

  /** Expired for consumption: older than 60 s, an unreadable age counting as 61 s. */
  predicate TooOldToUse(info: NonceInfo, now: nat)
  {
    var age := Elapsed(info.createdAt, now);
    (if age.Some? then age.value else 61) > MaxAge
  }

  /** Kept by the sweep: younger than 300 s, an unreadable age counting as 0 s. */
  predicate Fresh(info: NonceInfo, now: nat)
  {
    var age := Elapsed(info.createdAt, now);
    (if age.Some? then age.value else 0) < KeepFor
  }

  /** The outcome of consuming `nonce` for `playerId` at `now`, checks in source order. */
  function Consume(nonces: map<string, NonceInfo>, nonce: string, playerId: int, now: nat): (r: Result<(), string>)
    ensures nonce !in nonces ==> r == Err("Invalid nonce")
    ensures nonce in nonces && nonces[nonce].used ==> r == Err("Nonce already used")
    ensures nonce in nonces && !nonces[nonce].used && nonces[nonce].playerId != playerId ==> r == Err("Wrong player")
    ensures r.Ok? <==>
      nonce in nonces && !nonces[nonce].used && nonces[nonce].playerId == playerId && !TooOldToUse(nonces[nonce], now)
  {
    if nonce !in nonces then Err("Invalid nonce")
    else
      var info := nonces[nonce];
      if info.used then Err("Nonce already used")
      else if info.playerId != playerId then Err("Wrong player")
      else if TooOldToUse(info, now) then Err("Nonce expired")
      else Ok(())
  }

  class NonceCache {
    var nonces: map<string, NonceInfo>

    constructor ()
      ensures nonces == map[]
    {
      nonces := map[];
    }

    /** Files an unused nonce for the player, created at `now`. */
    method CreateNonce(playerId: int, nonce: string, now: nat) returns (r: string)
      modifies this
      ensures r == nonce && nonces == old(nonces)[nonce := NonceInfo(playerId, now, false)]
    {
      nonces := nonces[nonce := NonceInfo(playerId, now, false)];
      return nonce;
    }

    /** Consumes the nonce: on success it is marked used; on failure nothing changes. */
    method VerifyAndConsume(nonce: string, playerId: int, now: nat) returns (r: Result<(), string>)
      modifies this
      ensures r == Consume(old(nonces), nonce, playerId, now)
      ensures nonces == if r.Ok? then old(nonces)[nonce := old(nonces)[nonce].(used := true)] else old(nonces)
    {
      if nonce !in nonces {
        return Err("Invalid nonce");
      }
      var info := nonces[nonce];
      if info.used {
        return Err("Nonce already used");
      }
      if info.playerId != playerId {
        return Err("Wrong player");
      }
      var age := Elapsed(info.createdAt, now);
      if (if age.Some? then age.value else 61) > MaxAge {
        return Err("Nonce expired");
      }
      nonces := nonces[nonce := info.(used := true)];
      return Ok(());
    }

    /** Keeps exactly the fresh nonces. */
    method CleanupExpired(now: nat)
      modifies this
      ensures nonces == map n | n in old(nonces) && Fresh(old(nonces)[n], now) :: old(nonces)[n]
    {
      nonces := map n | n in nonces && Fresh(nonces[n], now) :: nonces[n];
    }
  }

  /** A fresh nonce is consumable by its player up to 60 s after its creation. */
  lemma CreatedThenConsumable(nonces: map<string, NonceInfo>, nonce: string, playerId: int, createdAt: nat, now: nat)
    requires createdAt <= now <= createdAt + MaxAge
    ensures Consume(nonces[nonce := NonceInfo(playerId, createdAt, false)], nonce, playerId, now).Ok?
  {
  }

  /** Once consumed, a nonce is refused at any later instant. */
  lemma SingleUse(nonces: map<string, NonceInfo>, nonce: string, playerId: int, now: nat, later: nat)
    requires Consume(nonces, nonce, playerId, now).Ok?
    ensures Consume(nonces[nonce := nonces[nonce].(used := true)], nonce, playerId, later) == Err("Nonce already used")
  {
  }

  /**
   * An unreadable clock (now before creation) makes a nonce unusable, yet
   * the sweep keeps it.
   */
  lemma UnreadableClock(info: NonceInfo, now: nat)
    requires now < info.createdAt
    ensures TooOldToUse(info, now) && Fresh(info, now)
  {
  }

  /** Past 60 s but before 300 s a nonce can no longer be used, though it is still kept. */
  lemma ExpiredButKept(info: NonceInfo, now: nat)
    requires info.createdAt + MaxAge < now < info.createdAt + KeepFor
    ensures TooOldToUse(info, now) && Fresh(info, now)
  {
  }
}
