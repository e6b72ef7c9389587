/**
 * The WebSocket side of the server: the registry of live connections and
 * of reconnect timers, the token check done on authentication, and the
 * order in which the resume, disconnect and timer-expiry handlers update
 * the registry around the match logic.
 */
module WebSocket {
  import opened Wrappers
  import opened Repository
  import opened Database
  import opened Api
  import opened GameLogic
  import opened Decimal
  import opened Strings

  /** Why a send failed: the player has no registered connection. */
  datatype SendError = NotConnected(playerId: int)

  /** The messages of `msgs` that reach a connected player, in order. */
  function Delivered(connected: set<int>, msgs: seq<OutgoingMessage>): (d: seq<OutgoingMessage>)
    ensures |d| <= |msgs|
    ensures forall k :: 0 <= k < |d| ==> d[k].playerId in connected
    decreases |msgs|
  {
    if |msgs| == 0 then []
    else (if msgs[0].playerId in connected then [msgs[0]] else []) + Delivered(connected, msgs[1..])
  }

  /** A message to every player of `ids`, in order. */
  function ToEach(ids: seq<int>, message: ServerMessage<TrisMatch>): (msgs: seq<OutgoingMessage>)
    ensures |msgs| == |ids|
    ensures forall k :: 0 <= k < |ids| ==> msgs[k] == OutgoingMessage(ids[k], message)
    decreases |ids|
  {
    if |ids| == 0 then [] else [OutgoingMessage(ids[0], message)] + ToEach(ids[1..], message)
  }

  /** One more player adds one more message at the end. */
  lemma ToEachSnoc(ids: seq<int>, k: nat, message: ServerMessage<TrisMatch>)
    requires k < |ids|
    ensures ToEach(ids[..k + 1], message) == ToEach(ids[..k], message) + [OutgoingMessage(ids[k], message)]
  {
    var a := ToEach(ids[..k + 1], message);
    var b := ToEach(ids[..k], message) + [OutgoingMessage(ids[k], message)];
    assert |a| == |b|;
    forall j | 0 <= j < |a|
      ensures a[j] == b[j]
    {
    }
  }

  /** Failures are skipped, not fatal: when everybody is connected, everything is delivered. */
  lemma {:induction false} DeliveredAllConnected(connected: set<int>, msgs: seq<OutgoingMessage>)
    requires forall k :: 0 <= k < |msgs| ==> msgs[k].playerId in connected
    ensures Delivered(connected, msgs) == msgs
    decreases |msgs|
  {
    if |msgs| > 0 {
      DeliveredAllConnected(connected, msgs[1..]);
    }
  }

  /** Nobody connected, nothing delivered. */
  lemma {:induction false} DeliveredNoneConnected(connected: set<int>, msgs: seq<OutgoingMessage>)
    requires forall k :: 0 <= k < |msgs| ==> msgs[k].playerId !in connected
    ensures Delivered(connected, msgs) == []
    decreases |msgs|
  {
    if |msgs| > 0 {
      DeliveredNoneConnected(connected, msgs[1..]);
    }
  }

  lemma {:induction false} DeliveredAppend(connected: set<int>, a: seq<OutgoingMessage>, b: seq<OutgoingMessage>)
    ensures Delivered(connected, a + b) == Delivered(connected, a) + Delivered(connected, b)
    decreases |a|
  {
    if |a| == 0 {
      assert a + b == b;
    } else {
      assert (a + b)[0] == a[0];
      assert (a + b)[1..] == a[1..] + b;
      DeliveredAppend(connected, a[1..], b);
    }
  }

  class ConnectionRegistry {
    /** Each connected player's connection, named by its send task. */
    var connections: map<int, nat>
    /** Send tasks aborted when their connection was unregistered. */
    var aborted: set<nat>
    /** Every message handed to a connection, in order. */
    var delivered: seq<OutgoingMessage>
    /** Players with a running reconnect timer, and the match it is for. */
    var disconnects: map<int, int>

    constructor ()
      ensures connections == map[] && aborted == {} && delivered == [] && disconnects == map[]
    {
      connections := map[];
      aborted := {};
      delivered := [];
      disconnects := map[];
    }

    /** Inserts or replaces the player's connection; the timers are not touched. */
    method Register(playerId: int, handle: nat)
      modifies this
      ensures connections == old(connections)[playerId := handle]
      ensures aborted == old(aborted) && delivered == old(delivered) && disconnects == old(disconnects)
    {
      connections := connections[playerId := handle];
    }

    /** Drops the player's connection and aborts its send task; a no-op for an unknown player. */
    method Unregister(playerId: int)
      modifies this
      ensures connections == old(connections) - {playerId}
      ensures aborted == if playerId in old(connections) then old(aborted) + {old(connections)[playerId]} else old(aborted)
      ensures delivered == old(delivered) && disconnects == old(disconnects)
    {
      if playerId in connections {
        aborted := aborted + {connections[playerId]};
        connections := connections - {playerId};
      }
    }

    /** Hands a message to the player's connection; fails exactly when there is none. */
    method SendToPlayer(playerId: int, message: ServerMessage<TrisMatch>) returns (r: Result<(), SendError>)
      modifies this
      ensures r.Err? <==> playerId !in connections
      ensures r.Err? ==> r.error == NotConnected(playerId)
      ensures delivered == old(delivered) + if r.Ok? then [OutgoingMessage(playerId, message)] else []
      ensures connections == old(connections) && aborted == old(aborted) && disconnects == old(disconnects)
    {
      if playerId in connections {
        delivered := delivered + [OutgoingMessage(playerId, message)];
        return Ok(());
      }
      return Err(NotConnected(playerId));
    }

    /** Sends each message in turn, skipping players who are not connected. */
    method SendMessages(msgs: seq<OutgoingMessage>)
      modifies this
      ensures delivered == old(delivered) + Delivered(old(connections).Keys, msgs)
      ensures connections == old(connections) && aborted == old(aborted) && disconnects == old(disconnects)
    {
      var i := 0;
      while i < |msgs|
        invariant 0 <= i <= |msgs|
        invariant delivered == old(delivered) + Delivered(connections.Keys, msgs[..i])
        invariant connections == old(connections) && aborted == old(aborted) && disconnects == old(disconnects)
      {
        var _ := SendToPlayer(msgs[i].playerId, msgs[i].message);
        assert msgs[..i + 1] == msgs[..i] + [msgs[i]];
        DeliveredAppend(connections.Keys, msgs[..i], [msgs[i]]);
        i := i + 1;
      }
      assert msgs[..i] == msgs;
    }

    /** The same message to several players, skipping those not connected. */
    method SendToPlayers(playerIds: seq<int>, message: ServerMessage<TrisMatch>)
      modifies this
      ensures delivered == old(delivered) + Delivered(old(connections).Keys, ToEach(playerIds, message))
      ensures connections == old(connections) && aborted == old(aborted) && disconnects == old(disconnects)
    {
      var i := 0;
      while i < |playerIds|
        invariant 0 <= i <= |playerIds|
        invariant delivered == old(delivered) + Delivered(connections.Keys, ToEach(playerIds[..i], message))
        invariant connections == old(connections) && aborted == old(aborted) && disconnects == old(disconnects)
      {
        ghost var sent := ToEach(playerIds[..i], message);
        ghost var before := delivered;
        var _ := SendToPlayer(playerIds[i], message);
        ghost var one := [OutgoingMessage(playerIds[i], message)];
        assert delivered == before + Delivered(connections.Keys, one);
        ToEachSnoc(playerIds, i, message);
        DeliveredAppend(connections.Keys, sent, one);
        assert delivered == old(delivered) + Delivered(connections.Keys, sent + one);
        i := i + 1;
      }
      assert playerIds[..i] == playerIds;
    }

    /** Removes the player's timer, if any, so no match is resumable any more. */
    method CancelDisconnectTimer(playerId: int)
      modifies this
      ensures disconnects == old(disconnects) - {playerId}
      ensures connections == old(connections) && aborted == old(aborted) && delivered == old(delivered)
    {
      if playerId in disconnects {
        disconnects := disconnects - {playerId};
      }
    }

    /** Replaces any running timer of the player with one for `matchId`. */
    method StartDisconnectTimer(playerId: int, matchId: int)
      modifies this
      ensures disconnects == old(disconnects)[playerId := matchId]
      ensures connections == old(connections) && aborted == old(aborted) && delivered == old(delivered)
    {
      CancelDisconnectTimer(playerId);
      disconnects := disconnects[playerId := matchId];
    }

    method GetResumableMatch(playerId: int) returns (r: Option<int>)
      ensures r.Some? <==> playerId in disconnects
      ensures r.Some? ==> r.value == disconnects[playerId]
    {
      if playerId in disconnects {
        return Some(disconnects[playerId]);
      }
      return None;
    }
  }

  /** The match a player may resume, as the registry records it. */
  function Resumable(disconnects: map<int, int>, playerId: int): (r: Option<int>)
    ensures r.Some? <==> playerId in disconnects
  {
    if playerId in disconnects then Some(disconnects[playerId]) else None
  }

  /** A started timer is what makes a match resumable, and cancelling it ends that. */
  lemma TimerResumable(disconnects: map<int, int>, playerId: int, matchId: int)
    ensures Resumable(disconnects[playerId := matchId], playerId) == Some(matchId)
    ensures Resumable(disconnects - {playerId}, playerId).None?
    ensures forall q :: q != playerId ==> Resumable(disconnects - {playerId}, q) == Resumable(disconnects, q)
  {
  }

  /**
   * A resume request: the timer is cancelled only when there is a match to
   * resume, then the match logic's replies are sent.
   */
  method HandleResumeMatchRequest(registry: ConnectionRegistry, db: MatchTable, playerId: int)
    returns (msgs: seq<OutgoingMessage>)
    modifies registry
    ensures msgs == ResumeReplies(db.rows, playerId, Resumable(old(registry.disconnects), playerId))
    ensures registry.disconnects == old(registry.disconnects) - {playerId}
    ensures registry.delivered == old(registry.delivered) + Delivered(old(registry.connections).Keys, msgs)
    ensures registry.connections == old(registry.connections) && registry.aborted == old(registry.aborted)
  {
    var resumable := registry.GetResumableMatch(playerId);
    if resumable.Some? {
      registry.CancelDisconnectTimer(playerId);
    }
    msgs := HandleResumeMatch(db, playerId, resumable);
    registry.SendMessages(msgs);
  }

  /**
   * A closed connection: the match logic's messages are sent, and a timer
   * is started exactly when the logic returned a match id.
   */
  method HandleDisconnectEvent(registry: ConnectionRegistry, db: MatchTable, playerId: int)
    returns (msgs: seq<OutgoingMessage>, timer: Option<int>)
    requires db.Valid()
    modifies registry, db
    ensures db.Valid()
    ensures registry.disconnects == if timer.Some? then old(registry.disconnects)[playerId := timer.value]
                                    else old(registry.disconnects)
    ensures timer.Some? ==> |msgs| == 1 && msgs[0].message == PlayerDisconnected(playerId)
    ensures registry.delivered == old(registry.delivered) + Delivered(old(registry.connections).Keys, msgs)
    ensures registry.connections == old(registry.connections) && registry.aborted == old(registry.aborted)
  {
    ghost var looked;
    msgs, timer, looked := HandleDisconnect(db, playerId);
    registry.SendMessages(msgs);
    if timer.Some? {
      registry.StartDisconnectTimer(playerId, timer.value);
    }
  }

  /**
   * The reconnect timer expired: the player's timer entry goes first, then
   * the timeout logic runs and its messages are sent.
   */
  method HandleDisconnectTimeoutEvent(registry: ConnectionRegistry, db: MatchTable, playerId: int, matchId: int)
    returns (msgs: seq<OutgoingMessage>)
    requires db.Valid()
    modifies registry, db
    ensures db.Valid()
    ensures registry.disconnects == old(registry.disconnects) - {playerId}
    ensures |msgs| <= 1
    ensures registry.delivered == old(registry.delivered) + Delivered(old(registry.connections).Keys, msgs)
    ensures registry.connections == old(registry.connections) && registry.aborted == old(registry.aborted)
  {
    registry.CancelDisconnectTimer(playerId);
    msgs := HandleDisconnectTimeout(db, playerId, matchId);
    registry.SendMessages(msgs);
  }

  // ----- Token check

  /**
   * The token check on authentication: "player_id:signature" with exactly
   * one ':', an integer player id, a known player and a signature the
   * player's key accepts (the signature check is a parameter), failing in
   * that order.
   */
  function AuthenticateToken(token: string, players: set<int>, signatureValid: (int, string) -> bool)
    : (r: Result<int, string>)
    ensures |Split(token, ':')| != 2 ==> r == Err("Invalid token format")
    ensures |Split(token, ':')| == 2 && ParseI64(Split(token, ':')[0]).None? ==> r == Err("Invalid player ID")
    ensures r.Ok? <==>
      && |Split(token, ':')| == 2
      && ParseI64(Split(token, ':')[0]).Some?
      && ParseI64(Split(token, ':')[0]).value in players
      && signatureValid(ParseI64(Split(token, ':')[0]).value, Split(token, ':')[1])
    ensures r.Ok? ==> r.value == ParseI64(Split(token, ':')[0]).value
  {
    var parts := Split(token, ':');
    if |parts| != 2 then Err("Invalid token format")
    else match ParseI64(parts[0])
      case None => Err("Invalid player ID")
      case Some(playerId) =>
        if playerId !in players then Err("Player not found")
        else if !signatureValid(playerId, parts[1]) then Err("Invalid signature")
        else Ok(playerId)
  }

  /** A well-formed token of a known player with a valid signature authenticates as that player. */
  lemma TokenAccepted(playerId: int, signature: string, players: set<int>, signatureValid: (int, string) -> bool)
    requires I64Min <= playerId <= I64Max && ':' !in signature
    requires playerId in players && signatureValid(playerId, signature)
    ensures AuthenticateToken(IntToString(playerId) + ":" + signature, players, signatureValid) == Ok(playerId)
  {
    SplitTwo(IntToString(playerId), signature, ':');
    assert IntToString(playerId) + ":" + signature == IntToString(playerId) + [':'] + signature;
    ParseRoundTrip(playerId);
  }

  /** A token is well formed only with exactly one ':'. */
  lemma TokenNeedsOneColon(token: string, players: set<int>, signatureValid: (int, string) -> bool)
    requires Occurrences(token, ':') != 1
    ensures AuthenticateToken(token, players, signatureValid) == Err("Invalid token format")
  {
    SplitCount(token, ':');
  }
}
