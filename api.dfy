/**
 * The WebSocket protocol: what a client may send and what the server
 * answers. The match carried by the match-bearing messages is a type
 * parameter, because the server's handlers send the cells-only match of
 * the table layer while the clients read the multi-game match record.
 */
module Api {
  import opened Matches

  datatype ClientMessage =
    | Authenticate(token: string)
    | JoinMatchmaking
    | ResumeMatch
    | MakeMove(row: nat, col: nat)
    | Ping

  datatype ServerMessage<M> =
    | AuthSuccess(playerId: int)
    | AuthFailed(failure: string)
    | WaitingForOpponent
    | MatchFound(matchData: M)
    | GameStateUpdate(matchData: M)
    | PlayerDisconnected(playerId: int)
    | ResumableMatch(matchData: M)
    | Error(message: string)
    | MatchEnded(endReason: MatchEndReason)
    | Pong
}
