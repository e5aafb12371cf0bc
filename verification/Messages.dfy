/** The wire messages.  A coordinate is the bit pattern of an IEEE single; it is only ever copied. */
module Messages {
  import opened Prelude

  /** The most messages that wait to be sent to one client. */
  const MAX_SEND_QUEUE_SIZE: nat := 200

  type Coordinate = u32

  datatype Payload =
    | ConnectedResponse(index: int)
    | KeepAliveNoti
    | KeepAliveRequest
    | EnterWorldRequest(worldId: u64)
    | EnterWorldResponse(entered: bool)
    | LoginRequest(userId: string, passwordHash: Bytes)
    | LoginResponse(loggedIn: bool, loginError: int, authToken: string)
    | ErrorResponse(errorCode: int)
    | GameOverReport(score: int, killCount: int, surviveSeconds: int)
    | GameOverResponse(saved: bool)
    | MoveRequest(x: Coordinate, y: Coordinate)
    | MoveResponse(moved: bool, echoX: Coordinate, echoY: Coordinate)
    | GameConnectRequest(gameToken: string)
    | GameConnectResponse(joined: bool, joinError: int)

  datatype MessageWrapper = MessageWrapper(messageSize: int, payload: Option<Payload>)

  function Wrap(p: Payload): MessageWrapper {
    MessageWrapper(0, Some(p))
  }
}
