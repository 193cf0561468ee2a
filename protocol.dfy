/**
 * The wire vocabulary shared by the pong server and client (include/protocol.h):
 * the one-byte message tags, the three message records with their default tags,
 * and the event a received buffer becomes on the client.
 *
 * Only the first byte of a message's image is modelled (it is the tag); the rest of
 * the struct layout (sizeof, padding, float format) is left out.
 */
module Protocol {
  import opened Options

  /** One octet: the unit of every buffer and the width of the tag. */
  type byte = bv8

  /** The role of a connection. (PlayerId is declared in common.h, which is not part of this model.) */
  datatype PlayerId = Player1 | Player2

  /** The other role. */
  function Opposite(p: PlayerId): (q: PlayerId)
    ensures q != p
  {
    if p == Player1 then Player2 else Player1
  }

  /** enum class MessageType : uint8_t, enumerators in declaration order. */
  datatype MessageType = InitMsgType | PlayerInputMsgType | GameStateMsgType

  /** The underlying uint8_t of each enumerator. */
  function Tag(t: MessageType): (b: byte)
    ensures b < 3
  {
    match t
    case InitMsgType => 0
    case PlayerInputMsgType => 1
    case GameStateMsgType => 2
  }

  /**
   * Which enumerator a byte names, if any: the reverse of Tag. Bytes 3..255 name no
   * enumerator (a switch over them falls to its default branch).
   */
  function TypeOfTag(b: byte): (r: Option<MessageType>)
    ensures r == None <==> b >= 3
    ensures forall t :: r == Some(t) <==> Tag(t) == b
  {
    if b == 0 then Some(InitMsgType)
    else if b == 1 then Some(PlayerInputMsgType)
    else if b == 2 then Some(GameStateMsgType)
    else None
  }

  /** Handshake message: tag, then the role the server assigns. */
  datatype InitMsg = InitMsg(msgType: MessageType, pId: PlayerId)

  /** Per-frame input: tag, then the key mask (bits 0/1/2/3 = p1 up/down, p2 up/down). */
  datatype PlayerInputMsg = PlayerInputMsg(msgType: MessageType, mask: byte)

  /** Periodic correction: tag, ball position, the sender's role and one player's y. */
  datatype GameStateMsg = GameStateMsg(msgType: MessageType, ballX: real, ballY: real, pId: PlayerId, pY: real)

  /** A received buffer on the client: its kind (the raw first byte) and a copy of all its bytes. */
  datatype NetEvent = NetEvent(kind: byte, data: seq<byte>)

  /** `InitMsg init_msg; init_msg.p_id = p;` — the tag keeps its default initialiser. */
  function NewInitMsg(p: PlayerId): (m: InitMsg)
    ensures m.msgType == InitMsgType
    ensures m.pId == p
  {
    InitMsg(InitMsgType, p)
  }

  /** `PlayerInputMsg pi_msg; pi_msg.mask = mask;` — the tag keeps its default initialiser. */
  function NewPlayerInputMsg(mask: byte): (m: PlayerInputMsg)
    ensures m.msgType == PlayerInputMsgType
    ensures m.mask == mask
  {
    PlayerInputMsg(PlayerInputMsgType, mask)
  }

  /** `GameStateMsg gs_msg;` with its four fields filled in — the tag keeps its default initialiser. */
  function NewGameStateMsg(ballX: real, ballY: real, p: PlayerId, pY: real): (m: GameStateMsg)
    ensures m.msgType == GameStateMsgType
    ensures m.ballX == ballX && m.ballY == ballY && m.pId == p && m.pY == pY
  {
    GameStateMsg(GameStateMsgType, ballX, ballY, p, pY)
  }

  /** A byte image whose first byte is the tag of `t`: the one layout fact both ends rely on. */
  predicate StartsWithTag(bytes: seq<byte>, t: MessageType)
  {
    |bytes| > 0 && bytes[0] == Tag(t)
  }

  /** The enumerator an event's kind byte names; None sends it to the default branch. */
  function EventType(e: NetEvent): Option<MessageType>
  {
    TypeOfTag(e.kind)
  }
}
