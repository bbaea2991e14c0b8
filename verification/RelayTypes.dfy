/** The data of the gate relay: rows, messages and what arrives from outside, as relay/src/room.ts names them. */
module RelayTypes {
  import opened Common

  // ----- limits -----

  const MAX_MESSAGE_BYTES: nat := 1024
  const MAX_BATCH_BYTES: nat := 32 * 1024
  const MAX_BATCH_ITEMS: nat := 300
  const BACKLOG_PAGE: nat := 1000
  const ROOM_CAP: nat := 20_000
  const PASS_CLAIM_CAP: nat := 2_000
  const UNDO_SLACK_MS: int := 5_000
  const FUTURE_SLACK_MS: int := 5 * 60_000
  const PAST_LIMIT_MS: int := 36 * 3_600_000

  predicate IsHexDigit(c: char) {
    '0' <= c <= '9' || 'a' <= c <= 'f'
  }

  /** Eight, four, four, four and twelve lower-case hexadecimal digits, joined by hyphens. */
  predicate IsUuid(s: string) {
    |s| == 36 &&
    forall i | 0 <= i < 36 :: if i == 8 || i == 13 || i == 18 || i == 23 then s[i] == '-' else IsHexDigit(s[i])
  }

  // ----- rows -----

  /** Who took a check-in back. */
  datatype Remover = ByGate | ByServer

  /** The one row a room keeps for a ticket: a claim, a confirmed check-in, or a tombstone. */
  datatype Row = Row(
    ticketId: string,
    atMs: int,
    gate: Option<string>,
    passId: Option<string>,
    confirmed: bool,
    seqNo: int,
    removed: Option<Remover>)

  /** A room's stored state. `top` is the last sequence number handed out. */
  datatype RoomState = RoomState(rows: map<string, Row>, top: int, epoch: string, revoked: set<string>)

  // ----- room to phone -----

  datatype WireRow = WireRow(ticketId: string, at: int, gate: Option<string>, confirmed: bool, seqNo: int)

  datatype Message =
    | Hello(epoch: string, top: int)
    | CheckIns(rows: seq<WireRow>)
    | Undo(ticketId: string, remover: Remover, at: int, seqNo: int)

  /** What one row or undo on the wire says about its ticket. */
  datatype Fact =
    | In(at: int, gate: Option<string>, confirmed: bool, seqNo: int)
    | Out(remover: Remover, at: int, seqNo: int)

  datatype News = News(ticketId: string, fact: Fact)

  // ----- phone to room, server to room -----

  /** A JSON field, as far as the room looks at it; Other covers missing, non-finite and wrongly typed. */
  datatype Value = Str(s: string) | Num(n: int) | Other

  datatype Item = NotAnObject | Item(t: Value, ticketId: Value, at: Value)

  datatype PhoneJson =
    | NotJson
    | NotObject
    | PhoneObject(t: Value, ticketId: Value, at: Value, items: Option<seq<Item>>)

  /** A text frame: its length and what it parses to. */
  datatype Raw = Raw(length: nat, json: PhoneJson)

  /** `at` and `until` are the parsed dates; None when the field is not a date text. */
  datatype ServerBody =
    | NotABody
    | Body(kind: Value, ticketId: Value, passId: Value, at: Option<int>, until: Option<int>, gate: Value)

  datatype Sender = Sender(passId: string, gate: string)

  datatype Action =
    | Reject(reason: string)
    | Ok(broadcast: seq<Message>, skipSender: bool, closePass: Option<string>, keepUntil: Option<int>,
         warn: Option<string>)

  const NOTHING: Action := Ok([], false, None, None, None)

  /** A room after an operation, and what the operation asks of the surrounding object. */
  datatype Outcome = Outcome(room: RoomState, action: Action)
}
