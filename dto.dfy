/** The wire-level signaling message (dto/websocket.go) and the values it carries. */
module Dto {

  /** The result of parsing one inbound frame: None when the JSON decoder rejects it. */
  datatype Option<+T> = None | Some(value: T)

  /** The opaque JSON payload a client attaches (an SDP description or an ICE candidate).
      The relay never looks inside it; numbers are kept as their literal text. */
  datatype Json =
    | JNull
    | JBool(b: bool)
    | JNumber(literal: string)
    | JString(s: string)
    | JArray(items: seq<Json>)
    | JObject(fields: map<string, Json>)

  /** One signaling message. A Go string field left unset is "", an unset payload is JNull. */
  datatype Message = Message(
    msgType: string,
    from: string,
    to: string,
    roomId: string,
    username: string,
    payload: Json)

  const MessageTypeOffer: string := "offer"
  const MessageTypeAnswer: string := "answer"
  const MessageTypeCandidate: string := "candidate"
  const MessageTypeJoin: string := "join"
  const MessageTypeLeave: string := "leave"
  const MessageTypeReady: string := "ready"
  const MessageTypeError: string := "error"

  /** The three negotiation message types that are relayed verbatim to the peer. */
  predicate IsNegotiation(msgType: string) {
    msgType == MessageTypeOffer || msgType == MessageTypeAnswer || msgType == MessageTypeCandidate
  }
}
