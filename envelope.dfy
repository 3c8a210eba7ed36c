/**
 * Envelopes of the chat protocol.  JSON text is not modelled: an incoming
 * payload is decoded by a parameter of the handler into an `Inbound` value
 * (or a decoding failure), and an outgoing envelope is an `Outbound` value.
 */
module Envelope {
  import opened Wrappers
  import opened Frames

  /** A client envelope after `json.loads`, by its "type" field. */
  datatype Inbound =
    | Login(username: string)
    | Message(message: string)
    | PartialMessage(message: string)
    | Logout
    | Sticker
    | Drawing
    | Unrecognized  // any other "type": the handler does nothing with it

  /** Decoding one frame's payload. */
  datatype Decoded =
    | Parsed(env: Inbound)
    | JsonError  // json.JSONDecodeError: the frame is skipped and the loop goes on
    | Fault      // any other exception before a state change (bad UTF-8, a missing key, a non-string text): the loop ends

  /**
   * The "type" the server puts on the envelopes it writes with `send_message`
   * and `broadcast_message`: "system", "error", "whisper", "message",
   * "partial_message", "sticker" and "drawing".
   */
  datatype NoteType = SystemNote | ErrorNote | WhisperNote | MessageNote | PartialNote | StickerNote | DrawingNote

  /** An envelope the server writes: `{"type", "sender", "message"}` or the online list. */
  datatype Outbound =
    | Note(kind: NoteType, sender: Option<string>, message: string)
    | OnlineStatus(onlineUsers: seq<string>)

  /** One frame on a connection's outbound stream: a JSON header or raw binary data. */
  datatype Frame = Header(env: Outbound) | Blob(data: Bytes)

  /**
   * The frames one send puts on a connection: the header, then the binary
   * data only when there is some (`if binary_data:` is false for `None` and
   * for an empty buffer).
   */
  function Outgoing(header: Outbound, binary: Option<Bytes>): (fs: seq<Frame>)
    ensures 1 <= |fs| <= 2 && fs[0] == Header(header)
    ensures |fs| == 2 <==> binary.Some? && binary.value != []
    ensures |fs| == 2 ==> fs[1] == Blob(binary.value)
  {
    if binary.Some? && binary.value != [] then [Header(header), Blob(binary.value)] else [Header(header)]
  }
}
