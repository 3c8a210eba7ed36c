/**
 * One connection's handler loop as functions: what one pass of the loop
 * does to the server state, to the handler's `username` and to the unread
 * bytes of its stream, and the whole loop with its exit cleanup.
 */
module Session {
  import opened Wrappers
  import opened Frames
  import opened Text
  import opened Registry
  import opened Envelope
  import opened Routing

  /** The sender of the server's own notices, which system broadcasts also skip as a user name. */
  const System: Option<string> := Some("system")

  /** `f"{username}"`: a missing name prints as "None". */
  function DisplayName(user: Option<string>): string
  {
    if user.Some? then user.value else "None"
  }

  function JoinNotice(u: string): Frame
  {
    Header(Note(SystemNote, System, u + " has joined the chat."))
  }

  function LeaveNotice(user: Option<string>): Frame
  {
    Header(Note(SystemNote, System, DisplayName(user) + " has left the chat."))
  }

  /** `clients[username] = (conn, addr)`. */
  function Register(st: State, u: string, me: ConnId): (r: State)
    requires Valid(st)
    ensures Valid(r) && r.outbox == st.outbox
    ensures r.clients == st.clients[u := me] && u in r.order
  {
    PutKeepsOrdered(st.clients, st.order, u, me);
    st.(clients := st.clients[u := me], order := InsertOrder(st.order, st.clients, u))
  }

  /** `del clients[username]`. */
  function Unregister(st: State, u: string): (r: State)
    requires Valid(st) && u in st.clients
    ensures Valid(r) && r.outbox == st.outbox
    ensures r.clients == st.clients - {u} && u !in r.order
  {
    DeleteKeepsOrdered(st.clients, st.order, u);
    st.(clients := st.clients - {u}, order := Without(st.order, u))
  }

  /** A `login` envelope: register, announce to all but "system", then the online list to all. */
  function LoginStep(st: State, me: ConnId, u: string): (r: State)
    requires Valid(st)
    ensures Valid(r) && r.clients == st.clients[u := me]
    ensures r.order == InsertOrder(st.order, st.clients, u)
  {
    OnlineStatusAll(Broadcast(Register(st, u, me), System, [JoinNotice(u)]))
  }

  function WhisperFrame(user: Option<string>, text: string): Frame
  {
    Header(Note(WhisperNote, user, text))
  }

  function NotFoundFrame(target: string): Frame
  {
    Header(Note(ErrorNote, System, "User " + target + " not found."))
  }

  function BadFormatFrame(): Frame
  {
    Header(Note(ErrorNote, System, "Invalid whisper format."))
  }

  /** A `message` envelope: a whisper command, or a chat line for everyone but the sender. */
  function MessageStep(st: State, me: ConnId, user: Option<string>, message: string): (r: State)
    requires Valid(st)
    ensures Valid(r) && r.clients == st.clients && r.order == st.order
  {
    if StartsWith(message, "/w ") then
      match ParseWhisper(message)
      case Targeted(target, text) =>
        if target in st.clients then SendTo(st, st.clients[target], [WhisperFrame(user, text)])
        else SendTo(st, me, [NotFoundFrame(target)])
      case BadFormat => SendTo(st, me, [BadFormatFrame()])
    else
      Broadcast(st, user, [Header(Note(MessageNote, user, message))])
  }

  /** A `partial_message` envelope: relayed unless it starts with "/". */
  function PartialStep(st: State, user: Option<string>, message: string): (r: State)
    requires Valid(st)
    ensures Valid(r) && r.clients == st.clients && r.order == st.order
  {
    if !StartsWith(message, "/") then Broadcast(st, user, [Header(Note(PartialNote, user, message))])
    else st
  }

  /** A `logout` envelope: unregister first, then announce and send the online list. */
  function LogoutStep(st: State, user: Option<string>): (r: State)
    requires Valid(st)
    ensures Valid(r)
    ensures r.clients == if user.Some? then st.clients - {user.value} else st.clients
    ensures r.order == if user.Some? then Without(st.order, user.value) else st.order
  {
    var st' := if user.Some? && user.value in st.clients then Unregister(st, user.value) else st;
    var r := OnlineStatusAll(Broadcast(st', System, [LeaveNotice(user)]));
    if user.Some? then WithoutAbsent(st.order, user.value); r else r
  }

  /** After one pass of the loop: the state, `username`, the unread bytes, and whether the loop goes on. */
  datatype Stepped = Stepped(st: State, user: Option<string>, pending: Bytes, goOn: bool)

  /**
   * A `sticker` or `drawing` envelope: read a length and that many bytes
   * and relay them behind an empty-text header.  A stream that ends inside
   * the length makes `struct.unpack` raise, which ends the loop; one that
   * ends inside the data relays the header alone.
   */
  function BinaryStep(st: State, user: Option<string>, kind: NoteType, pending: Bytes): (r: Stepped)
    requires Valid(st)
    ensures Valid(r.st) && r.user == user && |r.pending| <= |pending|
    ensures !r.goOn <==> |pending| < 4
    ensures !r.goOn ==> r.st == st
  {
    var (prefix, rest) := ReadExactly(pending, 4);
    if prefix.None? then Stepped(st, user, rest, false)
    else
      var (data, rest') := ReadExactly(rest, Unpack(prefix.value));
      Stepped(Broadcast(st, user, Outgoing(Note(kind, user, ""), data)), user, rest', true)
  }

  /** Dispatch on the envelope's type; `rest` is what follows the envelope's frame. */
  function Dispatch(st: State, me: ConnId, user: Option<string>, env: Inbound, rest: Bytes): (r: Stepped)
    requires Valid(st)
    ensures Valid(r.st) && |r.pending| <= |rest|
    ensures r.user == if env.Login? then Some(env.username) else user
    ensures !env.Sticker? && !env.Drawing? ==> r.pending == rest && (r.goOn <==> !env.Logout?)
    ensures env.Unrecognized? ==> r.st == st
  {
    match env
    case Login(u) => Stepped(LoginStep(st, me, u), Some(u), rest, true)
    case Message(m) => Stepped(MessageStep(st, me, user, m), user, rest, true)
    case PartialMessage(m) => Stepped(PartialStep(st, user, m), user, rest, true)
    case Logout => Stepped(LogoutStep(st, user), user, rest, false)
    case Sticker => BinaryStep(st, user, StickerNote, rest)
    case Drawing => BinaryStep(st, user, DrawingNote, rest)
    case Unrecognized => Stepped(st, user, rest, true)
  }

  /** A decoding failure skips the frame (`JSONDecodeError`) or ends the loop (any other exception). */
  function Handle(st: State, me: ConnId, user: Option<string>, decoded: Decoded, rest: Bytes): (r: Stepped)
    requires Valid(st)
    ensures Valid(r.st) && |r.pending| <= |rest|
  {
    match decoded
    case JsonError => Stepped(st, user, rest, true)
    case Fault => Stepped(st, user, rest, false)
    case Parsed(env) => Dispatch(st, me, user, env, rest)
  }

  /**
   * One pass of `while True` in `handle_client` on connection `me`, whose
   * peer will still send `pending`.  A missing or empty frame ends the loop.
   */
  function Step(st: State, me: ConnId, user: Option<string>, pending: Bytes, decode: Bytes -> Decoded): (r: Stepped)
    requires Valid(st)
    ensures Valid(r.st) && |r.pending| <= |pending|
    ensures r.goOn ==> |r.pending| < |pending|
    ensures |pending| < 4 ==> !r.goOn && r.st == st && r.user == user
  {
    var (raw, rest) := ReadFrame(pending);
    if raw.None? || raw.value == [] then Stepped(st, user, rest, false)
    else Handle(st, me, user, decode(raw.value), rest)
  }

  /** After the loop: `if username and username in clients: del clients[username]`. */
  function Cleanup(st: State, user: Option<string>): (r: State)
    requires Valid(st)
    ensures Valid(r) && r.outbox == st.outbox
    ensures user.Some? && user.value != "" ==> user.value !in r.clients
    ensures forall u :: u in st.clients && Some(u) != user ==> u in r.clients && r.clients[u] == st.clients[u]
    ensures forall u :: u in r.clients ==> u in st.clients
    ensures user.None? || user.value == "" ==> r == st
    ensures r.order == if user.Some? && user.value != "" then Without(st.order, user.value) else st.order
  {
    if user.Some? && user.value != "" && user.value in st.clients then Unregister(st, user.value)
    else if user.Some? then WithoutAbsent(st.order, user.value); st
    else st
  }

  /**
   * `handle_client` from `username = None` to the end: the state after the
   * cleanup and the final `username`, which is no longer registered unless
   * it is the empty name (which `if username` treats as false).
   */
  function Run(st: State, me: ConnId, user: Option<string>, pending: Bytes, decode: Bytes -> Decoded): (r: (State, Option<string>))
    requires Valid(st)
    ensures Valid(r.0)
    ensures r.1.Some? && r.1.value != "" ==> r.1.value !in r.0.clients
    decreases |pending|
  {
    var s := Step(st, me, user, pending, decode);
    if s.goOn then Run(s.st, me, s.user, s.pending, decode)
    else (Cleanup(s.st, s.user), s.user)
  }
}
