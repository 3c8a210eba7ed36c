# Chat relay server: a Dafny model

This project models the relay core of a small LAN chat server (`server_0.4.py`).
Clients connect over TCP and exchange length-prefixed frames: a 4-byte big-endian
length followed by that many bytes, holding either a JSON envelope or raw binary
data (a sticker or a drawing that follows its envelope). The server keeps a
registry `clients` from user name to connection. One handler loop per connection
reads envelopes and dispatches on their type:

- `login` registers the name.
- `message` is either a `/w <user> <text>` whisper or a chat line for everyone else.
- `partial_message` is a typing notice.
- `logout` unregisters the name and ends the loop.
- `sticker` and `drawing` relay a binary frame.

The model is sequential: one handler step at a time.

- `frames.dfy` (module `Frames`) is the frame codec. It has `Pack`/`Unpack` for
  `struct.pack('>I')`/`struct.unpack('>I')`, and `EncodeFrame`. A connection's
  incoming side is a `Stream` whose `chunks` are the pieces the peer's bytes
  arrive in. `RecvAll` and `RecvMsg` are the source's `recvall` and `recv_msg`.
  `RecvAll` is a loop over `Stream.Recv`, proved against the function
  `ReadExactly` on the unread bytes. `RecvMsg` is straight-line code that calls
  `RecvAll` twice, proved against `ReadFrame`.
- `text.dfy` (module `Text`) covers `str.startswith` and `str.split(" ", n)`,
  plus the whisper syntax built on them.
- `registry.dfy` (module `Registry`) is the `clients` dictionary as a class.
  It holds the map and the key order, because Python dictionaries iterate in
  insertion order:
  - a new key goes last;
  - rebinding a key keeps its place;
  - `del` removes the key.
  
  That order is the order of every broadcast and of the `online_users` list.
- `envelope.dfy` (module `Envelope`) holds the datatypes: incoming envelopes,
  decoding outcomes, outgoing envelopes and outbound frames.
- `routing.dfy` (module `Routing`) is the broadcast/route engine, written as
  functions of the server state. The state is the registry plus each
  connection's outbound frames, which only ever grow at the end.
- `session.dfy` (module `Session`) specifies the handler. It gives one pass of
  `handle_client`'s loop per envelope type (`Step`), and the whole loop with its
  exit cleanup (`Run`).
- `properties.dfy` (module `Properties`) proves the routing promises about those
  functions.
- `server.dfy` (module `Server`) is the server as it runs. It is a class with
  the registry and the outboxes. Its methods `SendMessage`, `BroadcastMessage`,
  `UpdateOnlineStatus` and `HandleClient` change them in place. Each method is
  proved equal to the corresponding function.

JSON is abstract. The handler takes a decoder `decode: Bytes -> Decoded` as a
parameter. It returns one of three outcomes:

- an envelope;
- `JsonError`, for `json.JSONDecodeError`: the frame is skipped;
- `Fault`, for any other exception raised before any state change: the loop ends. Such
  exceptions include invalid UTF-8, a missing `"type"` key, and, inside a
  branch but before it changes anything, a missing `"username"` or `"message"`
  key or a non-string text.

Behaviour of the source kept as written:

- A second login under a name already in use rebinds the name. The earlier
  connection is orphaned.
- Messages sent before any login carry sender `None`. They are shown as "None"
  in the leave notice.
- System notices are broadcast with sender `"system"`, so a user who logged in
  as `"system"` does not get them.
- A frame of length 0 ends the loop (`if not raw_data`).
- A stream that ends inside a sticker's length prefix ends the loop. There,
  `struct.unpack` on `None` raises and lands in `except Exception`.
- A stream that ends inside the sticker's data still relays the header, with no
  binary frame. Empty binary data is never sent.
- The exit cleanup is `if username and username in clients`. It does not
  remove the name `""`.

Two more behaviours of the code worth stating:

- The join notice goes to every registered name except one literally called
  "system", and that includes the joiner.
- A disconnect or error only unregisters the name. No departure notice or
  online list is sent; only an explicit `logout` sends those.

## Model

| member | source | states |
|---|---|---|
| Frames.Pack | server_0.4.py:18 | struct.pack('>I', n) gives four bytes (UnpackPack and PackUnpack prove it inverse to Unpack) |
| Frames.Unpack | server_0.4.py:39 | struct.unpack('>I', b) of four bytes is a length below 2^32 |
| Frames.EncodeFrame | server_0.4.py:17-18 | the frame is 4 + len(data) bytes, the payload follows the prefix unchanged, and the prefix unpacks to len(data) |
| Frames.UnpackPack | server_0.4.py:39 | unpacking the packed length of any n < 2^32 gives n back |
| Frames.PackUnpack | server_0.4.py:39 | every 4-byte prefix is the packing of the length it denotes (the other direction of the round trip) |
| Frames.ReadExactly | server_0.4.py:42-49 | the read yields exactly n bytes that, followed by what stays unread, are the original input; or None, which happens exactly when fewer than n bytes remain, and then everything is consumed |
| Frames.ReadFrame | server_0.4.py:35-40 | a payload read off the stream is exactly an encoded frame followed by the unread rest; an incomplete frame yields None with nothing left |
| Frames.ReadFrameEncode | server_0.4.py:35-40 | recv_msg on an encoded frame followed by anything returns the payload and leaves what follows unread |
| Frames.RecvAll | server_0.4.py:42-49 | the loop returns exactly the next n bytes, or None when the stream ends first, and consumes what ReadExactly says |
| Frames.Stream.Recv | server_0.4.py:45 | conn.recv returns at most the requested number of bytes, the empty result exactly at end of stream, and the returned bytes are the front of what is still unread |
| Frames.RecvMsg | server_0.4.py:35-40 | reading the prefix and then the payload returns what ReadFrame says, leaving the same unread bytes |
| Frames.Stream.constructor | server_0.4.py:51 | a connection starts open, with the given chunks unread |
| Frames.Stream.Close | server_0.4.py:115 | conn.close() marks the connection closed and leaves its unread bytes alone |
| Text.StartsWith | server_0.4.py:71 | s.startswith(prefix) holds exactly when s is prefix followed by the rest of s |
| Text.FindSpaceSpec | server_0.4.py:72 | the separator search reports a space exactly when the text has one, and the one it reports is the first |
| Text.Split | server_0.4.py:72 | str.split(" ", n) gives at least one and at most n+1 parts |
| Text.SplitParts | server_0.4.py:72 | every part but the last is free of spaces |
| Text.SplitLast | server_0.4.py:72 | when fewer than n+1 parts come out, the last part is free of spaces too |
| Text.JoinSplit | server_0.4.py:72 | joining the split parts with single spaces gives back the original text |
| Text.ParseWhisperIff | server_0.4.py:71-75 | for a message starting "/w ", the parse is (target, text) iff the message is "/w " + target + " " + text with no space in target; the format is bad iff nothing after the prefix contains a space |
| Text.ParseWhisper | server_0.4.py:72-75 | a parsed whisper target never contains a space |
| Registry.InsertOrder | server_0.4.py:64 | the keys already present keep their places; a new name is added at the end and a rebound one adds nothing |
| Registry.Without | server_0.4.py:92 | deleting a key keeps exactly the other keys and keeps them distinct |
| Registry.WithoutSplice | server_0.4.py:92 | deleting a key cuts it out of the order and leaves the keys before and after it in place |
| Registry.PutKeepsOrdered | server_0.4.py:64 | after clients[u] = c the insertion-order key list (a new name appended, a rebound one left in place) still lists every registered name exactly once and nothing else |
| Registry.DeleteKeepsOrdered | server_0.4.py:92 | after del clients[u] the key list with u cut out still lists every remaining name exactly once and nothing else |
| Registry.OrderedCard | server_0.4.py:121 | the online list has exactly as many entries as the registry has names, so each name appears once |
| Registry.Registry.constructor | server_0.4.py:9 | the registry starts empty, with an empty key order |
| Registry.Registry.Put | server_0.4.py:64 | the name is bound to the connection, any earlier binding is replaced, and the key order follows dictionary insertion order |
| Registry.Registry.Delete | server_0.4.py:92 | the name is removed and the other names keep their bindings and order |
| Envelope.Outgoing | server_0.4.py:19-20 | one send is the header, followed by one binary frame exactly when the binary data is present and non-empty |
| Routing.Append | server_0.4.py:18 | a send grows the target connection's frames by exactly the sent frames and leaves every other connection unchanged |
| Routing.FanOutSent | server_0.4.py:29-33 | a broadcast appends to each connection one contiguous copy of the frames per name bound to it other than the sender, so a header is immediately followed by its binary frame |
| Routing.BroadcastGrows | server_0.4.py:22-33 | a broadcast only appends to each connection's frames, whoever it skips and however names share connections |
| Routing.DeliverSent | server_0.4.py:30-33 | one turn of the broadcast loop adds one copy of the frames to a connection exactly when the turn's name is bound to it and is not the sender |
| Routing.CountOnce | server_0.4.py:29-30 | over distinct names with one name per connection, each connection is reached at most once |
| Routing.Broadcasted | server_0.4.py:22-33 | with one name per connection, every connection of a name other than the sender gets the frames once and no other connection gets anything, including the sender's |
| Routing.Broadcast | server_0.4.py:22-33 | a broadcast leaves the registry and its order unchanged |
| Routing.OnlineStatusAll | server_0.4.py:120-128 | sending the online list leaves the registry and its order unchanged |
| Routing.SendTo | server_0.4.py:11-20 | send_message changes only the target connection's frames, by appending, and leaves the registry unchanged |
| Session.Register | server_0.4.py:64 | login binds the name to this connection and lists it in the key order; outboxes are untouched |
| Session.Unregister | server_0.4.py:92 | the name is removed from the registry and the key order; outboxes are untouched |
| Session.LoginStep | server_0.4.py:62-67 | login leaves the registry with the name bound to this connection (overwriting) in dictionary order |
| Session.MessageStep | server_0.4.py:69-83 | a message never changes the registry |
| Session.PartialStep | server_0.4.py:85-88 | a typing notice never changes the registry |
| Session.LogoutStep | server_0.4.py:90-95 | logout removes the user's name, and only it, from the registry and the order |
| Session.BinaryStep | server_0.4.py:97-105 | the loop ends exactly when the stream holds fewer than 4 bytes for the length, and then nothing changes; no more bytes are consumed than are there |
| Session.Dispatch | server_0.4.py:62-105 | dispatch keeps the registry consistent and reads nothing before the envelope's end; `login` makes its name the handler's name and every other type keeps the name; every type but sticker and drawing reads nothing more from the stream, and the loop goes on for all of them except `logout`; an unrecognized type (the `if`/`elif` chain has no `else`) changes nothing |
| Session.Handle | server_0.4.py:107-113 | a decoding failure or an envelope keeps the registry consistent and reads only after the frame |
| Session.Step | server_0.4.py:55-59 | one pass keeps the registry consistent; a pass that continues consumes at least one byte; a stream of fewer than 4 bytes ends the loop with nothing changed |
| Session.Cleanup | server_0.4.py:116-117 | after the loop the handler's name is gone unless it is empty or absent, every other binding is kept, no name is added, and the remaining names keep their dictionary order; an empty or absent name changes nothing |
| Session.Run | server_0.4.py:51-118 | the whole handler ends with its final name (if non-empty) no longer registered, and the registry consistent |
| Properties.LogoutEndsLoop | server_0.4.py:90-95 | a `logout` envelope ends the loop after the logout step, keeps the handler's name and reads nothing past its frame |
| Properties.LoginNamesHandler | server_0.4.py:62-67 | a `login` envelope makes its name the handler's name, and the loop goes on with what follows the frame |
| Properties.StepOnFrame | server_0.4.py:57-60 | on a well-formed non-empty frame, one pass handles exactly that frame's payload and leaves the rest unread |
| Properties.DecodeFailure | server_0.4.py:107-113 | invalid JSON skips the frame with the state unchanged and the loop going on; any other decoding exception ends the loop with the state unchanged |
| Properties.TruncatedFrameEnds | server_0.4.py:57-59 | a stream cut at any point inside a frame's length or payload ends the loop without changing the state; an empty frame ends it too, whatever follows, leaving the following bytes unread |
| Properties.WhisperRouting | server_0.4.py:71-79 | "/w target text": if the target is registered only its connection gets a whisper note (WhisperFrame) from the sender with that text; otherwise only the sender gets the error note "User target not found." from "system" (NotFoundFrame) |
| Properties.WhisperBadFormat | server_0.4.py:80-81 | "/w " with no second space: only the sender gets the error note "Invalid whisper format." from "system" (BadFormatFrame) |
| Properties.ChatRouting | server_0.4.py:82-88 | a non-whisper line, or a typing notice not starting with "/", reaches every other user's connection once and not the sender's; a typing notice starting with "/" sends nothing |
| Properties.LoginDelivers | server_0.4.py:62-67 | login overwrites the binding; every name other than "system", including the joiner, gets the system note "<name> has joined the chat." (JoinNotice), then every registered connection gets the online list in dictionary order |
| Properties.LogoutDelivers | server_0.4.py:90-95 | logout removes the name first, so the leaving connection gets neither the notice nor the online list; the other bindings are kept and the other connections get the system note "<name> has left the chat." (LeaveNotice, with "None" for a handler that never logged in, as DisplayName gives) and then the online list |
| Properties.LoginLogout | server_0.4.py:62-95 | login followed by logout drops the name and keeps every other binding and its place |
| Properties.LoginLogoutRestores | server_0.4.py:62-95 | under a name not yet in use, login then logout restores the registry and its order |
| Properties.LoginGrowsRegistry | server_0.4.py:64 | a login under a new name adds exactly one registry entry, a repeated name none |
| Properties.BinaryRelay | server_0.4.py:97-105 | a sticker or drawing with a complete binary frame relays header and data to everyone but the sender and leaves what follows unread; a stream cut anywhere inside the data relays the header alone and goes on; a stream cut inside the length ends the loop with nothing changed |
| Properties.TwoUsersChat | server_0.4.py:62-83 | from an empty registry, two users other than "system" log in on two connections and the first sends a line that is not a whisper: both connections get the join notice for the second and then the online list [first, second]; the second gets the line from the first, and the first gets nothing |
| Properties.LoginStepGrows | server_0.4.py:62-67 | a login only appends to each connection's frames |
| Properties.LogoutStepGrows | server_0.4.py:90-95 | a logout only appends to each connection's frames |
| Properties.MessageStepGrows | server_0.4.py:69-83 | a chat line, whisper or error reply only appends to each connection's frames |
| Properties.DispatchGrows | server_0.4.py:62-105 | whatever the envelope type, nothing already sent to any connection is changed or taken back |
| Properties.StepGrows | server_0.4.py:55-113 | one pass of the handler loop only appends to each connection's frames |
| Properties.RunGrows | server_0.4.py:51-118 | over a whole handler, loop and cleanup, every connection's earlier frames are a prefix of its later ones |
| Server.Server.SendMessage | server_0.4.py:11-20 | the method appends the header and any binary data to one connection, as SendTo says |
| Server.Server.BroadcastMessage | server_0.4.py:22-33 | the loop over the names in dictionary order does what Broadcast says |
| Server.Server.UpdateOnlineStatus | server_0.4.py:120-128 | the loop sends the current key list to every registered connection, as OnlineStatusAll says |
| Server.Server.constructor | server_0.4.py:9 | the server starts with no registered names and no frames sent |
| Server.Server.SendFrames | server_0.4.py:17-20 | one send appends the header frame and, when the binary data is non-empty, its frame, to that connection only |
| Server.Server.HandleLogin | server_0.4.py:62-67 | the login branch changes the registry and the outboxes as LoginStep says |
| Server.Server.HandleMessage | server_0.4.py:69-83 | the message branch routes the whisper, error or chat line as MessageStep says |
| Server.Server.HandlePartial | server_0.4.py:85-88 | the typing-notice branch does what PartialStep says |
| Server.Server.HandleLogout | server_0.4.py:90-95 | the logout branch unregisters and announces as LogoutStep says |
| Server.Server.HandleBinary | server_0.4.py:97-105 | the sticker and drawing branches read the binary frame off the stream and relay it as BinaryStep says |
| Server.Server.HandleEnvelope | server_0.4.py:62-105 | dispatch on the envelope's type does what Dispatch says |
| Server.Server.HandleStep | server_0.4.py:55-113 | one pass of the loop changes the registry, the outboxes and the stream as Step says |
| Server.Server.HandleClient | server_0.4.py:51-118 | the handler ends with the connection closed, the state as Run says, its final non-empty name unregistered, and every connection's frames only extended at the end |

## Left out

- The socket accept loop and the thread per connection (`server_0.4.py:130-138`) are left out. So is the unsynchronised concurrent access to `clients`: the model runs one handler step at a time.
- JSON text is not modelled. Envelopes are datatypes, and decoding is the `decode` parameter. Which payloads fail with `JSONDecodeError` and which with another exception is up to that parameter.
- User names are strings in the model. At `server_0.4.py:64` the source accepts any hashable `"username"`: a number, `null` or `true` is registered as that key, announced ("5 has joined the chat.") and listed in the online list. Such non-string names are not represented.
- A list or object `"username"` is decoded to `Fault` in the model, which ends the loop and then unregisters the handler's earlier name. The source differs after the loop: it rebinds `username` to the list or object (`server_0.4.py:63`) before the insert raises (`server_0.4.py:64`), so its cleanup (`server_0.4.py:116`) either raises `TypeError` on `username in clients` or, for an empty one, is skipped. Either way the earlier name stays registered, bound to the closed connection; the model removes it.
- Receive errors are not modelled: the stream ends only by end of file. A `ConnectionResetError` raised by `conn.recv` (`server_0.4.py:45`) lands in `except Exception` (`server_0.4.py:111`) and ends the loop. Inside a sticker's or drawing's data the two differ: the source then relays nothing, while the model, seeing end of file, relays the header alone and goes on.
- Send failures are not modelled. A `conn.send` to a closed or broken socket raises and would end the loop of the handler that is sending. A `conn.send` may also write fewer bytes than it was given, and the source never checks its return value (`server_0.4.py:18`, `20`, `31`, `33`, `128`). In the model every send succeeds and writes every byte.
- `conn.close()` only sets the `closed` mark. Logging (`print`), the address tuple stored with each connection, and the host/port constants are left out.
- The frame length a server header would need is not modelled, because headers are JSON values and are never encoded to bytes here. Binary data always came from a 4-byte length, so it is below 2^32.
- `client_0.6.py` (the GUI client) is not part of this model.
- Routing.Broadcasted requires that each connection is bound to at most one name. When a connection logs in twice under different names, Routing.FanOutSent still gives the exact count of copies each connection gets.
- Properties.ChatRouting requires that each connection is bound to at most one name; Routing.FanOutSent gives the general count.
- Properties.LoginDelivers requires that each connection is bound to at most one name; Routing.FanOutSent gives the general count.
- Properties.LogoutDelivers requires that each connection is bound to at most one name; Routing.FanOutSent gives the general count.
