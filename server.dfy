/**
 * The relay server as it runs: the `clients` registry and every
 * connection's outbound frames, changed in place by `send_message`,
 * `broadcast_message`, `update_online_status` and the `handle_client`
 * loop.  Each method is proved to do what the corresponding function of
 * the `Routing` and `Session` modules says.
 */
module Server {
  import opened Wrappers
  import opened Frames
  import opened Text
  import opened Registry
  import opened Envelope
  import opened Routing
  import opened Session
  import opened Properties

  class Server {
    const reg: Registry
    /** Every frame written so far, per connection; a connection's frames only ever grow at the end. */
    var outbox: map<ConnId, seq<Frame>>

    ghost predicate Valid()
      reads this, reg
    {
      reg.Valid()
    }

    /** The server state as a value. */
    function Snapshot(): State
      reads this, reg
    {
      State(reg.clients, reg.order, outbox)
    }

    constructor ()
      ensures Valid() && fresh(reg)
      ensures Snapshot() == State(map[], [], map[])
    {
      reg := new Registry();
      outbox := map[];
    }

    /** The two `conn.send` calls shared by `send_message` and `broadcast_message`: the header, then any binary data. */
    method SendFrames(conn: ConnId, header: Outbound, binary: Option<Bytes>)
      modifies this
      ensures outbox == Append(old(outbox), conn, Outgoing(header, binary))
    {
      outbox := Append(outbox, conn, [Header(header)]);
      if binary.Some? && binary.value != [] {
        AppendAppend(old(outbox), conn, [Header(header)], [Blob(binary.value)]);
        assert [Header(header)] + [Blob(binary.value)] == Outgoing(header, binary);
        outbox := Append(outbox, conn, [Blob(binary.value)]);
      }
    }

    /** `send_message(conn, message_type, sender, message, binary_data)`. */
    method SendMessage(conn: ConnId, kind: NoteType, sender: Option<string>, message: string, binary: Option<Bytes>)
      modifies this
      ensures Snapshot() == SendTo(old(Snapshot()), conn, Outgoing(Note(kind, sender, message), binary))
    {
      SendFrames(conn, Note(kind, sender, message), binary);
    }

    /** `broadcast_message(sender, message_type, message, binary_data)`: every name but `sender`, in dictionary order. */
    method BroadcastMessage(sender: Option<string>, kind: NoteType, message: string, binary: Option<Bytes>)
      requires Valid()
      modifies this
      ensures Valid()
      ensures Snapshot() == Broadcast(old(Snapshot()), sender, Outgoing(Note(kind, sender, message), binary))
    {
      var header := Note(kind, sender, message);
      ghost var fs := Outgoing(header, binary);
      var keys := reg.order;
      var i := 0;
      while i < |keys|
        invariant 0 <= i <= |keys|
        invariant FanOut(outbox, reg.clients, keys[i..], sender, fs) == FanOut(old(outbox), reg.clients, keys, sender, fs)
      {
        var username := keys[i];
        assert keys[i..][1..] == keys[i + 1..];
        if Some(username) != sender {
          SendFrames(reg.clients[username], header, binary);
        }
        i := i + 1;
      }
    }

    /** `update_online_status()`: the key list, to every registered name. */
    method UpdateOnlineStatus()
      requires Valid()
      modifies this
      ensures Valid()
      ensures Snapshot() == OnlineStatusAll(old(Snapshot()))
    {
      var onlineUsers := reg.order;
      var frame := Header(OnlineStatus(onlineUsers));
      var i := 0;
      while i < |onlineUsers|
        invariant 0 <= i <= |onlineUsers|
        invariant FanOut(outbox, reg.clients, onlineUsers[i..], None, [frame])
                  == FanOut(old(outbox), reg.clients, onlineUsers, None, [frame])
      {
        assert onlineUsers[i..][1..] == onlineUsers[i + 1..];
        outbox := Append(outbox, reg.clients[onlineUsers[i]], [frame]);
        i := i + 1;
      }
    }

    method HandleLogin(me: ConnId, u: string)
      requires Valid()
      modifies this, reg
      ensures Valid()
      ensures Snapshot() == LoginStep(old(Snapshot()), me, u)
    {
      reg.Put(u, me);
      assert Snapshot() == Register(old(Snapshot()), u, me);
      assert Outgoing(Note(SystemNote, System, u + " has joined the chat."), None) == [JoinNotice(u)];
      BroadcastMessage(System, SystemNote, u + " has joined the chat.", None);
      UpdateOnlineStatus();
    }

    method HandleMessage(me: ConnId, user: Option<string>, message: string)
      requires Valid()
      modifies this
      ensures Valid()
      ensures Snapshot() == MessageStep(old(Snapshot()), me, user, message)
    {
      if StartsWith(message, "/w ") {
        var parts := Split(message, 2);
        if |parts| >= 3 {
          var target, text := parts[1], parts[2];
          if target in reg.clients {
            SendMessage(reg.clients[target], WhisperNote, user, text, None);
          } else {
            assert Outgoing(Note(ErrorNote, System, "User " + target + " not found."), None) == [NotFoundFrame(target)];
            SendMessage(me, ErrorNote, System, "User " + target + " not found.", None);
          }
        } else {
          SendMessage(me, ErrorNote, System, "Invalid whisper format.", None);
        }
      } else {
        assert Outgoing(Note(MessageNote, user, message), None) == [Header(Note(MessageNote, user, message))];
        BroadcastMessage(user, MessageNote, message, None);
      }
    }

    method HandlePartial(user: Option<string>, message: string)
      requires Valid()
      modifies this
      ensures Valid()
      ensures Snapshot() == PartialStep(old(Snapshot()), user, message)
    {
      if !StartsWith(message, "/") {
        assert Outgoing(Note(PartialNote, user, message), None) == [Header(Note(PartialNote, user, message))];
        BroadcastMessage(user, PartialNote, message, None);
      }
    }

    method HandleLogout(user: Option<string>)
      requires Valid()
      modifies this, reg
      ensures Valid()
      ensures Snapshot() == LogoutStep(old(Snapshot()), user)
    {
      if user.Some? && user.value in reg.clients {
        reg.Delete(user.value);
        assert Snapshot() == Unregister(old(Snapshot()), user.value);
      }
      assert Outgoing(Note(SystemNote, System, DisplayName(user) + " has left the chat."), None) == [LeaveNotice(user)];
      BroadcastMessage(System, SystemNote, DisplayName(user) + " has left the chat.", None);
      UpdateOnlineStatus();
    }

    /** The `sticker` and `drawing` branches: one length-prefixed blob follows the envelope. */
    method HandleBinary(conn: Stream, user: Option<string>, kind: NoteType) returns (goOn: bool)
      requires Valid() && conn.Valid()
      modifies this, conn
      ensures Valid() && conn.Valid()
      ensures Stepped(Snapshot(), user, conn.Pending(), goOn) == BinaryStep(old(Snapshot()), user, kind, old(conn.Pending()))
    {
      var prefix := RecvAll(conn, 4);
      if prefix.None? {
        return false;
      }
      var length := Unpack(prefix.value);
      var data := RecvAll(conn, length);
      BroadcastMessage(user, kind, "", data);
      return true;
    }

    /** The type dispatch of `handle_client` for one decoded envelope. */
    method HandleEnvelope(conn: Stream, user: Option<string>, env: Inbound) returns (user': Option<string>, goOn: bool)
      requires Valid() && conn.Valid()
      modifies this, reg, conn
      ensures Valid() && conn.Valid()
      ensures Stepped(Snapshot(), user', conn.Pending(), goOn)
              == Dispatch(old(Snapshot()), conn.id, user, env, old(conn.Pending()))
    {
      user', goOn := user, true;
      match env
      case Login(u) =>
        user' := Some(u);
        HandleLogin(conn.id, u);
      case Message(m) =>
        HandleMessage(conn.id, user, m);
      case PartialMessage(m) =>
        HandlePartial(user, m);
      case Logout =>
        HandleLogout(user);
        goOn := false;
      case Sticker =>
        goOn := HandleBinary(conn, user, StickerNote);
      case Drawing =>
        goOn := HandleBinary(conn, user, DrawingNote);
      case Unrecognized =>
    }

    /** One pass of the `while True` loop of `handle_client`. */
    method HandleStep(conn: Stream, user: Option<string>, decode: Bytes -> Decoded) returns (user': Option<string>, goOn: bool)
      requires Valid() && conn.Valid()
      modifies this, reg, conn
      ensures Valid() && conn.Valid()
      ensures Stepped(Snapshot(), user', conn.Pending(), goOn)
              == Step(old(Snapshot()), conn.id, user, old(conn.Pending()), decode)
    {
      var raw := RecvMsg(conn);
      if raw.None? || raw.value == [] {
        return user, false;
      }
      match decode(raw.value)
      case JsonError =>
        user', goOn := user, true;
      case Fault =>
        user', goOn := user, false;
      case Parsed(env) =>
        user', goOn := HandleEnvelope(conn, user, env);
    }

    /**
     * `handle_client(conn, addr)`: handle frames until the loop ends, close
     * the connection, and unregister the session's name.  `username` is the
     * handler's final name, returned for the specification only.
     */
    method HandleClient(conn: Stream, decode: Bytes -> Decoded) returns (ghost username: Option<string>)
      requires Valid() && conn.Valid()
      modifies this, reg, conn
      ensures Valid() && conn.closed
      ensures (Snapshot(), username) == Run(old(Snapshot()), conn.id, None, old(conn.Pending()), decode)
      ensures username.Some? && username.value != "" ==> username.value !in reg.clients
      ensures Grows(old(outbox), outbox)
    {
      var user: Option<string> := None;
      while true
        invariant Valid() && conn.Valid()
        invariant Run(Snapshot(), conn.id, user, conn.Pending(), decode)
                  == Run(old(Snapshot()), conn.id, None, old(conn.Pending()), decode)
        decreases |conn.Pending()|
      {
        ghost var before, unread, name := Snapshot(), conn.Pending(), user;
        var goOn;
        user, goOn := HandleStep(conn, user, decode);
        if !goOn {
          assert Run(before, conn.id, name, unread, decode) == (Cleanup(Snapshot(), user), user);
          break;
        }
      }
      conn.Close();
      if user.Some? && user.value != "" && user.value in reg.clients {
        reg.Delete(user.value);
      }
      username := user;
      RunGrows(old(Snapshot()), conn.id, None, old(conn.Pending()), decode);
    }
  }
}
