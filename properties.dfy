/**
 * What the relay promises, proved about the handler's step functions:
 * how frames are consumed, who receives what for each envelope type, and
 * how the registry changes.
 */
module Properties {
  import opened Wrappers
  import opened Frames
  import opened Text
  import opened Registry
  import opened Envelope
  import opened Routing
  import opened Session

  /** On a well-formed frame, one pass of the loop handles exactly that frame's payload. */
  lemma StepOnFrame(st: State, me: ConnId, user: Option<string>, payload: Bytes, rest: Bytes, decode: Bytes -> Decoded)
    requires Valid(st) && 0 < |payload| < LengthLimit
    ensures Step(st, me, user, EncodeFrame(payload) + rest, decode) == Handle(st, me, user, decode(payload), rest)
  {
    ReadFrameEncode(payload, rest);
  }

  /** Invalid JSON skips the frame and keeps the connection; any other decoding failure ends the loop. */
  lemma DecodeFailure(st: State, me: ConnId, user: Option<string>, payload: Bytes, rest: Bytes, decode: Bytes -> Decoded)
    requires Valid(st) && 0 < |payload| < LengthLimit
    ensures decode(payload) == JsonError ==> Step(st, me, user, EncodeFrame(payload) + rest, decode) == Stepped(st, user, rest, true)
    ensures decode(payload) == Fault ==> Step(st, me, user, EncodeFrame(payload) + rest, decode) == Stepped(st, user, rest, false)
  {
    StepOnFrame(st, me, user, payload, rest, decode);
  }

  /**
   * A peer that closes mid-frame (inside the length or inside the payload)
   * ends its own loop and changes nothing in the server state; so does an
   * empty frame, whatever follows it.
   */
  lemma TruncatedFrameEnds(st: State, me: ConnId, user: Option<string>, payload: Bytes, k: nat, rest: Bytes,
                           decode: Bytes -> Decoded)
    requires Valid(st) && |payload| < LengthLimit && k < 4 + |payload|
    ensures Step(st, me, user, EncodeFrame(payload)[..k], decode) == Stepped(st, user, [], false)
    ensures Step(st, me, user, EncodeFrame([]) + rest, decode) == Stepped(st, user, rest, false)
  {
    var p := EncodeFrame(payload)[..k];
    if k >= 4 {
      assert p[..4] == EncodeFrame(payload)[..4];
      assert |p[4..]| < |payload|;
    }
    ReadFrameEncode([], rest);
  }

  /** A `logout` envelope ends the loop after unregistering, and reads nothing past its frame. */
  lemma LogoutEndsLoop(st: State, me: ConnId, user: Option<string>, payload: Bytes, rest: Bytes, decode: Bytes -> Decoded)
    requires Valid(st) && 0 < |payload| < LengthLimit && decode(payload) == Parsed(Logout)
    ensures Step(st, me, user, EncodeFrame(payload) + rest, decode) == Stepped(LogoutStep(st, user), user, rest, false)
  {
    StepOnFrame(st, me, user, payload, rest, decode);
  }

  /** A `login` envelope makes its name the handler's name, and the loop goes on with what follows the frame. */
  lemma LoginNamesHandler(st: State, me: ConnId, user: Option<string>, u: string, payload: Bytes, rest: Bytes,
                          decode: Bytes -> Decoded)
    requires Valid(st) && 0 < |payload| < LengthLimit && decode(payload) == Parsed(Login(u))
    ensures Step(st, me, user, EncodeFrame(payload) + rest, decode) == Stepped(LoginStep(st, me, u), Some(u), rest, true)
  {
    StepOnFrame(st, me, user, payload, rest, decode);
  }

  /** "/w target text" with a registered target: only the target's connection gets the whisper. */
  lemma WhisperRouting(st: State, me: ConnId, user: Option<string>, target: string, text: string)
    requires Valid(st) && NoSpace(target)
    ensures var message := "/w " + target + " " + text;
            MessageStep(st, me, user, message)
            == if target in st.clients then SendTo(st, st.clients[target], [WhisperFrame(user, text)])
               else SendTo(st, me, [NotFoundFrame(target)])
  {
    var message := "/w " + target + " " + text;
    assert message[..3] == "/w ";
    ParseWhisperIff(message, target, text);
  }

  /** "/w" followed by no second space: only the sender's connection gets the format error. */
  lemma WhisperBadFormat(st: State, me: ConnId, user: Option<string>, message: string)
    requires Valid(st) && StartsWith(message, "/w ") && NoSpace(message[3..])
    ensures MessageStep(st, me, user, message) == SendTo(st, me, [BadFormatFrame()])
  {
    ParseWhisperIff(message, "", "");
  }

  /**
   * A chat line that is not a whisper, or a typing notice that does not
   * start with "/", reaches every connection of a name other than the
   * sender's, once, and nothing else; a typing notice starting with "/"
   * sends nothing.
   */
  lemma ChatRouting(st: State, me: ConnId, user: Option<string>, message: string, c: ConnId)
    requires Valid(st) && OneNamePerConn(st.clients)
    ensures !StartsWith(message, "/w ") ==>
              Sent(MessageStep(st, me, user, message).outbox, c)
              == Sent(st.outbox, c) + (if c in Receivers(st.clients, user) then [Header(Note(MessageNote, user, message))] else [])
    ensures !StartsWith(message, "/") ==>
              Sent(PartialStep(st, user, message).outbox, c)
              == Sent(st.outbox, c) + (if c in Receivers(st.clients, user) then [Header(Note(PartialNote, user, message))] else [])
    ensures StartsWith(message, "/") ==> PartialStep(st, user, message) == st
  {
    Broadcasted(st, user, [Header(Note(MessageNote, user, message))], c);
    Broadcasted(st, user, [Header(Note(PartialNote, user, message))], c);
  }

  /**
   * Login binds the name to this connection (replacing any earlier binding),
   * then every connection of a name other than "system" gets the join
   * notice and every registered connection gets the new online list, in
   * that order; the joiner is among them.
   */
  lemma LoginDelivers(st: State, me: ConnId, u: string, c: ConnId)
    requires Valid(st) && OneNamePerConn(st.clients[u := me])
    ensures var r := LoginStep(st, me, u);
            var clients := st.clients[u := me];
            && r.clients == clients
            && r.order == InsertOrder(st.order, st.clients, u)
            && Sent(r.outbox, c)
               == Sent(st.outbox, c)
                  + (if c in Receivers(clients, System) then [JoinNotice(u)] else [])
                  + (if c in Receivers(clients, None) then [Header(OnlineStatus(r.order))] else [])
            && me in Receivers(clients, None)
            && (u != "system" ==> me in Receivers(clients, System))
  {
    var st1 := Register(st, u, me);
    var st2 := Broadcast(st1, System, [JoinNotice(u)]);
    Broadcasted(st1, System, [JoinNotice(u)], c);
    Broadcasted(st2, None, [Header(OnlineStatus(st2.order))], c);
    assert st1.clients[u] == me;
  }

  /**
   * Logout removes the name before announcing, so the leaving connection
   * gets neither the notice nor the online list; every other binding is
   * kept, and every remaining connection gets both, in order.
   */
  lemma LogoutDelivers(st: State, user: Option<string>, c: ConnId)
    requires Valid(st) && OneNamePerConn(st.clients)
    ensures var r := LogoutStep(st, user);
            var clients := if user.Some? then st.clients - {user.value} else st.clients;
            && r.clients == clients
            && Sent(r.outbox, c)
               == Sent(st.outbox, c)
                  + (if c in Receivers(clients, System) then [LeaveNotice(user)] else [])
                  + (if c in Receivers(clients, None) then [Header(OnlineStatus(r.order))] else [])
            && (user.Some? && user.value in st.clients && c == st.clients[user.value] ==> Sent(r.outbox, c) == Sent(st.outbox, c))
  {
    var st1 := if user.Some? && user.value in st.clients then Unregister(st, user.value) else st;
    var st2 := Broadcast(st1, System, [LeaveNotice(user)]);
    assert OneNamePerConn(st1.clients);
    Broadcasted(st1, System, [LeaveNotice(user)], c);
    Broadcasted(st2, None, [Header(OnlineStatus(st2.order))], c);
    if user.Some? && user.value in st.clients && c == st.clients[user.value] {
      assert c !in Receivers(st1.clients, None);
    }
  }

  /** Logging in and then out drops the name and keeps every other binding and its place. */
  lemma LoginLogout(st: State, me: ConnId, u: string)
    requires Valid(st)
    ensures var r := LogoutStep(LoginStep(st, me, u), Some(u));
            && r.clients == st.clients - {u}
            && r.order == Without(st.order, u)
  {
    var l := LoginStep(st, me, u);
    assert LogoutStep(l, Some(u)).clients == l.clients - {u};
    PutRemove(st.clients, u, me);
    LoginLogoutOrder(st, me, u);
  }

  lemma PutRemove(clients: map<string, ConnId>, u: string, c: ConnId)
    ensures clients[u := c] - {u} == clients - {u}
    ensures u !in clients ==> clients - {u} == clients
  {
  }

  /** Under a name not yet in use, logging in and then out leaves the registry, and its order, as it was. */
  lemma LoginLogoutRestores(st: State, me: ConnId, u: string)
    requires Valid(st) && u !in st.clients
    ensures var r := LogoutStep(LoginStep(st, me, u), Some(u));
            r.clients == st.clients && r.order == st.order
  {
    LoginLogout(st, me, u);
    WithoutAbsent(st.order, u);
    PutRemove(st.clients, u, me);
  }

  lemma LoginLogoutOrder(st: State, me: ConnId, u: string)
    requires Valid(st)
    ensures LogoutStep(LoginStep(st, me, u), Some(u)).order == Without(st.order, u)
  {
    var l := LoginStep(st, me, u);
    if u !in st.clients {
      assert l.order == st.order + [u];
      WithoutSplice(st.order, u, []);
      WithoutAbsent(st.order, u);
      assert st.order + [u] + [] == st.order + [u];
      assert st.order + [] == st.order;
    } else {
      assert l.order == st.order;
    }
  }

  /**
   * A sticker or drawing followed by a complete binary frame relays that
   * header and data to everyone but the sender and leaves what follows
   * unread; data cut short by the end of the stream relays the header alone.
   */
  lemma BinaryRelay(st: State, user: Option<string>, kind: NoteType, data: Bytes, rest: Bytes, k: nat)
    requires Valid(st) && |data| < LengthLimit
    ensures BinaryStep(st, user, kind, EncodeFrame(data) + rest)
            == Stepped(Broadcast(st, user, Outgoing(Note(kind, user, ""), Some(data))), user, rest, true)
    ensures 4 <= k < 4 + |data| ==>
              BinaryStep(st, user, kind, EncodeFrame(data)[..k])
              == Stepped(Broadcast(st, user, [Header(Note(kind, user, ""))]), user, [], true)
    ensures k < 4 ==> BinaryStep(st, user, kind, EncodeFrame(data)[..k]) == Stepped(st, user, [], false)
  {
    var p := EncodeFrame(data) + rest;
    assert p[..4] == EncodeFrame(data)[..4];
    assert p[4..] == data + rest;
    assert (data + rest)[..|data|] == data && (data + rest)[|data|..] == rest;
    if 4 <= k < 4 + |data| {
      var q := EncodeFrame(data)[..k];
      assert q[..4] == EncodeFrame(data)[..4];
      assert ReadExactly(q, 4) == (Some(q[..4]), q[4..]);
      assert |q[4..]| < |data|;
      assert Outgoing(Note(kind, user, ""), None) == [Header(Note(kind, user, ""))];
    }
  }


  /** A login under a new name adds exactly one registry entry; a repeated name adds none. */
  lemma LoginGrowsRegistry(st: State, me: ConnId, u: string)
    requires Valid(st)
    ensures |LoginStep(st, me, u).clients| == |st.clients| + (if u in st.clients then 0 else 1)
  {
    var r := LoginStep(st, me, u);
    OrderedCard(st.clients, st.order);
    OrderedCard(r.clients, r.order);
  }

  /** Two names on two connections, neither called "system": both connections receive what skips "system" or nobody. */
  lemma TwoUsers(a: string, b: string, ca: ConnId, cb: ConnId, c: ConnId)
    requires a != b && ca != cb && a != "system" && b != "system" && (c == ca || c == cb)
    ensures var clients := map[a := ca, b := cb];
            OneNamePerConn(clients) && c in Receivers(clients, System) && c in Receivers(clients, None)
  {
    var clients := map[a := ca, b := cb];
    assert clients[a] == ca && clients[b] == cb;
  }

  /** A second user logs in beside the first: both connections get the join notice and then the online list. */
  lemma SecondJoins(s1: State, a: string, b: string, ca: ConnId, cb: ConnId, c: ConnId)
    requires Valid(s1) && s1.clients == map[a := ca] && s1.order == [a]
    requires a != b && ca != cb && a != "system" && b != "system" && (c == ca || c == cb)
    ensures var s2 := LoginStep(s1, cb, b);
            && s2.clients == map[a := ca, b := cb]
            && s2.order == [a, b]
            && Sent(s2.outbox, c) == Sent(s1.outbox, c) + [JoinNotice(b), Header(OnlineStatus([a, b]))]
  {
    assert s1.clients[b := cb] == map[a := ca, b := cb];
    TwoUsers(a, b, ca, cb, c);
    LoginDelivers(s1, cb, b, c);
    var s2 := LoginStep(s1, cb, b);
    assert s2.order == [a] + [b];
    assert Sent(s2.outbox, c) == Sent(s1.outbox, c) + [JoinNotice(b)] + [Header(OnlineStatus(s2.order))];
    assert [JoinNotice(b)] + [Header(OnlineStatus([a, b]))] == [JoinNotice(b), Header(OnlineStatus([a, b]))];
  }

  /** The first user's chat line reaches the second user's connection and not the sender's own. */
  lemma FirstSpeaks(s2: State, a: string, b: string, ca: ConnId, cb: ConnId, text: string, c: ConnId)
    requires Valid(s2) && s2.clients == map[a := ca, b := cb]
    requires a != b && ca != cb && !StartsWith(text, "/w ") && (c == ca || c == cb)
    ensures Sent(MessageStep(s2, ca, Some(a), text).outbox, c)
            == Sent(s2.outbox, c) + (if c == cb then [Header(Note(MessageNote, Some(a), text))] else [])
  {
    assert s2.clients[a] == ca && s2.clients[b] == cb;
    assert OneNamePerConn(s2.clients);
    assert cb in Receivers(s2.clients, Some(a)) && ca !in Receivers(s2.clients, Some(a));
    ChatRouting(s2, ca, Some(a), text, c);
  }

  /**
   * Starting from an empty registry, user `a` on connection `ca` and then
   * user `b` on connection `cb` log in, and `a` sends a chat line: both
   * connections got the join notice for `b` and then the online list
   * [a, b]; `b` receives the line from `a`, and `a` does not.
   */
  lemma TwoUsersChat(s0: State, a: string, b: string, ca: ConnId, cb: ConnId, text: string)
    requires s0.clients == map[] && s0.order == []
    requires a != b && ca != cb && a != "system" && b != "system" && !StartsWith(text, "/w ")
    ensures var s1 := LoginStep(s0, ca, a);
            var s2 := LoginStep(s1, cb, b);
            var s3 := MessageStep(s2, ca, Some(a), text);
            var joined := [JoinNotice(b), Header(OnlineStatus([a, b]))];
            && s2.clients == map[a := ca, b := cb]
            && s2.order == [a, b]
            && Sent(s2.outbox, ca) == Sent(s1.outbox, ca) + joined
            && Sent(s2.outbox, cb) == Sent(s1.outbox, cb) + joined
            && Sent(s3.outbox, cb) == Sent(s2.outbox, cb) + [Header(Note(MessageNote, Some(a), text))]
            && Sent(s3.outbox, ca) == Sent(s2.outbox, ca)
  {
    var s1 := LoginStep(s0, ca, a);
    assert s1.clients == map[a := ca] && s1.order == [a];
    SecondJoins(s1, a, b, ca, cb, ca);
    SecondJoins(s1, a, b, ca, cb, cb);
    var s2 := LoginStep(s1, cb, b);
    FirstSpeaks(s2, a, b, ca, cb, text, ca);
    FirstSpeaks(s2, a, b, ca, cb, text, cb);
  }

  /** A login only appends to the connections' frames. */
  lemma LoginStepGrows(st: State, me: ConnId, u: string)
    requires Valid(st)
    ensures Grows(st.outbox, LoginStep(st, me, u).outbox)
  {
    var s1 := Register(st, u, me);
    var s2 := Broadcast(s1, System, [JoinNotice(u)]);
    BroadcastGrows(s1, System, [JoinNotice(u)]);
    BroadcastGrows(s2, None, [Header(OnlineStatus(s2.order))]);
    GrowsTrans(st.outbox, s2.outbox, LoginStep(st, me, u).outbox);
  }

  /** A logout only appends to the connections' frames. */
  lemma LogoutStepGrows(st: State, user: Option<string>)
    requires Valid(st)
    ensures Grows(st.outbox, LogoutStep(st, user).outbox)
  {
    var s1 := if user.Some? && user.value in st.clients then Unregister(st, user.value) else st;
    var s2 := Broadcast(s1, System, [LeaveNotice(user)]);
    BroadcastGrows(s1, System, [LeaveNotice(user)]);
    BroadcastGrows(s2, None, [Header(OnlineStatus(s2.order))]);
    GrowsTrans(st.outbox, s2.outbox, LogoutStep(st, user).outbox);
  }

  /** A chat line, a whisper or an error reply only appends to the connections' frames. */
  lemma MessageStepGrows(st: State, me: ConnId, user: Option<string>, message: string)
    requires Valid(st)
    ensures Grows(st.outbox, MessageStep(st, me, user, message).outbox)
  {
    if !StartsWith(message, "/w ") {
      BroadcastGrows(st, user, [Header(Note(MessageNote, user, message))]);
    }
  }

  /**
   * Whatever the envelope, one dispatch only appends to the connections'
   * frames: nothing already sent is changed or taken back.
   */
  lemma DispatchGrows(st: State, me: ConnId, user: Option<string>, env: Inbound, rest: Bytes)
    requires Valid(st)
    ensures Grows(st.outbox, Dispatch(st, me, user, env, rest).st.outbox)
  {
    match env
    case Login(u) => LoginStepGrows(st, me, u);
    case Message(m) => MessageStepGrows(st, me, user, m);
    case PartialMessage(m) =>
      if !StartsWith(m, "/") {
        BroadcastGrows(st, user, [Header(Note(PartialNote, user, m))]);
      }
    case Logout => LogoutStepGrows(st, user);
    case Sticker =>
      var (prefix, rest') := ReadExactly(rest, 4);
      if prefix.Some? {
        var (data, _) := ReadExactly(rest', Unpack(prefix.value));
        BroadcastGrows(st, user, Outgoing(Note(StickerNote, user, ""), data));
      }
    case Drawing =>
      var (prefix, rest') := ReadExactly(rest, 4);
      if prefix.Some? {
        var (data, _) := ReadExactly(rest', Unpack(prefix.value));
        BroadcastGrows(st, user, Outgoing(Note(DrawingNote, user, ""), data));
      }
    case Unrecognized =>
  }

  /** One pass of the handler loop only appends to the connections' frames. */
  lemma StepGrows(st: State, me: ConnId, user: Option<string>, pending: Bytes, decode: Bytes -> Decoded)
    requires Valid(st)
    ensures Grows(st.outbox, Step(st, me, user, pending, decode).st.outbox)
  {
    var (raw, rest) := ReadFrame(pending);
    if raw.Some? && raw.value != [] {
      var decoded := decode(raw.value);
      if decoded.Parsed? {
        DispatchGrows(st, me, user, decoded.env, rest);
      }
    }
  }

  /**
   * Over a whole connection, from the first pass to the exit cleanup, every
   * connection's frames only grow at the end.
   */
  lemma {:induction false} RunGrows(st: State, me: ConnId, user: Option<string>, pending: Bytes, decode: Bytes -> Decoded)
    requires Valid(st)
    ensures Grows(st.outbox, Run(st, me, user, pending, decode).0.outbox)
    decreases |pending|
  {
    var s := Step(st, me, user, pending, decode);
    StepGrows(st, me, user, pending, decode);
    if s.goOn {
      RunGrows(s.st, me, s.user, s.pending, decode);
      GrowsTrans(st.outbox, s.st.outbox, Run(st, me, user, pending, decode).0.outbox);
    }
  }
}
