/**
 * The broadcast/route engine as functions of the server state: the
 * registry (names, their connections and their dictionary order) and every
 * connection's outbound frames.  A broadcast walks the names in dictionary
 * order and appends the same frames to each recipient's connection.
 */
module Routing {
  import opened Wrappers
  import opened Frames
  import opened Registry
  import opened Envelope

  datatype State = State(clients: map<string, ConnId>, order: seq<string>, outbox: map<ConnId, seq<Frame>>)

  ghost predicate Valid(st: State)
  {
    Ordered(st.clients, st.order)
  }

  /** Everything written so far to connection `c`. */
  function Sent(outbox: map<ConnId, seq<Frame>>, c: ConnId): seq<Frame>
  {
    if c in outbox then outbox[c] else []
  }

  /** `conn.send` of `fs` on `c`: that connection's stream grows by `fs`, no other changes. */
  function Append(outbox: map<ConnId, seq<Frame>>, c: ConnId, fs: seq<Frame>): (r: map<ConnId, seq<Frame>>)
    ensures Sent(r, c) == Sent(outbox, c) + fs
    ensures forall d :: d != c ==> Sent(r, d) == Sent(outbox, d)
  {
    outbox[c := Sent(outbox, c) + fs]
  }

  /** Two sends on one connection append both frame lists, in order. */
  lemma AppendAppend(outbox: map<ConnId, seq<Frame>>, c: ConnId, a: seq<Frame>, b: seq<Frame>)
    ensures Append(Append(outbox, c, a), c, b) == Append(outbox, c, a + b)
  {
    assert Sent(outbox, c) + a + b == Sent(outbox, c) + (a + b);
  }

  /** One turn of the broadcast loop: `if username != sender: conn.send(...)`. */
  function Deliver(outbox: map<ConnId, seq<Frame>>, clients: map<string, ConnId>, u: string,
                   exclude: Option<string>, fs: seq<Frame>): map<ConnId, seq<Frame>>
    requires u in clients
  {
    if Some(u) != exclude then Append(outbox, clients[u], fs) else outbox
  }

  /** The broadcast loop over `keys`, in order. */
  function FanOut(outbox: map<ConnId, seq<Frame>>, clients: map<string, ConnId>, keys: seq<string>,
                  exclude: Option<string>, fs: seq<Frame>): map<ConnId, seq<Frame>>
    requires forall u :: u in keys ==> u in clients
    decreases |keys|
  {
    if keys == [] then outbox
    else FanOut(Deliver(outbox, clients, keys[0], exclude, fs), clients, keys[1..], exclude, fs)
  }

  /** How many names in `keys`, other than `exclude`, are bound to connection `c`. */
  function Count(clients: map<string, ConnId>, keys: seq<string>, exclude: Option<string>, c: ConnId): nat
    requires forall u :: u in keys ==> u in clients
  {
    if keys == [] then 0
    else (if Some(keys[0]) != exclude && clients[keys[0]] == c then 1 else 0) + Count(clients, keys[1..], exclude, c)
  }

  function Repeat(fs: seq<Frame>, k: nat): seq<Frame>
  {
    if k == 0 then [] else fs + Repeat(fs, k - 1)
  }

  lemma RepeatMore(prefix: seq<Frame>, fs: seq<Frame>, k: nat)
    ensures prefix + fs + Repeat(fs, k) == prefix + Repeat(fs, k + 1)
  {
    assert Repeat(fs, k + 1) == fs + Repeat(fs, k);
  }

  /** One turn of the loop adds one copy of the frames to `c` exactly when the turn's name counts for `c`. */
  lemma DeliverSent(outbox: map<ConnId, seq<Frame>>, clients: map<string, ConnId>, keys: seq<string>,
                    exclude: Option<string>, fs: seq<Frame>, c: ConnId)
    requires keys != [] && forall u :: u in keys ==> u in clients
    ensures Sent(Deliver(outbox, clients, keys[0], exclude, fs), c) + Repeat(fs, Count(clients, keys[1..], exclude, c))
            == Sent(outbox, c) + Repeat(fs, Count(clients, keys, exclude, c))
  {
    var k := Count(clients, keys[1..], exclude, c);
    var next := Deliver(outbox, clients, keys[0], exclude, fs);
    if Some(keys[0]) != exclude && clients[keys[0]] == c {
      assert Count(clients, keys, exclude, c) == k + 1;
      assert Sent(next, c) == Sent(outbox, c) + fs;
      RepeatMore(Sent(outbox, c), fs, k);
    } else {
      assert Count(clients, keys, exclude, c) == k;
      assert Sent(next, c) == Sent(outbox, c);
    }
  }

  /**
   * A broadcast appends to each connection one copy of the frames per name
   * bound to it (other than `exclude`); each copy stays contiguous, so a
   * header is immediately followed by its binary frame.
   */
  lemma {:induction false} FanOutSent(outbox: map<ConnId, seq<Frame>>, clients: map<string, ConnId>, keys: seq<string>,
                                      exclude: Option<string>, fs: seq<Frame>, c: ConnId)
    requires forall u :: u in keys ==> u in clients
    ensures Sent(FanOut(outbox, clients, keys, exclude, fs), c)
            == Sent(outbox, c) + Repeat(fs, Count(clients, keys, exclude, c))
    decreases |keys|
  {
    if keys != [] {
      FanOutSent(Deliver(outbox, clients, keys[0], exclude, fs), clients, keys[1..], exclude, fs, c);
      DeliverSent(outbox, clients, keys, exclude, fs, c);
    }
  }

  /** No connection is bound to two names: each connection logged in once. */
  ghost predicate OneNamePerConn(clients: map<string, ConnId>)
  {
    forall u, v :: u in clients && v in clients && clients[u] == clients[v] ==> u == v
  }

  /** The connections a broadcast that skips `exclude` writes to. */
  function Receivers(clients: map<string, ConnId>, exclude: Option<string>): set<ConnId>
  {
    set u | u in clients && Some(u) != exclude :: clients[u]
  }

  /** Over distinct names with one name per connection, each receiving connection is counted once. */
  lemma {:induction false} CountOnce(clients: map<string, ConnId>, keys: seq<string>, exclude: Option<string>, c: ConnId)
    requires forall u :: u in keys ==> u in clients
    requires Distinct(keys) && OneNamePerConn(clients)
    ensures Count(clients, keys, exclude, c)
            == if exists u :: u in keys && Some(u) != exclude && clients[u] == c then 1 else 0
  {
    if keys != [] {
      assert Distinct(keys[1..]) by {
        forall i, j | 0 <= i < j < |keys[1..]| ensures keys[1..][i] != keys[1..][j] {
          assert keys[1..][i] == keys[i + 1] && keys[1..][j] == keys[j + 1];
        }
      }
      CountOnce(clients, keys[1..], exclude, c);
      if Some(keys[0]) != exclude && clients[keys[0]] == c {
        forall u | u in keys[1..] ensures clients[u] != c {
          assert keys[0] !in keys[1..];
        }
      } else {
        forall u | u in keys && Some(u) != exclude && clients[u] == c ensures u in keys[1..] {
          assert u != keys[0];
        }
      }
    }
  }

  /** `broadcast_message(sender, ...)` on the whole registry. */
  function Broadcast(st: State, exclude: Option<string>, fs: seq<Frame>): (r: State)
    requires Valid(st)
    ensures Valid(r) && r.clients == st.clients && r.order == st.order
  {
    st.(outbox := FanOut(st.outbox, st.clients, st.order, exclude, fs))
  }

  /**
   * With one name per connection, a broadcast writes `fs` exactly once to
   * every connection of a name other than `exclude`, and nothing anywhere
   * else; in particular nothing to the connection of the excluded name.
   */
  lemma Broadcasted(st: State, exclude: Option<string>, fs: seq<Frame>, c: ConnId)
    requires Valid(st) && OneNamePerConn(st.clients)
    ensures Sent(Broadcast(st, exclude, fs).outbox, c)
            == Sent(st.outbox, c) + (if c in Receivers(st.clients, exclude) then fs else [])
    ensures exclude.Some? && exclude.value in st.clients && c == st.clients[exclude.value]
            ==> c !in Receivers(st.clients, exclude)
  {
    FanOutSent(st.outbox, st.clients, st.order, exclude, fs, c);
    CountOnce(st.clients, st.order, exclude, c);
    assert Repeat(fs, 1) == fs;
    if c in Receivers(st.clients, exclude) {
      var u :| u in st.clients && Some(u) != exclude && st.clients[u] == c;
      assert u in st.order;
    }
  }

  /** Every connection's frames in `b` start with its frames in `a`: the server only ever appends. */
  ghost predicate Grows(a: map<ConnId, seq<Frame>>, b: map<ConnId, seq<Frame>>)
  {
    forall c :: Sent(a, c) <= Sent(b, c)
  }

  lemma GrowsTrans(a: map<ConnId, seq<Frame>>, b: map<ConnId, seq<Frame>>, d: map<ConnId, seq<Frame>>)
    requires Grows(a, b) && Grows(b, d)
    ensures Grows(a, d)
  {
  }

  /** A broadcast only appends, whoever it excludes and however names share connections. */
  lemma BroadcastGrows(st: State, exclude: Option<string>, fs: seq<Frame>)
    requires Valid(st)
    ensures Grows(st.outbox, Broadcast(st, exclude, fs).outbox)
  {
    forall c ensures Sent(st.outbox, c) <= Sent(Broadcast(st, exclude, fs).outbox, c) {
      FanOutSent(st.outbox, st.clients, st.order, exclude, fs, c);
    }
  }

  /** `update_online_status()`: the current name list, to every registered name. */
  function OnlineStatusAll(st: State): (r: State)
    requires Valid(st)
    ensures Valid(r) && r.clients == st.clients && r.order == st.order
  {
    Broadcast(st, None, [Header(OnlineStatus(st.order))])
  }

  /** `send_message(conn, ...)` to one connection. */
  function SendTo(st: State, c: ConnId, fs: seq<Frame>): (r: State)
    ensures r.clients == st.clients && r.order == st.order
    ensures Sent(r.outbox, c) == Sent(st.outbox, c) + fs
    ensures forall d :: d != c ==> Sent(r.outbox, d) == Sent(st.outbox, d)
  {
    st.(outbox := Append(st.outbox, c, fs))
  }
}
