/**
 * The server's `clients` dictionary: username to connection.  Besides the
 * mapping, the model keeps the dictionary's key order, because iteration
 * (`clients.items()`, `clients.keys()`) follows insertion order: a new key
 * goes last, rebinding an existing key keeps its place, `del` removes it.
 */
module Registry {
  import opened Frames

  predicate Distinct(s: seq<string>)
  {
    forall i, j :: 0 <= i < j < |s| ==> s[i] != s[j]
  }

  /** `order` lists every key of `clients` exactly once and nothing else. */
  ghost predicate Ordered(clients: map<string, ConnId>, order: seq<string>)
  {
    Distinct(order) && forall u :: u in order <==> u in clients
  }

  /** Key order after `clients[u] = c`. */
  function InsertOrder(order: seq<string>, clients: map<string, ConnId>, u: string): (r: seq<string>)
    ensures |order| <= |r| && r[..|order|] == order
    ensures u in clients ==> |r| == |order|
    ensures u !in clients ==> |r| == |order| + 1 && r[|order|] == u
  {
    if u in clients then order else order + [u]
  }

  /** Key order after `del clients[u]`: the other keys keep their relative order. */
  function Without(order: seq<string>, u: string): (r: seq<string>)
    ensures forall x :: x in r <==> x in order && x != u
    ensures Distinct(order) ==> Distinct(r)
  {
    if order == [] then []
    else if order[0] == u then Without(order[1..], u)
    else
      var rest := Without(order[1..], u);
      assert Distinct(order) ==> order[0] !in order[1..];
      DistinctCons(order[0], rest);
      [order[0]] + rest
  }

  lemma DistinctCons(x: string, rest: seq<string>)
    ensures x !in rest && Distinct(rest) ==> Distinct([x] + rest)
  {
    if x !in rest && Distinct(rest) {
      var s := [x] + rest;
      forall i, j | 0 <= i < j < |s| ensures s[i] != s[j] {
        assert s[j] == rest[j - 1];
        if i > 0 {
          assert s[i] == rest[i - 1];
        }
      }
    }
  }

  /** Removing a key cuts it out of the order and leaves both sides as they were. */
  lemma {:induction false} WithoutSplice(before: seq<string>, u: string, after: seq<string>)
    requires u !in before && u !in after
    ensures Without(before + [u] + after, u) == before + after
    ensures Without(before + after, u) == before + after
    decreases |before|
  {
    if before == [] {
      assert ([u] + after)[1..] == after;
      WithoutAbsent(after, u);
    } else {
      assert (before + [u] + after)[1..] == before[1..] + [u] + after;
      assert (before + after)[1..] == before[1..] + after;
      WithoutSplice(before[1..], u, after);
    }
  }

  lemma {:induction false} WithoutAbsent(order: seq<string>, u: string)
    ensures u !in order ==> Without(order, u) == order
  {
    if order != [] && u !in order {
      WithoutAbsent(order[1..], u);
    }
  }

  /** `clients[u] = c` keeps the order exact: a new name is appended, a rebound one stays put. */
  lemma PutKeepsOrdered(clients: map<string, ConnId>, order: seq<string>, u: string, c: ConnId)
    requires Ordered(clients, order)
    ensures Ordered(clients[u := c], InsertOrder(order, clients, u))
  {
    if u !in clients {
      var o := order + [u];
      forall i, j | 0 <= i < j < |o| ensures o[i] != o[j] {
        if j == |order| {
          assert o[i] in order;
        }
      }
    }
  }

  /** `del clients[u]` keeps the order exact. */
  lemma DeleteKeepsOrdered(clients: map<string, ConnId>, order: seq<string>, u: string)
    requires Ordered(clients, order)
    ensures Ordered(clients - {u}, Without(order, u))
  {
  }

  lemma {:induction false} DistinctCard(s: seq<string>)
    requires Distinct(s)
    ensures |set x | x in s| == |s|
  {
    if s != [] {
      DistinctCard(s[1..]);
      assert (set x | x in s) == {s[0]} + (set x | x in s[1..]);
      assert s[0] !in s[1..];
    }
  }

  /** The key list names each registered user exactly once: as many entries as the map has keys. */
  lemma OrderedCard(clients: map<string, ConnId>, order: seq<string>)
    requires Ordered(clients, order)
    ensures |order| == |clients|
  {
    DistinctCard(order);
    assert (set x | x in order) == clients.Keys;
  }

  class Registry {
    var clients: map<string, ConnId>
    var order: seq<string>

    ghost predicate Valid()
      reads this
    {
      Ordered(clients, order)
    }

    /** `clients = {}` */
    constructor ()
      ensures Valid() && clients == map[] && order == []
    {
      clients := map[];
      order := [];
    }

    /** `clients[username] = conn`: a duplicate login rebinds the name. */
    method Put(username: string, conn: ConnId)
      requires Valid()
      modifies this
      ensures Valid()
      ensures clients == old(clients)[username := conn]
      ensures order == InsertOrder(old(order), old(clients), username)
    {
      PutKeepsOrdered(clients, order, username, conn);
      order := InsertOrder(order, clients, username);
      clients := clients[username := conn];
    }

    /** `del clients[username]`, which the server only does for a present key. */
    method Delete(username: string)
      requires Valid() && username in clients
      modifies this
      ensures Valid()
      ensures clients == old(clients) - {username}
      ensures order == Without(old(order), username)
    {
      DeleteKeepsOrdered(clients, order, username);
      order := Without(order, username);
      clients := clients - {username};
    }
  }
}
