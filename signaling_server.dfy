/**
 * The rendezvous server: the `peers` Map from client socket to peer id, the server's list of
 * client sockets, and three socket events (connection, message, close). Every `send` to a socket
 * is recorded in that socket's `received` list.
 */
module SignalingServer {
  import opened Wrappers
  import opened Protocol
  import Decimal

  /** The identity of one client socket (`ws`). */
  type Conn = nat

  /** One element of `wss.clients`: the socket, whether its `readyState` is `OPEN`, and every
      message sent to it so far, oldest first. */
  datatype Client = Client(ws: Conn, isOpen: bool, received: seq<Envelope>)

  /** One entry of the `peers` Map. */
  datatype Entry = Entry(ws: Conn, id: PeerId)

  /** The id given to a connection accepted when `Date.now()` is `clock`. */
  function PeerIdOf(clock: nat): PeerId
  {
    "peer-" + Decimal.ToText(clock)
  }

  /** Different clock values give different peer ids. */
  lemma PeerIdOfInjective(a: nat, b: nat)
    requires PeerIdOf(a) == PeerIdOf(b)
    ensures a == b
  {
    assert PeerIdOf(a)[5..] == Decimal.ToText(a);
    assert PeerIdOf(b)[5..] == Decimal.ToText(b);
    Decimal.ToTextInjective(a, b);
  }

  /** `Array.from(peers.values())`: the ids in insertion order. */
  function Ids(entries: seq<Entry>): seq<PeerId>
  {
    seq(|entries|, i requires 0 <= i < |entries| => entries[i].id)
  }

  /** The sockets of a client list, in order. */
  function Sockets(cs: seq<Client>): seq<Conn>
  {
    seq(|cs|, i requires 0 <= i < |cs| => cs[i].ws)
  }

  /** The position of socket `ws` in the client list. */
  function Find(cs: seq<Client>, ws: Conn): (k: nat)
    requires ws in Sockets(cs)
    ensures k < |cs| && cs[k].ws == ws
  {
    if cs[0].ws == ws then 0 else (assert Sockets(cs[1..]) == Sockets(cs)[1..]; 1 + Find(cs[1..], ws))
  }

  /** Taking one client out of a list of distinct sockets leaves them distinct. */
  lemma RemoveKeepsDistinct(cs: seq<Client>, k: nat)
    requires k < |cs|
    requires forall i, j :: 0 <= i < j < |cs| ==> cs[i].ws != cs[j].ws
    ensures var r := cs[..k] + cs[k + 1..]; forall i, j :: 0 <= i < j < |r| ==> r[i].ws != r[j].ws
  {
    var r := cs[..k] + cs[k + 1..];
    forall i, j | 0 <= i < j < |r| ensures r[i].ws != r[j].ws {
      assert r[i] == cs[if i < k then i else i + 1] && r[j] == cs[if j < k then j else j + 1];
    }
  }

  /** Taking one entry out of the Map takes its id out of the list, the rest in order. */
  lemma IdsRemove(entries: seq<Entry>, k: nat)
    requires k < |entries|
    ensures Ids(entries[..k] + entries[k + 1..]) == Ids(entries)[..k] + Ids(entries)[k + 1..]
  {
  }

  /** Taking one entry out of a Map whose ids are distinct leaves them distinct. */
  lemma RemoveKeepsDistinctIds(entries: seq<Entry>, k: nat)
    requires k < |entries|
    requires forall i, j :: 0 <= i < j < |entries| ==> entries[i].id != entries[j].id
    ensures var r := entries[..k] + entries[k + 1..]; forall i, j :: 0 <= i < j < |r| ==> r[i].id != r[j].id
  {
    var r := entries[..k] + entries[k + 1..];
    forall i, j | 0 <= i < j < |r| ensures r[i].id != r[j].id {
      assert r[i] == entries[if i < k then i else i + 1] && r[j] == entries[if j < k then j else j + 1];
    }
  }

  /** Taking the same position out of the clients and the Map keeps them aligned. */
  lemma RemoveKeepsAligned(cs: seq<Client>, entries: seq<Entry>, k: nat)
    requires k < |cs| == |entries|
    requires forall i :: 0 <= i < |cs| ==> cs[i].ws == entries[i].ws
    ensures var r, e := cs[..k] + cs[k + 1..], entries[..k] + entries[k + 1..];
      |r| == |e| && forall i :: 0 <= i < |r| ==> r[i].ws == e[i].ws
  {
  }

  /** Taking the same position out of the Map and its clock values keeps each id stamped. */
  lemma RemoveKeepsStamped(entries: seq<Entry>, clocks: seq<nat>, k: nat)
    requires k < |entries| == |clocks|
    requires forall i :: 0 <= i < |entries| ==> entries[i].id == PeerIdOf(clocks[i])
    ensures var e, c := entries[..k] + entries[k + 1..], clocks[..k] + clocks[k + 1..];
      |e| == |c| && forall i :: 0 <= i < |e| ==> e[i].id == PeerIdOf(c[i])
  {
  }

  /** `client.send(m)`. */
  function Send(c: Client, m: Envelope): Client
  {
    c.(received := c.received + [m])
  }

  /** The client list after `m` is sent to every OPEN client except `except` (when given). */
  function SendToOpen(cs: seq<Client>, m: Envelope, except: Option<Conn>): seq<Client>
  {
    seq(|cs|, i requires 0 <= i < |cs| =>
      if cs[i].isOpen && Some(cs[i].ws) != except then Send(cs[i], m) else cs[i])
  }

  class Server {
    /** `wss.clients`, in connection order. */
    var clients: seq<Client>
    /** The `peers` Map, in insertion order. */
    var peers: seq<Entry>
    /** The clock value each registered id was made from. */
    ghost var clocks: seq<nat>

    /** The ws library adds a socket to `wss.clients` just before the `connection` event and
        removes it just before the `close` event, so the client list and the Map's keys are the
        same sockets in the same order. */
    ghost predicate Valid()
      reads this`clients, this`peers
    {
      && |clients| == |peers|
      && (forall i :: 0 <= i < |clients| ==> clients[i].ws == peers[i].ws)
      && (forall i, j :: 0 <= i < j < |clients| ==> clients[i].ws != clients[j].ws)
    }

    /** Each registered id is `PeerIdOf` the clock value recorded for its entry. */
    ghost predicate Stamped()
      reads this`peers, this`clocks
    {
      |clocks| == |peers| && forall i :: 0 <= i < |peers| ==> peers[i].id == PeerIdOf(clocks[i])
    }

    /** No two registered connections share a peer id. */
    ghost predicate DistinctIds()
      reads this`peers
    {
      forall i, j :: 0 <= i < j < |peers| ==> peers[i].id != peers[j].id
    }

    /** The list `broadcastPeers` sends. */
    function PeerList(): seq<PeerId>
      reads this`peers
    {
      Ids(peers)
    }

    constructor ()
      ensures Valid() && Stamped() && DistinctIds()
      ensures clients == [] && peers == []
    {
      clients, peers := [], [];
      clocks := [];
    }

    /** `broadcastPeers`: the same `{peers}` message to every OPEN client, the newest included. */
    method BroadcastPeers()
      requires Valid()
      modifies this`clients
      ensures Valid()
      ensures clients == SendToOpen(old(clients), PeersMessage(PeerList()), None)
    {
      var msg := PeersMessage(PeerList());
      var i := 0;
      while i < |clients|
        invariant 0 <= i <= |clients| == |old(clients)|
        invariant forall j :: 0 <= j < |clients| ==>
          clients[j] == if j < i && old(clients)[j].isOpen then Send(old(clients)[j], msg) else old(clients)[j]
      {
        if clients[i].isOpen {
          clients := clients[i := Send(clients[i], msg)];
        }
        i := i + 1;
      }
    }

    /** The `connection` event: register `ws` under `"peer-" + clock`, send it `{peerId}`, then
        broadcast the new list. */
    method OnConnection(ws: Conn, clock: nat)
      requires Valid()
      requires ws !in Sockets(clients)
      modifies this
      ensures Valid()
      ensures peers == old(peers) + [Entry(ws, PeerIdOf(clock))]
      ensures PeerList() == old(PeerList()) + [PeerIdOf(clock)]
      ensures clients == SendToOpen(old(clients) + [Client(ws, true, [Assigned(PeerIdOf(clock))])], PeersMessage(PeerList()), None)
      ensures clients[|old(clients)|] == Client(ws, true, [Assigned(PeerIdOf(clock)), PeersMessage(PeerList())])
      ensures old(Stamped()) ==> Stamped()
      ensures old(Stamped()) && old(DistinctIds()) && (forall i :: 0 <= i < |old(clocks)| ==> old(clocks)[i] < clock) ==> DistinctIds()
    {
      var id := PeerIdOf(clock);
      Register(ws, clock);
      var last := |clients| - 1;
      assert Send(clients[last], Assigned(id)) == Client(ws, true, [Assigned(id)]);
      clients := clients[last := Send(clients[last], Assigned(id))];
      assert clients == old(clients) + [Client(ws, true, [Assigned(id)])];
      BroadcastPeers();
    }

    /** The socket joins `wss.clients` (OPEN, nothing received yet) and `peers.set(ws, id)`. */
    method Register(ws: Conn, clock: nat)
      requires Valid()
      requires ws !in Sockets(clients)
      modifies this
      ensures Valid()
      ensures clients == old(clients) + [Client(ws, true, [])]
      ensures peers == old(peers) + [Entry(ws, PeerIdOf(clock))]
      ensures PeerList() == old(PeerList()) + [PeerIdOf(clock)]
      ensures old(Stamped()) ==> Stamped()
      ensures old(Stamped()) && old(DistinctIds()) && (forall i :: 0 <= i < |old(clocks)| ==> old(clocks)[i] < clock) ==> DistinctIds()
    {
      var id := PeerIdOf(clock);
      peers := peers + [Entry(ws, id)];
      clocks := clocks + [clock];
      clients := clients + [Client(ws, true, [])];
      assert Valid() by {
        forall i | 0 <= i < |old(clients)| ensures clients[i].ws != ws {
          assert old(clients)[i].ws == Sockets(old(clients))[i];
        }
      }
      assert PeerList() == old(PeerList()) + [id];
      if old(Stamped()) && old(DistinctIds()) && (forall i :: 0 <= i < |old(clocks)| ==> old(clocks)[i] < clock) {
        forall i | 0 <= i < |old(peers)| ensures peers[i].id != id {
          if peers[i].id == id {
            PeerIdOfInjective(clocks[i], clock);
          }
        }
      }
    }

    /** The `message` event of socket `ws`: a message that parsed is relayed to every other OPEN
        client whatever its `target`; one that did not parse is dropped. */
    method OnMessage(ws: Conn, parsed: Option<Envelope>)
      requires Valid()
      requires ws in Sockets(clients)
      modifies this`clients
      ensures Valid()
      ensures parsed.None? ==> clients == old(clients)
      ensures parsed.Some? ==> clients == SendToOpen(old(clients), parsed.value, Some(ws))
    {
      if parsed.None? {
        return;
      }
      var msg := parsed.value;
      var i := 0;
      while i < |clients|
        invariant 0 <= i <= |clients| == |old(clients)|
        invariant forall j :: 0 <= j < |clients| ==>
          clients[j] == if j < i && old(clients)[j].isOpen && old(clients)[j].ws != ws then Send(old(clients)[j], msg) else old(clients)[j]
      {
        if clients[i].ws != ws && clients[i].isOpen {
          clients := clients[i := Send(clients[i], msg)];
        }
        i := i + 1;
      }
    }

    /** Socket `ws` leaves the OPEN state (it is closing) before its `close` event arrives. */
    method OnClosing(ws: Conn)
      requires Valid()
      requires ws in Sockets(clients)
      modifies this`clients
      ensures Valid()
      ensures var k := Find(old(clients), ws); clients == old(clients)[k := old(clients)[k].(isOpen := false)]
    {
      var k := Find(clients, ws);
      clients := clients[k := clients[k].(isOpen := false)];
    }

    /** The `close` event of socket `ws`: the socket has left `wss.clients`; delete its entry and
        broadcast the reduced list. */
    method OnClose(ws: Conn)
      requires Valid()
      requires ws in Sockets(clients)
      modifies this
      ensures Valid()
      ensures var k := Find(old(clients), ws);
        && old(peers)[k].ws == ws
        && peers == old(peers)[..k] + old(peers)[k + 1..]
        && PeerList() == old(PeerList())[..k] + old(PeerList())[k + 1..]
        && clients == SendToOpen(old(clients)[..k] + old(clients)[k + 1..], PeersMessage(PeerList()), None)
      ensures old(Stamped()) ==> Stamped()
      ensures old(DistinctIds()) ==> DistinctIds()
    {
      var k := Find(clients, ws);
      Unregister(k);
      BroadcastPeers();
    }

    /** `peers.delete(ws)`, together with the socket leaving `wss.clients`: position `k` goes from
        both lists. */
    method Unregister(k: nat)
      requires Valid()
      requires k < |clients|
      modifies this
      ensures Valid()
      ensures clients == old(clients)[..k] + old(clients)[k + 1..]
      ensures peers == old(peers)[..k] + old(peers)[k + 1..]
      ensures PeerList() == old(PeerList())[..k] + old(PeerList())[k + 1..]
      ensures old(Stamped()) ==> Stamped()
      ensures old(DistinctIds()) ==> DistinctIds()
    {
      clients := clients[..k] + clients[k + 1..];
      peers := peers[..k] + peers[k + 1..];
      clocks := if |clocks| == |old(peers)| then clocks[..k] + clocks[k + 1..] else clocks;
      RemoveKeepsDistinct(old(clients), k);
      RemoveKeepsAligned(old(clients), old(peers), k);
      IdsRemove(old(peers), k);
      if old(Stamped()) {
        RemoveKeepsStamped(old(peers), old(clocks), k);
      }
      if old(DistinctIds()) {
        RemoveKeepsDistinctIds(old(peers), k);
      }
    }
  }

  /** A fresh server after connection 0 joined at clock value `c0`. */
  method JoinOne(c0: nat) returns (server: Server)
    ensures fresh(server) && server.Valid()
    ensures server.PeerList() == [PeerIdOf(c0)]
    ensures server.clients == [Client(0, true, [Assigned(PeerIdOf(c0)), PeersMessage([PeerIdOf(c0)])])]
  {
    server := new Server();
    server.OnConnection(0, c0);
    assert server.PeerList() == [] + [PeerIdOf(c0)];
  }

  /** A fresh server after connections 0 and 1 joined at clock values `c0` and `c1`. */
  method JoinTwo(c0: nat, c1: nat) returns (server: Server)
    ensures fresh(server) && server.Valid()
    ensures server.PeerList() == [PeerIdOf(c0), PeerIdOf(c1)]
    ensures server.clients == [
      Client(0, true, [Assigned(PeerIdOf(c0)), PeersMessage([PeerIdOf(c0)]), PeersMessage([PeerIdOf(c0), PeerIdOf(c1)])]),
      Client(1, true, [Assigned(PeerIdOf(c1)), PeersMessage([PeerIdOf(c0), PeerIdOf(c1)])])]
  {
    server := JoinOne(c0);
    var joined := server.clients + [Client(1, true, [Assigned(PeerIdOf(c1))])];
    assert 1 !in Sockets(server.clients);
    server.OnConnection(1, c1);
    var list := PeersMessage(server.PeerList());
    assert server.clients == SendToOpen(joined, list, None);
    assert server.PeerList() == [PeerIdOf(c0)] + [PeerIdOf(c1)] == [PeerIdOf(c0), PeerIdOf(c1)];
    var id0, id1 := PeerIdOf(c0), PeerIdOf(c1);
    assert server.clients[0] == Send(joined[0], list) && server.clients[1] == Send(joined[1], list);
    assert server.clients[0].received == [Assigned(id0), PeersMessage([id0])] + [list];
    assert server.clients[1].received == [Assigned(id1)] + [list];
    assert |server.clients| == 2;
    assert server.clients[0] == Client(0, true, [Assigned(id0), PeersMessage([id0]), PeersMessage([id0, id1])]);
    assert server.clients[1] == Client(1, true, [Assigned(id1), PeersMessage([id0, id1])]);
  }

  /** Two clients join at clock values 123 and 124: the first receives its id, its own
      one-entry list, then the two-entry list; the second its id and the two-entry list. */
  method TwoPeersJoin() returns (first: seq<Envelope>, second: seq<Envelope>)
    ensures first == [Assigned("peer-123"), PeersMessage(["peer-123"]), PeersMessage(["peer-123", "peer-124"])]
    ensures second == [Assigned("peer-124"), PeersMessage(["peer-123", "peer-124"])]
  {
    assert PeerIdOf(123) == "peer-123" && PeerIdOf(124) == "peer-124";
    var server := JoinTwo(123, 124);
    first, second := server.clients[0].received, server.clients[1].received;
  }

  /** Two connections accepted within the same millisecond get the same id. */
  method SameMillisecond(clock: nat) returns (a: PeerId, b: PeerId)
    ensures a == b == PeerIdOf(clock)
  {
    var server := new Server();
    server.OnConnection(0, clock);
    server.OnConnection(1, clock);
    a, b := server.peers[0].id, server.peers[1].id;
  }

  /** A relayed message reaches the other open client and not its sender, and the registry is
      as it was. */
  method RelayToOther(e: Envelope) returns (toSender: seq<Envelope>, toOther: seq<Envelope>, ids: seq<PeerId>)
    ensures toSender == [Assigned("peer-1"), PeersMessage(["peer-1"]), PeersMessage(["peer-1", "peer-2"])]
    ensures toOther == [Assigned("peer-2"), PeersMessage(["peer-1", "peer-2"]), e]
    ensures ids == ["peer-1", "peer-2"]
  {
    assert PeerIdOf(1) == "peer-1" && PeerIdOf(2) == "peer-2";
    var server := JoinTwo(1, 2);
    var before := server.clients;
    assert 0 == Sockets(before)[0];
    server.OnMessage(0, Some(e));
    assert server.clients == SendToOpen(before, e, Some(0));
    toSender, toOther, ids := server.clients[0].received, server.clients[1].received, server.PeerList();
  }
}
