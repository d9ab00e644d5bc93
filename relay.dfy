/**
 * The Socket.IO pairing relay of remote_server.js: a room registry (pairing
 * code to the set of socket ids), per-connection session data
 * (`socket.data.code`, `socket.data.role`) and the four handlers `join`,
 * `select`, `end-session` and `disconnect`. Every emit appends one delivery
 * per recipient to an outbox; the order of deliveries within one emit is
 * left open, because the transport fans out over an unordered set.
 */
module Relay {
  import opened Wrappers
  import opened Text

  /** Socket ids are assigned by the transport. */
  type Id = string

  /** `socket.data`: both fields are `undefined` until a truthy `join` arrives. */
  datatype SessionData = SessionData(code: Option<string>, role: Option<string>)

  /** The events the relay emits, with exactly the payload fields it sends. */
  datatype Event =
    | PeerJoined(id: Id, role: Option<string>)
    | Selected(key: Option<string>, from: Id)
    | SessionEnded(code: string)
    | PeerLeft(id: Id, role: Option<string>)

  datatype Delivery = Delivery(to: Id, event: Event)

  /** The members of room `c`; a room nobody joined is the empty set. */
  function MembersOf(rooms: map<string, set<Id>>, c: string): (m: set<Id>)
    ensures c in rooms ==> m == rooms[c]
    ensures c !in rooms ==> m == {}
  {
    if c in rooms then rooms[c] else {}
  }

  /** The registry after the transport drops `id` from every room; emptied rooms disappear. */
  function WithoutMember(rooms: map<string, set<Id>>, id: Id): (r: map<string, set<Id>>)
    ensures forall c :: MembersOf(r, c) == MembersOf(rooms, c) - {id}
    ensures forall c | c in r :: r[c] != {}
  {
    map c | c in rooms && rooms[c] - {id} != {} :: rooms[c] - {id}
  }

  /** The role recorded by `join`: the payload's role when truthy, else "client". */
  function DefaultRole(role: Option<string>): (r: string)
    ensures r != ""
    ensures Truthy(role) ==> r == role.value
    ensures !Truthy(role) ==> r == "client"
  {
    if Truthy(role) then role.value else "client"
  }

  /** A connected socket has joined when its `data.code` is set. */
  predicate Joined(sessions: map<Id, SessionData>, id: Id)
  {
    id in sessions && sessions[id].code.Some?
  }

  /** What one receiver sees of a sequence of deliveries, in order. */
  function Inbox(deliveries: seq<Delivery>, r: Id): (s: seq<Event>)
    ensures |s| <= |deliveries|
  {
    if deliveries == [] then []
    else (if deliveries[0].to == r then [deliveries[0].event] else []) + Inbox(deliveries[1..], r)
  }

  lemma {:induction false} InboxAppend(a: seq<Delivery>, b: seq<Delivery>, r: Id)
    ensures Inbox(a + b, r) == Inbox(a, r) + Inbox(b, r)
  {
    if a != [] {
      assert (a + b)[1..] == a[1..] + b;
      InboxAppend(a[1..], b, r);
    } else {
      assert a + b == b;
    }
  }

  /**
   * `batch` delivers `e` to every id in `recipients` exactly once and to
   * nobody else: each receiver's view of it is `[e]` or nothing.
   */
  ghost predicate IsFanout(batch: seq<Delivery>, recipients: set<Id>, e: Event)
  {
    forall r :: Inbox(batch, r) == if r in recipients then [e] else []
  }

  /** A fan-out holds one delivery per recipient, each of them carrying the event. */
  lemma {:induction false} FanoutShape(batch: seq<Delivery>, recipients: set<Id>, e: Event)
    requires IsFanout(batch, recipients, e)
    ensures |batch| == |recipients|
    ensures forall i | 0 <= i < |batch| :: batch[i] == Delivery(batch[i].to, e) && batch[i].to in recipients
  {
    if batch == [] {
      forall r ensures r !in recipients {
        assert Inbox(batch, r) == [];
      }
      assert recipients == {};
    } else {
      var x := batch[0].to;
      var rest := recipients - {x};
      assert Inbox(batch, x) == [batch[0].event] + Inbox(batch[1..], x);
      assert x in recipients;
      assert Inbox(batch, x)[0] == batch[0].event;
      assert batch[0].event == e;
      forall r ensures Inbox(batch[1..], r) == if r in rest then [e] else [] {
        assert Inbox(batch, r) == (if x == r then [e] else []) + Inbox(batch[1..], r);
      }
      FanoutShape(batch[1..], rest, e);
      forall i | 0 <= i < |batch| ensures batch[i] == Delivery(batch[i].to, e) && batch[i].to in recipients {
        if i > 0 {
          assert batch[i] == batch[1..][i - 1];
        }
      }
    }
  }

  /** A fan-out to a single recipient is exactly one delivery. */
  lemma SingleFanout(batch: seq<Delivery>, r: Id, e: Event)
    requires IsFanout(batch, {r}, e)
    ensures batch == [Delivery(r, e)]
  {
    FanoutShape(batch, {r}, e);
  }

  /** Builds the deliveries of one emit: one per recipient, taken in some order. */
  method FanOut(recipients: set<Id>, e: Event) returns (batch: seq<Delivery>)
    ensures IsFanout(batch, recipients, e)
    ensures forall i | 0 <= i < |batch| :: batch[i].to in recipients && batch[i].event == e
  {
    batch := [];
    var pending := recipients;
    while pending != {}
      invariant pending <= recipients
      invariant forall r :: Inbox(batch, r) == if r in recipients - pending then [e] else []
      decreases pending
    {
      var r :| r in pending;
      var d := Delivery(r, e);
      forall x ensures Inbox(batch + [d], x) == if x in recipients - (pending - {r}) then [e] else [] {
        InboxAppend(batch, [d], x);
        assert Inbox([d], x) == if x == r then [e] else [];
      }
      batch := batch + [d];
      pending := pending - {r};
    }
    FanoutShape(batch, recipients, e);
  }

  class RelayServer {
    /** The room registry: pairing code to the sockets joined to it. */
    var rooms: map<string, set<Id>>
    /** `socket.data` of every connected socket. */
    var sessions: map<Id, SessionData>
    /** Every delivery emitted so far, in emit order. */
    var outbox: seq<Delivery>

    /**
     * Rooms are keyed by truthy codes, hold only connected sockets that have
     * joined, and are never empty; a socket whose `data.code` is set is a
     * member of that room and carries a non-empty role.
     */
    ghost predicate Valid()
      reads this
    {
      && "" !in rooms
      && (forall c | c in rooms :: rooms[c] != {})
      && (forall c, id | c in rooms && id in rooms[c] :: Joined(sessions, id))
      && (forall id | id in sessions && sessions[id].code.Some? ::
            && Truthy(sessions[id].code)
            && id in MembersOf(rooms, sessions[id].code.value)
            && Truthy(sessions[id].role))
    }

    constructor ()
      ensures Valid()
      ensures rooms == map[] && sessions == map[] && outbox == []
    {
      rooms, sessions, outbox := map[], map[], [];
    }

    /** The `connection` event: a new socket with empty `data`. */
    method Connect(id: Id)
      requires Valid()
      requires id !in sessions
      modifies this
      ensures Valid()
      ensures sessions == old(sessions)[id := SessionData(None, None)]
      ensures rooms == old(rooms) && outbox == old(outbox)
    {
      sessions := sessions[id := SessionData(None, None)];
      forall c, m | c in rooms && m in rooms[c] ensures Joined(sessions, m) {
        assert Joined(old(sessions), m);
        assert m != id;
      }
    }

    /** One emit: appends a delivery of `e` for each recipient, in some order. */
    method Emit(recipients: set<Id>, e: Event) returns (batch: seq<Delivery>)
      modifies `outbox
      ensures outbox == old(outbox) + batch
      ensures IsFanout(batch, recipients, e)
      ensures forall i | 0 <= i < |batch| :: batch[i].to in recipients && batch[i].event == e
    {
      batch := FanOut(recipients, e);
      outbox := outbox + batch;
    }

    /**
     * `join {code, role}`: a falsy code is ignored. Otherwise the sender
     * enters room `code` (without leaving any room it joined before), its
     * `data` is overwritten, and every other member of the room is told
     * `peer-joined` with the role exactly as sent.
     */
    method Join(sender: Id, code: Option<string>, role: Option<string>) returns (sent: seq<Delivery>)
      requires Valid()
      requires sender in sessions
      modifies this
      ensures Valid()
      ensures outbox == old(outbox) + sent
      ensures !Truthy(code) ==> rooms == old(rooms) && sessions == old(sessions) && sent == []
      ensures Truthy(code) ==>
                && rooms == old(rooms)[code.value := MembersOf(old(rooms), code.value) + {sender}]
                && sessions == old(sessions)[sender := SessionData(code, Some(DefaultRole(role)))]
                && IsFanout(sent, MembersOf(old(rooms), code.value) - {sender}, PeerJoined(sender, role))
      ensures forall i | 0 <= i < |sent| :: Joined(sessions, sent[i].to) && sent[i].to != sender
    {
      if !Truthy(code) {
        return [];
      }
      var c := code.value;
      ghost var before := rooms;
      rooms := rooms[c := MembersOf(rooms, c) + {sender}];
      sessions := sessions[sender := SessionData(code, Some(DefaultRole(role)))];
      forall d, m | d in rooms && m in rooms[d] ensures Joined(sessions, m) {
        if m != sender {
          assert d in before && m in before[d];
          assert Joined(old(sessions), m);
        }
      }
      sent := Emit(MembersOf(rooms, c) - {sender}, PeerJoined(sender, role));
    }

    /**
     * `select {code, key}`: with a truthy code, `{key, from: sender}` goes to
     * every member of that room except the sender, whether or not the sender
     * joined it. Nothing else changes.
     */
    method Select(sender: Id, code: Option<string>, key: Option<string>) returns (sent: seq<Delivery>)
      requires Valid()
      requires sender in sessions
      modifies `outbox
      ensures Valid()
      ensures outbox == old(outbox) + sent
      ensures !Truthy(code) ==> sent == []
      ensures Truthy(code) ==> IsFanout(sent, MembersOf(rooms, code.value) - {sender}, Selected(key, sender))
      ensures forall i | 0 <= i < |sent| :: Joined(sessions, sent[i].to) && sent[i].to != sender
    {
      if !Truthy(code) {
        return [];
      }
      sent := Emit(MembersOf(rooms, code.value) - {sender}, Selected(key, sender));
    }

    /**
     * `end-session {code}`: with a truthy code, `session-ended {code}` goes to
     * every member of the room, the sender included when it is one.
     * Membership is not changed.
     */
    method EndSession(sender: Id, code: Option<string>) returns (sent: seq<Delivery>)
      requires Valid()
      requires sender in sessions
      modifies `outbox
      ensures Valid()
      ensures outbox == old(outbox) + sent
      ensures !Truthy(code) ==> sent == []
      ensures Truthy(code) ==> IsFanout(sent, MembersOf(rooms, code.value), SessionEnded(code.value))
      ensures forall i | 0 <= i < |sent| :: Joined(sessions, sent[i].to)
    {
      if !Truthy(code) {
        return [];
      }
      sent := Emit(MembersOf(rooms, code.value), SessionEnded(code.value));
    }

    /**
     * `disconnect`: the transport has already dropped the socket from every
     * room; when its `data.code` is set, each remaining member of that one
     * room gets `peer-left {id, role}`. The session is gone afterwards.
     */
    method Disconnect(sender: Id) returns (sent: seq<Delivery>)
      requires Valid()
      requires sender in sessions
      modifies this
      ensures Valid()
      ensures sessions == old(sessions) - {sender}
      ensures rooms == WithoutMember(old(rooms), sender)
      ensures forall c :: sender !in MembersOf(rooms, c)
      ensures outbox == old(outbox) + sent
      ensures old(sessions[sender].code).None? ==> sent == []
      ensures old(sessions[sender].code).Some? ==>
                IsFanout(sent, MembersOf(old(rooms), old(sessions[sender].code.value)) - {sender},
                         PeerLeft(sender, old(sessions[sender].role)))
      ensures forall i | 0 <= i < |sent| :: Joined(sessions, sent[i].to)
    {
      var data := sessions[sender];
      ghost var before := rooms;
      rooms := WithoutMember(rooms, sender);
      sessions := sessions - {sender};
      forall c, m | c in rooms && m in rooms[c] ensures Joined(sessions, m) {
        assert m in MembersOf(rooms, c) && m in MembersOf(before, c);
        assert c in before && m in before[c];
        assert Joined(old(sessions), m) && m != sender;
      }
      if data.code.Some? {
        sent := Emit(MembersOf(rooms, data.code.value) - {sender}, PeerLeft(sender, data.role));
      } else {
        sent := [];
      }
    }
  }

  /** After an emit, each receiver's inbox has grown by one copy of the event exactly when it is a recipient. */
  lemma InboxAfterFanout(before: seq<Delivery>, batch: seq<Delivery>, recipients: set<Id>, e: Event, r: Id)
    requires IsFanout(batch, recipients, e)
    ensures Inbox(before + batch, r) == Inbox(before, r) + if r in recipients then [e] else []
  {
    InboxAppend(before, batch, r);
  }

  /**
   * The pairing scenario: host "H" and client "C" join "4821", the client
   * selects "7", the host ends the session and the client disconnects.
   * Each step's deliveries are returned and pinned down exactly.
   */
  method PairingScenario() returns (joined: seq<Delivery>, selected: seq<Delivery>,
                                    ended: seq<Delivery>, left: seq<Delivery>)
    ensures joined == [Delivery("H", PeerJoined("C", Some("client")))]
    ensures selected == [Delivery("H", Selected(Some("7"), "C"))]
    ensures IsFanout(ended, {"H", "C"}, SessionEnded("4821"))
    ensures left == [Delivery("H", PeerLeft("C", Some("client")))]
  {
    var relay := new RelayServer();
    relay.Connect("H");
    relay.Connect("C");
    assert Truthy(Some("4821"));
    var first := relay.Join("H", Some("4821"), Some("host"));
    assert MembersOf(map[], "4821") + {"H"} == {"H"};
    assert relay.rooms == map["4821" := {"H"}];
    joined := relay.Join("C", Some("4821"), Some("client"));
    assert {"H"} + {"C"} - {"C"} == {"H"};
    assert {"H"} + {"C"} == {"H", "C"};
    assert relay.rooms == map["4821" := {"H", "C"}];
    assert relay.sessions["C"] == SessionData(Some("4821"), Some("client"));
    selected := relay.Select("C", Some("4821"), Some("7"));
    ended := relay.EndSession("H", Some("4821"));
    assert relay.rooms == map["4821" := {"H", "C"}];
    assert relay.sessions["C"] == SessionData(Some("4821"), Some("client"));
    assert MembersOf(relay.rooms, "4821") - {"C"} == {"H"};
    left := relay.Disconnect("C");
    SingleFanout(joined, "H", PeerJoined("C", Some("client")));
    SingleFanout(selected, "H", Selected(Some("7"), "C"));
    SingleFanout(left, "H", PeerLeft("C", Some("client")));
  }
}
