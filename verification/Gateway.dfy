/** One server instance: apps/server/src/sync/sync.gateway.ts and room-state.ts. */
module Gateway {
  import opened Common
  import opened Replica
  import opened EnvelopeGate
  import opened Wire
  import Backoff
  import Cluster
  import Throttle

  const MAX_WS_MESSAGE_BYTES := 65536
  const LOBBY := "default"

  datatype DbId = Unset | Known(id: string)

  /** The room row as a load read it, or none. */
  datatype Row = NoRow | Row(id: string, currentKeyId: nat, state: Doc)

  class RoomState {
    const roomId: string
    var doc: Doc
    var clients: set<nat>
    var dbId: DbId
    var currentKeyId: nat
    ghost var fromRow: bool        // loaded, and the load found the room's row

    constructor (roomId: string)
      ensures this.roomId == roomId && doc == map[] && clients == {} && dbId == Unset && currentKeyId == 0
      ensures !fromRow
    {
      this.roomId := roomId;
      doc, clients, dbId, currentKeyId, fromRow := map[], {}, Unset, 0, false;
    }
  }

  /** The ids that a refusal of u names. */
  function RejectedIds(u: Update): seq<string> { if u.Update? then NamedIds(WireOfAll(u.structs)) else [] }

  lemma PrefixHas(s: seq<ServerFrame>, t: seq<ServerFrame>, f: ServerFrame)
    requires s <= t && f in s
    ensures f in t
  {
    var i :| 0 <= i < |s| && s[i] == f;
    assert t[i] == f;
  }

  // ---------------------------------------------------------------- what a frame does, on values

  function FramesTo(outbox: map<nat, seq<ServerFrame>>, c: nat): seq<ServerFrame>
  {
    if c in outbox then outbox[c] else []
  }

  /** One room and all that a frame for it reads or changes. */
  datatype Sync = Sync(
    roomId: string, doc: Doc, keyId: nat, clients: set<nat>, open: set<nat>, now: nat,
    outbox: map<nat, seq<ServerFrame>>, published: seq<(string, Delta)>, persistTimers: set<string>,
    lastRejection: map<nat, Throttle.Rejection>)
  {
    function RejectionOf(c: nat): Throttle.Rejection
    {
      if c in lastRejection then lastRejection[c] else Throttle.NoRejection
    }

    /** The copy of this room as the cluster model sees it. */
    function AsCopy(): Cluster.Copy { Cluster.Copy(doc, keyId, [], []) }

    predicate Refuses(u: Update) { Cluster.Gated(AsCopy(), roomId == LOBBY) && !GateAccepts(u) }

    /** What a refused client is sent: the ids to retract, and mostly the question for its state. */
    function RefusalFrames(client: nat, ids: seq<string>, signature: nat): seq<ServerFrame>
    {
      [Rejected(keyId, ids)]
      + (if Throttle.AsksAtOnce(RejectionOf(client), signature) && client in open then [Ask(Vector(doc))] else [])
    }
  }

  /** What Redis is given about a document that changed. */
  function NewsOf(s: Sync, t: Sync): seq<(string, Delta)>
  {
    var news := Changes(s.doc, t.doc);
    if IsEmpty(news) then [] else [(s.roomId, news)]
  }

  /** A refused update: nothing but the answer to its sender, and the memory of it. */
  ghost predicate RefusedWhole(s: Sync, t: Sync, client: nat, u: Update, signature: nat)
  {
    && t.doc == s.doc && t.published == s.published && t.persistTimers == s.persistTimers
    && t.lastRejection == s.lastRejection[client := Throttle.Refused(s.RejectionOf(client), signature, s.now)]
    && forall c :: FramesTo(t.outbox, c)
         == FramesTo(s.outbox, c) + (if c == client then s.RefusalFrames(client, RejectedIds(u), signature) else [])
  }

  /** An accepted update: what was new in it goes to the other open clients, to Redis and to the persist timer. */
  ghost predicate AppliedWhole(s: Sync, t: Sync, client: nat, u: Update)
  {
    var news := Changes(s.doc, t.doc);
    && t.doc == Absorb(s.doc, if u.Update? then DeltaOf(u) else Delta(map[], {}))
    && t.published == s.published + NewsOf(s, t) && t.lastRejection == s.lastRejection
    && t.persistTimers == s.persistTimers + (if IsEmpty(news) then {} else {s.roomId})
    && forall c :: FramesTo(t.outbox, c)
         == FramesTo(s.outbox, c) + (if !IsEmpty(news) && c in s.clients && c in s.open && c != client then [Fanout(news)] else [])
  }

  /** A sync update from a client: refused whole, or applied whole. */
  ghost predicate UpdateHandled(s: Sync, t: Sync, client: nat, u: Update, signature: nat)
  {
    if s.Refuses(u) then RefusedWhole(s, t, client, u, signature) else AppliedWhole(s, t, client, u)
  }

  /** Everything a dispatched frame does. */
  ghost predicate Handled(s: Sync, t: Sync, client: nat, frame: ClientFrame, signature: nat)
  {
    match frame
    case AskState(v) =>
      && t.doc == s.doc && t.published == s.published && t.persistTimers == s.persistTimers
      && t.lastRejection == s.lastRejection
      && forall c :: FramesTo(t.outbox, c) == FramesTo(s.outbox, c) + (if c == client then [State(Diff(s.doc, v))] else [])
    case Answer(u) => UpdateHandled(s, t, client, u, signature)
    case Push(u) => UpdateHandled(s, t, client, u, signature)
    case _ => t == s
  }

  /** The same, seen by the cluster model: the document and the publications go where its step takes them. */
  lemma HandledIsAStep(s: Sync, t: Sync, client: nat, frame: ClientFrame, signature: nat)
    requires Handled(s, t, client, frame, signature)
    ensures t.doc == Absorb(s.doc, Cluster.Applied(s.AsCopy(), s.roomId == LOBBY, frame))
    ensures t.published == s.published + NewsOf(s, t)
  {
    AbsorbNothing(s.doc);
  }

  class SyncGateway {
    var rooms: map<string, RoomState>
    var persistTimers: set<string>
    var clientRate: map<nat, Throttle.Rate>
    var lastRejection: map<nat, Throttle.Rejection>
    var epochByDbId: map<string, nat>
    var now: nat
    var open: set<nat>                          // sockets in state OPEN
    var outbox: map<nat, seq<ServerFrame>>      // frames sent to each client
    var closed: map<nat, int>                   // close codes sent
    var published: seq<(string, Delta)>         // room updates given to Redis
    ghost var dbEpoch: map<string, nat>         // the database's epochs, which claims raise

    constructor ()
      ensures Valid() && rooms == map[] && published == [] && persistTimers == {}
    {
      rooms, persistTimers, clientRate, lastRejection, epochByDbId := map[], {}, map[], map[], map[];
      now, open, outbox, closed, published, dbEpoch := 0, {}, map[], map[], [], map[];
    }

    // -------------------------------------------------------------- what every event keeps

    function Heard(id: string): nat
      reads this
    {
      if id in epochByDbId then epochByDbId[id] else 0
    }

    ghost function DbEpoch(id: string): nat
      reads this
    {
      if id in dbEpoch then dbEpoch[id] else 0
    }

    /** A room's copy: never ahead of the database, never behind the events heard, and its clients know. */
    ghost predicate RoomOk(room: RoomState)
      reads this, room
    {
      && (room.dbId.Unset? ==> room.currentKeyId == 0)
      && (room.fromRow ==> room.dbId.Known?)
      && (room.dbId.Known? ==> room.currentKeyId <= DbEpoch(room.dbId.id))
      && (room.fromRow ==> Heard(room.dbId.id) <= room.currentKeyId)
      && Informed(room, room.clients)
    }

    /** These clients have been sent the copy's current epoch. */
    ghost predicate Informed(room: RoomState, clients: set<nat>)
      reads this, room
    {
      room.currentKeyId > 0 && room.roomId != LOBBY ==> forall c | c in clients :: Told(c, RoomEpoch(room.currentKeyId))
    }

    ghost predicate Told(c: nat, frame: ServerFrame)
      reads this
    {
      frame in FramesTo(outbox, c)
    }

    /** Nothing that was sent is taken back. */
    twostate predicate Kept()
      reads this
    {
      forall c :: FramesTo(old(outbox), c) <= FramesTo(outbox, c)
    }

    /** A room that an event leaves alone stays fine as long as nothing new is heard. */
    twostate lemma StillOk(room: RoomState)
      requires old(RoomOk(room)) && SameEpoch(room) && Kept()
      requires epochByDbId == old(epochByDbId) && dbEpoch == old(dbEpoch)
      ensures RoomOk(room)
    {
      if room.currentKeyId > 0 && room.roomId != LOBBY {
        forall c | c in room.clients ensures Told(c, RoomEpoch(room.currentKeyId)) {
          PrefixHas(FramesTo(old(outbox), c), FramesTo(outbox, c), RoomEpoch(room.currentKeyId));
        }
      }
    }

    ghost predicate Valid()
      reads this, rooms.Values
    {
      && (forall name | name in rooms :: rooms[name].roomId == name)
      && (forall room | room in rooms.Values :: RoomOk(room))
      && (forall id | id in epochByDbId :: epochByDbId[id] <= DbEpoch(id))
    }

    // -------------------------------------------------------------- sending

    method Send(client: nat, frame: ServerFrame)
      modifies this`outbox
      ensures forall c :: FramesTo(outbox, c) == FramesTo(old(outbox), c) + (if c == client then [frame] else [])
      ensures Kept() && Told(client, frame)
    {
      outbox := outbox[client := FramesTo(outbox, client) + [frame]];
    }

    /** To each of the clients once. */
    method SendAll(clients: set<nat>, frame: ServerFrame)
      modifies this`outbox
      ensures forall c :: FramesTo(outbox, c) == FramesTo(old(outbox), c) + (if c in clients then [frame] else [])
      ensures Kept() && forall c | c in clients :: Told(c, frame)
    {
      var rest := clients;
      while rest != {}
        invariant rest <= clients
        invariant forall c :: FramesTo(outbox, c) == FramesTo(old(outbox), c) + (if c in clients && c !in rest then [frame] else [])
        decreases rest
      {
        var client :| client in rest;
        label Before:
        Send(client, frame);
        assert forall c | c != client :: FramesTo(outbox, c) == FramesTo(old@Before(outbox), c);
        rest := rest - {client};
      }
    }

    // -------------------------------------------------------------- epochs

    /**
     A claim's event: remembered for rooms still loading, and applied to every loaded copy that is
     behind, whose clients are told.
     */
    method RaiseEpoch(dbId: string, keyId: nat)
      requires Valid() && keyId <= DbEpoch(dbId)
      modifies this`epochByDbId, this`outbox, rooms.Values
      ensures Valid()
      ensures forall id :: Heard(id) == if id == dbId then Max(old(Heard(id)), keyId) else old(Heard(id))
      ensures forall room | room in rooms.Values :: Raised(room, dbId, keyId)
      ensures forall room | room in rooms.Values ::
                && room.currentKeyId == (if old(room.dbId) == Known(dbId) then Max(old(room.currentKeyId), keyId)
                                         else old(room.currentKeyId))
                && room.doc == old(room.doc) && room.clients == old(room.clients) && room.dbId == old(room.dbId)
      ensures Kept()
    {
      epochByDbId := epochByDbId[dbId := Max(Heard(dbId), keyId)];
      RaiseLoaded(dbId, keyId);
    }

    /** The loop over the loaded copies. */
    method RaiseLoaded(dbId: string, keyId: nat)
      requires keyId <= DbEpoch(dbId)
      requires forall room | room in rooms.Values :: Behind(room, dbId, keyId)
      modifies this`outbox, rooms.Values
      ensures forall room | room in rooms.Values :: Raised(room, dbId, keyId) && RoomOk(room)
      ensures Kept()
    {
      var rest := rooms.Values;
      while rest != {}
        invariant rest <= rooms.Values && Kept()
        invariant forall room | room in rooms.Values - rest :: Raised(room, dbId, keyId) && RoomOk(room)
        invariant forall room | room in rest :: UnchangedRoom(room) && Behind(room, dbId, keyId)
        decreases rest
      {
        var room :| room in rest;
        RaiseOne(room, rooms.Values - {room}, dbId, keyId);
        rest := rest - {room};
      }
    }

    /** A room that the event, already noted in epochByDbId, has not been applied to yet. */
    ghost predicate Behind(room: RoomState, dbId: string, keyId: nat)
      reads this, room
    {
      && (room.dbId.Unset? ==> room.currentKeyId == 0)
      && (room.fromRow ==> room.dbId.Known?)
      && (room.dbId.Known? ==> room.currentKeyId <= DbEpoch(room.dbId.id))
      && (room.fromRow ==> Heard(room.dbId.id) <= if room.dbId.id == dbId then Max(room.currentKeyId, keyId)
                                                  else room.currentKeyId)
      && Informed(room, room.clients)
    }

    twostate predicate SameEpoch(room: RoomState)
      reads room
    {
      && room.currentKeyId == old(room.currentKeyId) && room.clients == old(room.clients)
      && room.dbId == old(room.dbId) && room.fromRow == old(room.fromRow)
    }

    twostate predicate UnchangedRoom(room: RoomState)
      reads room
    {
      SameEpoch(room) && room.doc == old(room.doc)
    }

    twostate predicate Raised(room: RoomState, dbId: string, keyId: nat)
      reads room
    {
      && room.currentKeyId == (if old(room.dbId) == Known(dbId) then Max(old(room.currentKeyId), keyId)
                               else old(room.currentKeyId))
      && room.doc == old(room.doc) && room.clients == old(room.clients)
      && room.dbId == old(room.dbId) && room.fromRow == old(room.fromRow)
    }

    method RaiseOne(room: RoomState, ghost others: set<RoomState>, dbId: string, keyId: nat)
      requires room !in others && keyId <= DbEpoch(dbId) && Behind(room, dbId, keyId)
      modifies this`outbox, room`currentKeyId
      ensures Raised(room, dbId, keyId)
      ensures forall c :: FramesTo(outbox, c) == FramesTo(old(outbox), c) + (if old(room.dbId) == Known(dbId) && keyId > old(room.currentKeyId)
                                                           && c in room.clients then [RoomEpoch(keyId)] else [])
      ensures Kept() && RoomOk(room)
      ensures forall other | other in others :: old(RoomOk(other)) ==> RoomOk(other)
      ensures forall other | other in others :: old(Behind(other, dbId, keyId)) ==> Behind(other, dbId, keyId)
    {
      if room.dbId != Known(dbId) || keyId <= room.currentKeyId {
        return;
      }
      room.currentKeyId := keyId;
      SendAll(room.clients, RoomEpoch(keyId));
    }

    // -------------------------------------------------------------- loading and joining

    /** A claim commits in the database; its event comes later. */
    ghost method ClaimCommitted(dbId: string)
      requires Valid()
      modifies this`dbEpoch
      ensures Valid() && dbEpoch == old(dbEpoch)[dbId := old(DbEpoch(dbId)) + 1]
    {
      dbEpoch := dbEpoch[dbId := DbEpoch(dbId) + 1];
    }

    /** The room's copy; a new one is listed at once, before its load has begun to read. */
    method GetOrCreateRoom(name: string) returns (room: RoomState)
      requires Valid()
      modifies this`rooms
      ensures Valid() && rooms == old(rooms)[name := room] && room in rooms.Values
      ensures if name in old(rooms) then room == old(rooms[name]) else fresh(room) && Blank(room)
    {
      if name in rooms {
        return rooms[name];
      }
      room := new RoomState(name);
      rooms := rooms[name := room];
      assert rooms[name] == room;
      forall other | other in rooms.Values && other != room ensures RoomOk(other) {
        var key :| key in rooms && rooms[key] == other;
        assert old(rooms)[key] == other && other in old(rooms).Values;
        StillOk(other);
      }
    }

    /** A copy that nothing has been read into, or that has been told nothing yet. */
    predicate Blank(room: RoomState)
      reads room
    {
      room.doc == map[] && room.clients == {} && room.dbId == Unset && room.currentKeyId == 0
    }

    /**
     The continuation of a load's database read.  The row was read at some earlier moment; events that
     ran since are in epochByDbId, so none is lost.
     */
    method LoadRead(room: RoomState, row: Row)
      requires Valid() && room in rooms.Values && room.dbId.Unset? && room.clients == {}
      requires row.Row? ==> row.currentKeyId <= DbEpoch(row.id)
      modifies room
      ensures Valid()
      ensures row.Row? ==> && room.fromRow && room.dbId == Known(row.id)
                           && room.currentKeyId
                              == Max(Max(old(room.currentKeyId), row.currentKeyId), Heard(row.id))
                           && room.doc == Absorb(old(room.doc), Delta(row.state, {}))
      ensures row.NoRow? ==> UnchangedRoom(room)
    {
      if row.Row? {
        room.dbId := Known(row.id);
        room.currentKeyId := Max(Max(room.currentKeyId, row.currentKeyId), Heard(row.id));
        room.fromRow := true;
        room.doc := Absorb(room.doc, Delta(row.state, {}));
      }
    }

    /** The continuation of the upsert that follows when the row held no document. */
    method LoadUpserted(room: RoomState, id: string)
      requires Valid() && room in rooms.Values
      modifies room`dbId
      ensures Valid() && room.dbId == if old(room.dbId).Unset? then Known(id) else old(room.dbId)
    {
      if room.dbId.Unset? {
        room.dbId := Known(id);
      }
    }

    /** The tail of a connection: the room's epoch first, then the state vector and the full state. */
    method Join(client: nat, room: RoomState)
      requires Valid() && room in rooms.Values
      modifies this`outbox, this`open, room`clients
      ensures Valid() && room.clients == old(room.clients) + {client} && client in open
      ensures FramesTo(outbox, client) == FramesTo(old(outbox), client)
                + (if room.currentKeyId > 0 && room.roomId != LOBBY then [RoomEpoch(room.currentKeyId)] else [])
                + [Ask(Vector(room.doc)), State(Diff(room.doc, map[]))]
      ensures forall c | c != client :: FramesTo(outbox, c) == FramesTo(old(outbox), c)
      ensures Kept()
    {
      room.clients := room.clients + {client};
      open := open + {client};
      Greet(client, room);
      forall other | other in rooms.Values && other != room ensures RoomOk(other) {
        StillOk(other);
      }
    }

    /** The frames a joining client gets. */
    method Greet(client: nat, room: RoomState)
      modifies this`outbox
      ensures FramesTo(outbox, client) == FramesTo(old(outbox), client)
                + (if room.currentKeyId > 0 && room.roomId != LOBBY then [RoomEpoch(room.currentKeyId)] else [])
                + [Ask(Vector(room.doc)), State(Diff(room.doc, map[]))]
      ensures forall c | c != client :: FramesTo(outbox, c) == FramesTo(old(outbox), c)
      ensures Kept() && Informed(room, {client})
    {
      if room.currentKeyId > 0 && room.roomId != LOBBY {
        Send(client, RoomEpoch(room.currentKeyId));
        ghost var told := FramesTo(outbox, client);
        SendState(client, room);
        PrefixHas(told, FramesTo(outbox, client), RoomEpoch(room.currentKeyId));
      } else {
        SendState(client, room);
      }
    }

    /** Steps 1 and 2: the copy's vector, and all of it. */
    method SendState(client: nat, room: RoomState)
      modifies this`outbox
      ensures forall c :: FramesTo(outbox, c) == FramesTo(old(outbox), c)
                + (if c == client then [Ask(Vector(room.doc)), State(Diff(room.doc, map[]))] else [])
      ensures Kept()
    {
      var ask, state := Ask(Vector(room.doc)), State(Diff(room.doc, map[]));
      Send(client, ask);
      Send(client, state);
      assert FramesTo(old(outbox), client) + [ask] + [state] == FramesTo(old(outbox), client) + [ask, state];
    }

    /**
     A connection to a room, with nothing else happening while it loads: the client ends up in the copy,
     and what it is sent tells it at least the epoch of the row and of every event heard.
     */
    method HandleConnection(client: nat, name: string, row: Row, upserted: string) returns (room: RoomState)
      requires Valid() && (row.Row? ==> row.currentKeyId <= DbEpoch(row.id))
      modifies this`rooms, this`outbox, this`open, rooms.Values
      ensures Valid() && name in rooms && room == rooms[name] && client in room.clients && client in open
      ensures name !in old(rooms) && row.Row? ==> room.currentKeyId == Max(row.currentKeyId, Heard(row.id))
      ensures FramesTo(outbox, client) == FramesTo(old(outbox), client)
                + (if room.currentKeyId > 0 && name != LOBBY then [RoomEpoch(room.currentKeyId)] else [])
                + [Ask(Vector(room.doc)), State(Diff(room.doc, map[]))]
    {
      var loaded := name in rooms;
      room := GetOrCreateRoom(name);
      if !loaded {
        LoadRead(room, row);
        LoadUpserted(room, upserted);
      }
      Join(client, room);
    }

    method HandleDisconnect(client: nat, room: RoomState)
      requires Valid() && room in rooms.Values
      modifies this`open, room`clients
      ensures Valid() && room.clients == old(room.clients) - {client} && open == old(open) - {client}
    {
      room.clients := room.clients - {client};
      open := open - {client};
      forall other | other in rooms.Values && other != room ensures RoomOk(other) {
        StillOk(other);
      }
    }

    /** Time passes. */
    method Tick(ms: nat)
      requires Valid()
      modifies this`now
      ensures Valid() && now == old(now) + ms
    {
      now := now + ms;
      forall room | room in rooms.Values ensures RoomOk(room) {
        StillOk(room);
      }
    }

    // -------------------------------------------------------------- client frames

    method IsRateLimited(client: nat) returns (limited: bool)
      modifies this`clientRate
      ensures limited == Throttle.Limited(old(RateOf(client)), now)
      ensures clientRate == old(clientRate)[client := Throttle.Counted(old(RateOf(client)), now)]
      ensures var was := old(RateOf(client));
              if was.Rate? && now - was.windowStart < 1000
              then clientRate[client] == Throttle.Rate(was.count + 1, was.windowStart) && (limited <==> was.count >= 60)
              else clientRate[client] == Throttle.Rate(1, now) && !limited
    {
      var state := RateOf(client);
      if state.NoRate? || now - state.windowStart >= Throttle.RATE_LIMIT_WINDOW_MS {
        clientRate := clientRate[client := Throttle.Rate(1, now)];
        return false;
      }
      state := state.(count := state.count + 1);
      clientRate := clientRate[client := state];
      limited := state.count > Throttle.RATE_LIMIT_MAX_MSGS;
    }

    function RateOf(client: nat): Throttle.Rate
      reads this
    {
      if client in clientRate then clientRate[client] else Throttle.NoRate
    }

    function RejectionOf(client: nat): Throttle.Rejection
      reads this
    {
      if client in lastRejection then lastRejection[client] else Throttle.NoRejection
    }

    /** The last frame refused to this client was this one. */
    predicate Repeats(client: nat, signature: nat)
      reads this
    {
      client in lastRejection && lastRejection[client].Rejection? && lastRejection[client].signature == signature
    }

    /** Asks the client for its state again: at once, or after a backoff when the same frame bounced again. */
    method AskForResync(client: nat, room: RoomState, signature: nat)
      modifies this`lastRejection, this`outbox
      ensures client in lastRejection
      ensures !old(Repeats(client, signature)) ==>
                lastRejection[client] == Throttle.Rejection(signature, 0, Throttle.Idle)
      ensures old(Repeats(client, signature)) ==>
                var k := old(lastRejection)[client].repeats;
                lastRejection[client]
                == Throttle.Rejection(signature, k + 1, Throttle.Due(now + Min(1000 * Backoff.Pow2(k), 30000)))
      ensures forall c :: FramesTo(outbox, c) == FramesTo(old(outbox), c)
                + (if c == client && !old(Repeats(client, signature)) && client in open then [Ask(Vector(room.doc))] else [])
      ensures lastRejection == old(lastRejection)[client := Throttle.Refused(old(RejectionOf(client)), signature, now)]
      ensures forall c :: FramesTo(outbox, c) == FramesTo(old(outbox), c)
                + (if c == client && Throttle.AsksAtOnce(old(RejectionOf(client)), signature) && client in open
                   then [Ask(Vector(room.doc))] else [])
      ensures Kept()
    {
      var previous := RejectionOf(client);
      var repeats := if previous.Rejection? && previous.signature == signature then previous.repeats + 1 else 0;
      lastRejection := lastRejection[client := Throttle.Rejection(signature, repeats, Throttle.Idle)];
      if repeats == 0 {
        SendStep1(client, room);
        return;
      }
      Backoff.DelaySchedule(0, repeats - 1);
      var state := lastRejection[client].(timer := Throttle.Due(now + Throttle.Delay(repeats)));
      lastRejection := lastRejection[client := state];
    }

    /** The backed-off question for the client's state comes due. */
    method OnResyncTimer(client: nat, room: RoomState)
      requires Valid() && RejectionOf(client).Rejection? && RejectionOf(client).timer.Due?
      requires RejectionOf(client).timer.at <= now
      modifies this`lastRejection, this`outbox
      ensures Valid() && Kept()
      ensures lastRejection == old(lastRejection)[client := old(RejectionOf(client)).(timer := Throttle.Idle)]
      ensures forall c :: FramesTo(outbox, c) == FramesTo(old(outbox), c) + (if c == client && client in open then [Ask(Vector(room.doc))] else [])
    {
      lastRejection := lastRejection[client := lastRejection[client].(timer := Throttle.Idle)];
      SendStep1(client, room);
      forall other | other in rooms.Values ensures RoomOk(other) {
        StillOk(other);
      }
    }

    method SendStep1(client: nat, room: RoomState)
      modifies this`outbox
      ensures forall c :: FramesTo(outbox, c) == FramesTo(old(outbox), c) + (if c == client && client in open then [Ask(Vector(room.doc))] else [])
      ensures Kept()
    {
      if client in open {
        Send(client, Ask(Vector(room.doc)));
      }
    }

    /** This room and what a frame for it can touch. */
    function Of(room: RoomState): Sync
      reads this, room
    {
      Sync(room.roomId, room.doc, room.currentKeyId, room.clients, open, now, outbox, published, persistTimers,
           lastRejection)
    }

    /** The gate on a sync update: the ids to reject, or none to accept. */
    method PlaintextIntoE2eeRoom(room: RoomState, u: Update) returns (verdict: Verdict)
      ensures verdict.Reject? <==> Of(room).Refuses(u)
      ensures verdict.Reject? <==> room.currentKeyId > 0 && room.roomId != "default"
                                   && !(u.Update? && OnlySealed(WireOfAll(u.structs)))
      ensures verdict.Reject? ==> verdict.ids == RejectedIds(u)
    {
      if room.currentKeyId == 0 || room.roomId == LOBBY {
        return Accept;
      }
      if u.Undecodable? {
        verdict := CheckEnvelopedUpdate([], false);
      } else {
        verdict := CheckEnvelopedUpdate(WireOfAll(u.structs), true);
      }
    }

    /**
     The document's update handler: what was new goes to the room's other open clients, and, unless it
     came from Redis, to Redis and to the persist timer.
     */
    method OnDocUpdate(room: RoomState, news: Delta, from: nat, viaRedis: bool)
      modifies this`outbox, this`published, this`persistTimers
      ensures forall c :: FramesTo(outbox, c) == FramesTo(old(outbox), c)
                + (if c in room.clients && c in open && (viaRedis || c != from) then [Fanout(news)] else [])
      ensures published == old(published) + (if viaRedis then [] else [(room.roomId, news)])
      ensures persistTimers == old(persistTimers) + (if viaRedis then {} else {room.roomId})
      ensures Kept()
    {
      SendAll((set c | c in room.clients && c in open && (viaRedis || c != from)), Fanout(news));
      if viaRedis {
        return;
      }
      published := published + [(room.roomId, news)];
      persistTimers := persistTimers + {room.roomId};
    }

    /** Applies an update to the room's document, which fires the handler if anything was new. */
    method ApplyUpdate(room: RoomState, x: Delta, from: nat, viaRedis: bool)
      modifies this`outbox, this`published, this`persistTimers, room`doc
      ensures room.doc == Absorb(old(room.doc), x)
      ensures var news := Changes(old(room.doc), room.doc);
              && published == old(published) + (if viaRedis || IsEmpty(news) then [] else [(room.roomId, news)])
              && persistTimers == old(persistTimers) + (if viaRedis || IsEmpty(news) then {} else {room.roomId})
              && forall c :: FramesTo(outbox, c) == FramesTo(old(outbox), c)
                   + (if !IsEmpty(news) && c in room.clients && c in open && (viaRedis || c != from)
                      then [Fanout(news)] else [])
      ensures Kept()
    {
      var before := room.doc;
      room.doc := Absorb(room.doc, x);
      var news := Changes(before, room.doc);
      if !IsEmpty(news) {
        OnDocUpdate(room, news, from, viaRedis);
      }
    }

    /** Tells a client that its update was refused, and asks it for its state again. */
    method Refuse(client: nat, room: RoomState, ids: seq<string>, signature: nat)
      modifies this`outbox, this`lastRejection
      ensures lastRejection == old(lastRejection)[client := Throttle.Refused(old(RejectionOf(client)), signature, now)]
      ensures forall c :: FramesTo(outbox, c) == FramesTo(old(outbox), c)
                + (if c == client then old(Of(room).RefusalFrames(client, ids, signature)) else [])
      ensures FramesTo(outbox, client) == FramesTo(old(outbox), client) + [Rejected(room.currentKeyId, ids)]
                + (if !old(Repeats(client, signature)) && client in open then [Ask(Vector(room.doc))] else [])
      ensures Kept()
    {
      Send(client, Rejected(room.currentKeyId, ids));
      AskForResync(client, room, signature);
    }

    /** A sync update from a client: refused whole, or applied whole. */
    method HandleSyncUpdate(client: nat, room: RoomState, u: Update, signature: nat)
      modifies this`outbox, this`published, this`persistTimers, this`lastRejection, room`doc
      ensures UpdateHandled(old(Of(room)), Of(room), client, u, signature)
      ensures var refused := && old(room.currentKeyId) > 0 && room.roomId != "default"
                             && !(u.Update? && OnlySealed(WireOfAll(u.structs)));
              if refused
              then room.doc == old(room.doc)
                   && FramesTo(outbox, client) == FramesTo(old(outbox), client) + [Rejected(room.currentKeyId, RejectedIds(u))]
                      + (if !old(Repeats(client, signature)) && client in open then [Ask(Vector(room.doc))] else [])
              else room.doc == Absorb(old(room.doc), if u.Update? then DeltaOf(u) else Delta(map[], {}))
      ensures Kept()
    {
      AbsorbNothing(room.doc);
      var verdict := PlaintextIntoE2eeRoom(room, u);
      if verdict.Reject? {
        Refuse(client, room, verdict.ids, signature);
      } else if u.Update? {
        ApplyUpdate(room, DeltaOf(u), client, false);
      }
    }

    /** The frame is too large, or one too many for this window. */
    predicate Dropped(client: nat, bytes: nat)
      reads this
    {
      bytes > MAX_WS_MESSAGE_BYTES || Throttle.Limited(RateOf(client), now)
    }

    /**
     One frame from a client.  Oversized frames and floods close the socket and do nothing else;
     everything that reaches the document goes through the gate.
     */
    method HandleMessage(client: nat, room: RoomState, bytes: nat, frame: ClientFrame, signature: nat)
      requires Valid()
      modifies this`outbox, this`published, this`persistTimers, this`lastRejection, this`clientRate, this`closed, room`doc
      ensures Valid()
      ensures old(Dropped(client, bytes)) ==>
                closed == old(closed)[client := if bytes > 65536 then 1009 else 4029] && Of(room) == old(Of(room))
      ensures !old(Dropped(client, bytes)) ==> closed == old(closed) && Handled(old(Of(room)), Of(room), client, frame, signature)
      ensures clientRate == if bytes > 65536 then old(clientRate)
                            else old(clientRate)[client := Throttle.Counted(old(RateOf(client)), now)]
      ensures Kept()
    {
      Admit(client, room, bytes, frame, signature);
      forall other | other in rooms.Values ensures RoomOk(other) {
        StillOk(other);
      }
    }

    method Admit(client: nat, room: RoomState, bytes: nat, frame: ClientFrame, signature: nat)
      modifies this`outbox, this`published, this`persistTimers, this`lastRejection, this`clientRate, this`closed, room`doc
      ensures old(Dropped(client, bytes)) ==>
                closed == old(closed)[client := if bytes > 65536 then 1009 else 4029] && Of(room) == old(Of(room))
      ensures !old(Dropped(client, bytes)) ==> closed == old(closed) && Handled(old(Of(room)), Of(room), client, frame, signature)
      ensures clientRate == if bytes > 65536 then old(clientRate)
                            else old(clientRate)[client := Throttle.Counted(old(RateOf(client)), now)]
      ensures Kept()
    {
      var dropped := Limit(client, bytes);
      if !dropped {
        Dispatch(client, room, frame, signature);
      }
    }

    /** Closes the socket on a frame that is too large, or one too many. */
    method Limit(client: nat, bytes: nat) returns (dropped: bool)
      modifies this`clientRate, this`closed
      ensures dropped == old(Dropped(client, bytes))
      ensures var was := old(RateOf(client));
              dropped <==> bytes > 65536 || (was.Rate? && now - was.windowStart < 1000 && was.count >= 60)
      ensures closed == if !dropped then old(closed)
                        else old(closed)[client := if bytes > 65536 then 1009 else 4029]
      ensures clientRate == if bytes > 65536 then old(clientRate)
                            else old(clientRate)[client := Throttle.Counted(old(RateOf(client)), now)]
    {
      if bytes > MAX_WS_MESSAGE_BYTES {
        closed := closed[client := 1009];
        return true;
      }
      dropped := IsRateLimited(client);
      if dropped {
        closed := closed[client := 4029];
      }
    }

    method Dispatch(client: nat, room: RoomState, frame: ClientFrame, signature: nat)
      modifies this`outbox, this`published, this`persistTimers, this`lastRejection, room`doc
      ensures Handled(old(Of(room)), Of(room), client, frame, signature) && Kept()
    {
      match frame {
        case AskState(v) => Send(client, State(Diff(room.doc, v)));
        case Answer(u) => HandleSyncUpdate(client, room, u, signature);
        case Push(u) => HandleSyncUpdate(client, room, u, signature);
        case _ =>
      }
    }

    /** A room update delivered by Redis from another instance. */
    method OnRedisUpdate(name: string, x: Delta)
      requires Valid()
      modifies this`outbox, this`published, this`persistTimers, rooms.Values
      ensures Valid() && published == old(published) && persistTimers == old(persistTimers)
      ensures name in rooms ==> rooms[name].doc == Absorb(old(rooms[name].doc), x)
      ensures name in rooms ==>
                var room := rooms[name];
                var news := Changes(old(room.doc), room.doc);
                forall c :: FramesTo(outbox, c) == FramesTo(old(outbox), c)
                  + (if !IsEmpty(news) && c in room.clients && c in open then [Fanout(news)] else [])
      ensures name !in rooms ==> outbox == old(outbox)
      ensures forall other | other in rooms && other != name :: UnchangedRoom(rooms[other])
      ensures Kept()
    {
      if name in rooms {
        ApplyUpdate(rooms[name], x, 0, true);
      }
      forall room | room in rooms.Values ensures RoomOk(room) {
        StillOk(room);
      }
    }
  }
}
