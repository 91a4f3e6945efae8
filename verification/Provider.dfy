/** The client's end of the sync socket: packages/sync-engine/src/WebSocketProvider.ts. */
module Provider {
  import opened JsonText
  import opened Replica
  import opened Engine
  import opened Wire
  import opened Common
  import Backoff

  datatype Status = Disconnected | Connecting | Connected

  /** What the client puts on the socket; updates are shown by their content. */
  datatype Outgoing = SendVector(vector: StateVector) | SendAnswer(x: Delta) | SendUpdate(x: Delta) | SendPresence

  /** The callbacks into the app. */
  datatype Call =
    | OnStatus(status: Status)
    | OnAuthError(code: int)
    | OnE2eeRejected(keyId: nat, retracted: seq<Element>)
    | OnRoomEpoch(keyId: nat)
    | OnUnrecoverable(keyId: nat)
    | OnSynced
    | RetryIn(ms: nat)

  datatype Client = Client(
    store: Store, status: Status, pending: seq<Delta>, retractedIds: set<string>, stateRefused: bool,
    synced: bool, retryCount: nat, destroyed: bool, open: bool, sent: seq<Outgoing>, calls: seq<Call>)

  datatype Event =
    | Opened
    | Closed(code: int)
    | Retrying
    | Received(frame: ServerFrame, arranged: seq<OpId>)
    | Typed(values: seq<Json>)            // the app pushes messages
    | Destroyed

  predicate IsAuthCloseCode(code: int) { 4000 <= code <= 4099 }

  function Sending(c: Client, frame: Outgoing): Client
  {
    if c.open then c.(sent := c.sent + [frame]) else c
  }

  function Calling(c: Client, call: Call): Client { c.(calls := c.calls + [call]) }

  /** The document changed locally: send the update, or queue it while offline. */
  function LocallyUpdated(c: Client, x: Delta): Client
  {
    if c.destroyed || c.stateRefused then c
    else if c.status == Connected then Sending(c, SendUpdate(x))
    else c.(pending := c.pending + [x])
  }

  function Flushed(c: Client, updates: seq<Delta>): Client
  {
    if updates == [] then c
    else Sending(Flushed(c, updates[..|updates| - 1]), SendUpdate(updates[|updates| - 1]))
  }

  function AfterOpen(c: Client): Client
  {
    var connected := Calling(c.(retryCount := 0, status := Connected, open := true), OnStatus(Connected));
    var asked := Sending(connected, SendVector(Vector(c.store.doc)));
    Sending(Flushed(asked.(pending := []), c.pending), SendPresence)
  }

  function AfterClose(c: Client, code: int): Client
  {
    if c.destroyed then c.(open := false)
    else
      var down := Calling(c.(status := Disconnected, open := false), OnStatus(Disconnected));
      if IsAuthCloseCode(code) then Calling(down, OnAuthError(code))
      else Calling(down, RetryIn(Backoff.Delay(c.retryCount))).(retryCount := c.retryCount + 1)
  }

  function ElementsOf(doc: Doc, ids: seq<OpId>): (es: seq<Element>)
    requires AllLive(doc, ids)
    ensures |es| == |ids| && forall i | 0 <= i < |es| :: es[i] == doc[ids[i]].element
  {
    if ids == [] then [] else
      assert ids[0] in ids;
      [doc[ids[0]].element] + ElementsOf(doc, ids[1..])
  }

  function IdsOf(es: seq<Element>): set<string>
  {
    set e | e in es && HasField(e, "id") :: Field(e, "id")
  }

  function AsSet(ids: seq<string>): set<string> { set id | id in ids }

  /** The retraction's own update goes out like any local change, before anything is concluded from it. */
  function AfterRetraction(c: Client, me: string, ids: seq<string>): Client
    requires AllLive(c.store.doc, c.store.order)
  {
    var removed := Scanned(c.store.doc, c.store.order, AsSet(ids), me).removed;
    var retracted := c.(store := Retracted(c.store, AsSet(ids), me));
    if removed == [] then retracted else LocallyUpdated(retracted, Delta(map[], Elements(removed)))
  }

  /** What is concluded from the retracted messages: repaired, or beyond repair. */
  function Concluding(c: Client, keyId: nat, ids: seq<string>, retracted: seq<Element>): Client
  {
    var noted := c.(retractedIds := c.retractedIds + IdsOf(retracted));
    var told := if retracted == [] then noted else Calling(noted, OnE2eeRejected(keyId, retracted));
    if ids != [] && AsSet(ids) <= told.retractedIds then told
    else Calling(told.(stateRefused := true, pending := []), OnUnrecoverable(keyId))
  }

  /** A rejection; when the array walk throws, the handler's catch-all swallows it. */
  function AfterRejection(c: Client, me: string, keyId: nat, ids: seq<string>): Client
    requires AllLive(c.store.doc, c.store.order)
  {
    var scan := Scanned(c.store.doc, c.store.order, AsSet(ids), me);
    ScanPartitions(c.store.doc, c.store.order, AsSet(ids), me);
    if scan.threw then AfterRetraction(c, me, ids)
    else Concluding(AfterRetraction(c, me, ids), keyId, ids, ElementsOf(c.store.doc, scan.removed))
  }

  predicate Deliverable(c: Client, frame: ServerFrame, arranged: seq<OpId>)
  {
    match frame
    case State(x) => Arranges(arranged, Absorb(c.store.doc, x))
    case Fanout(x) => Arranges(arranged, Absorb(c.store.doc, x))
    case _ => true
  }

  function AfterFrame(c: Client, me: string, frame: ServerFrame, arranged: seq<OpId>): Client
    requires AllLive(c.store.doc, c.store.order)
  {
    match frame
    case Ask(v) => if c.stateRefused then c else Sending(c, SendAnswer(Diff(c.store.doc, v)))
    case State(x) =>
      var applied := c.(store := Store(Absorb(c.store.doc, x), arranged));
      if c.synced then applied else Calling(applied.(synced := true), OnSynced)
    case Fanout(x) => c.(store := Store(Absorb(c.store.doc, x), arranged))
    case Rejected(keyId, ids) => AfterRejection(c, me, keyId, ids)
    case RoomEpoch(keyId) => Calling(c, OnRoomEpoch(keyId))
  }

  function AfterTyping(c: Client, clientId: nat, values: seq<Json>): Client
  {
    var after := Appended(c.store, clientId, values);
    var typed := c.(store := after);
    if values == [] then typed else LocallyUpdated(typed, Changes(c.store.doc, after.doc))
  }

  /** One event of the client's life; events that cannot happen in a state leave it alone. */
  function Next(c: Client, me: string, clientId: nat, e: Event): Client
    requires c.store.Ok()
  {
    match e
    case Opened => if c.destroyed || c.status != Connecting then c else AfterOpen(c)
    case Closed(code) => AfterClose(c, code)
    case Retrying => if c.destroyed then c else Calling(c.(status := Connecting), OnStatus(Connecting))
    case Received(frame, arranged) => if Deliverable(c, frame, arranged) then AfterFrame(c, me, frame, arranged) else c
    case Typed(values) => AfterTyping(c, clientId, values)
    case Destroyed => c.(destroyed := true, open := false, pending := [])
  }

  lemma RetractionEffects(c: Client, me: string, ids: seq<string>)
    requires AllLive(c.store.doc, c.store.order)
    ensures var d := AfterRetraction(c, me, ids);
            && d.store == Retracted(c.store, AsSet(ids), me) && d.stateRefused == c.stateRefused
            && (c.stateRefused ==> d.sent == c.sent && d.pending == c.pending)
  {
  }

  /** What handling a rejection does to the document, the queue and the socket. */
  lemma RejectionEffects(c: Client, me: string, keyId: nat, ids: seq<string>)
    requires AllLive(c.store.doc, c.store.order)
    ensures var d := AfterRejection(c, me, keyId, ids);
            && d.store == Retracted(c.store, AsSet(ids), me)
            && (c.stateRefused ==> d.stateRefused && d.sent == c.sent)
            && (d.stateRefused && (c.stateRefused ==> c.pending == []) ==> d.pending == [])
  {
    RetractionEffects(c, me, ids);
  }

  lemma FrameIsOk(c: Client, me: string, frame: ServerFrame, arranged: seq<OpId>)
    requires c.store.Ok() && Deliverable(c, frame, arranged)
    ensures var d := AfterFrame(c, me, frame, arranged); d.store.Ok() && Below(c.store.doc, d.store.doc)
  {
    match frame {
      case Rejected(keyId, ids) =>
        RejectionEffects(c, me, keyId, ids);
        RetractedIsOk(c.store, AsSet(ids), me);
      case State(x) => AbsorbIsDense(c.store.doc, x);
      case Fanout(x) => AbsorbIsDense(c.store.doc, x);
      case _ =>
    }
  }

  lemma FrameWhenRefused(c: Client, me: string, frame: ServerFrame, arranged: seq<OpId>)
    requires AllLive(c.store.doc, c.store.order) && (c.stateRefused ==> c.pending == [])
    ensures var d := AfterFrame(c, me, frame, arranged);
            && (d.stateRefused ==> d.pending == [])
            && (c.stateRefused ==> d.stateRefused && d.sent == c.sent)
  {
    if frame.Rejected? {
      RejectionEffects(c, me, frame.keyId, frame.ids);
    }
  }

  lemma NextIsOk(c: Client, me: string, clientId: nat, e: Event)
    requires c.store.Ok()
    ensures Next(c, me, clientId, e).store.Ok() && Below(c.store.doc, Next(c, me, clientId, e).store.doc)
  {
    match e {
      case Opened => FlushOnOpen(c);
      case Typed(values) => AppendedIsOk(c.store, clientId, values);
      case Received(frame, arranged) =>
        if Deliverable(c, frame, arranged) {
          FrameIsOk(c, me, frame, arranged);
        }
      case _ =>
    }
  }

  /** Flushing only sends. */
  lemma {:induction false} FlushedKeeps(c: Client, updates: seq<Delta>)
    ensures Flushed(c, updates) == c.(sent := Flushed(c, updates).sent)
  {
    if updates != [] {
      FlushedKeeps(c, updates[..|updates| - 1]);
    }
  }

  /** The frames that a queue becomes. */
  function Updates(xs: seq<Delta>): (fs: seq<Outgoing>)
    ensures |fs| == |xs| && forall i | 0 <= i < |xs| :: fs[i] == SendUpdate(xs[i])
  {
    seq(|xs|, i requires 0 <= i < |xs| => SendUpdate(xs[i]))
  }

  /** On an open socket all of them go out, in order. */
  lemma {:induction false} FlushedSends(c: Client, updates: seq<Delta>)
    requires c.open
    ensures Flushed(c, updates).sent == c.sent + Updates(updates) && Flushed(c, updates).open
  {
    if updates != [] {
      FlushedSends(c, updates[..|updates| - 1]);
      assert Updates(updates) == Updates(updates[..|updates| - 1]) + [SendUpdate(updates[|updates| - 1])];
    }
  }

  lemma FlushOnOpen(c: Client)
    ensures AfterOpen(c).store == c.store && AfterOpen(c).pending == []
         && AfterOpen(c).stateRefused == c.stateRefused
  {
    var connected := Calling(c.(retryCount := 0, status := Connected, open := true), OnStatus(Connected));
    FlushedKeeps(Sending(connected, SendVector(Vector(c.store.doc))).(pending := []), c.pending);
  }

  function Run(c: Client, me: string, clientId: nat, es: seq<Event>): Client
    requires c.store.Ok()
    decreases |es|
  {
    if es == [] then c
    else
      NextIsOk(c, me, clientId, es[0]);
      Run(Next(c, me, clientId, es[0]), me, clientId, es[1..])
  }

  predicate PushesState(f: Outgoing) { f.SendAnswer? || f.SendUpdate? }

  /** The frames sent on the way from c to d. */
  predicate Silent(c: Client, d: Client)
  {
    |c.sent| <= |d.sent| && d.sent[..|c.sent|] == c.sent
    && forall i | |c.sent| <= i < |d.sent| :: !PushesState(d.sent[i])
  }

  lemma RefusedStep(c: Client, me: string, clientId: nat, e: Event)
    requires c.store.Ok() && c.stateRefused && c.pending == []
    ensures var d := Next(c, me, clientId, e); d.stateRefused && d.pending == [] && Silent(c, d)
  {
    if e.Opened? && !c.destroyed && c.status == Connecting {
      FlushOnOpen(c);
    }
    if e.Received? {
      FrameWhenRefused(c, me, e.frame, e.arranged);
    }
  }

  /**
   Once the client has given up on its state nothing brings it back: whatever frames, reconnects and
   local changes follow, no step2 or update leaves it and nothing is queued.
   */
  lemma {:induction false} RefusalIsAbsorbing(c: Client, me: string, clientId: nat, es: seq<Event>)
    requires c.store.Ok() && c.stateRefused && c.pending == []
    ensures var d := Run(c, me, clientId, es); d.stateRefused && d.pending == [] && Silent(c, d)
    decreases |es|
  {
    if es != [] {
      var d := Next(c, me, clientId, es[0]);
      RefusedStep(c, me, clientId, es[0]);
      NextIsOk(c, me, clientId, es[0]);
      RefusalIsAbsorbing(d, me, clientId, es[1..]);
      var last := Run(d, me, clientId, es[1..]);
      assert last.sent[..|c.sent|] == d.sent[..|c.sent|];
      forall i | |c.sent| <= i < |last.sent| ensures !PushesState(last.sent[i]) {
        assert i < |d.sent| ==> last.sent[i] == last.sent[..|d.sent|][i];
      }
    }
  }

  /** A client that gives up has dropped its queue, in every run from a fresh one. */
  lemma {:induction false} RefusedHasNoQueue(c: Client, me: string, clientId: nat, es: seq<Event>)
    requires c.store.Ok() && (c.stateRefused ==> c.pending == [])
    ensures var d := Run(c, me, clientId, es); d.stateRefused ==> d.pending == []
    decreases |es|
  {
    if es != [] {
      NextIsOk(c, me, clientId, es[0]);
      if es[0].Opened? {
        FlushOnOpen(c);
      }
      if es[0].Received? {
        FrameWhenRefused(c, me, es[0].frame, es[0].arranged);
      }
      RefusedHasNoQueue(Next(c, me, clientId, es[0]), me, clientId, es[1..]);
    }
  }

  // ---------------------------------------------------------------- the provider object

  class WebSocketProvider {
    const engine: SyncEngine
    var status: Status
    var pendingUpdates: seq<Delta>
    var retractedIds: set<string>
    var stateRefused: bool
    var synced: bool
    var retryCount: nat
    var destroyed: bool
    var open: bool               // the socket's ready state
    var sent: seq<Outgoing>      // what went out on the socket
    var calls: seq<Call>         // the callbacks made

    constructor (engine: SyncEngine)
      requires engine.View().Ok()
      ensures this.engine == engine
      ensures State() == Client(engine.View(), Connecting, [], {}, false, false, 0, false, false, [], [OnStatus(Connecting)])
    {
      this.engine := engine;
      status, pendingUpdates, retractedIds, stateRefused := Connecting, [], {}, false;
      synced, retryCount, destroyed, open := false, 0, false, false;
      sent, calls := [], [OnStatus(Connecting)];
    }

    function State(): Client
      reads this, engine
    {
      Client(engine.View(), status, pendingUpdates, retractedIds, stateRefused, synced, retryCount, destroyed, open,
             sent, calls)
    }

    method Send(frame: Outgoing)
      modifies this
      ensures State() == Sending(old(State()), frame)
    {
      if open {
        sent := sent + [frame];
      }
    }

    method HandleDocUpdate(x: Delta)
      modifies this
      ensures State() == LocallyUpdated(old(State()), x)
      ensures sent == old(sent) + (if !destroyed && !stateRefused && status == Connected && open then [SendUpdate(x)] else [])
      ensures pendingUpdates == old(pendingUpdates) + (if !destroyed && !stateRefused && status != Connected then [x] else [])
    {
      if destroyed || stateRefused {
        return;
      }
      if status == Connected {
        Send(SendUpdate(x));
      } else {
        pendingUpdates := pendingUpdates + [x];
      }
    }

    method Flush()
      modifies this
      ensures State() == Flushed(old(State()).(pending := []), old(pendingUpdates))
      ensures State() == old(State()).(pending := [], sent := sent)
      ensures open ==> sent == old(sent) + Updates(old(pendingUpdates))
    {
      var queue := pendingUpdates;
      pendingUpdates := [];
      ghost var emptied := State();
      for i := 0 to |queue|
        invariant State() == Flushed(emptied, queue[..i])
      {
        Send(SendUpdate(queue[i]));
        assert queue[..i + 1][..i] == queue[..i];
      }
      assert queue[..|queue|] == queue;
      FlushedKeeps(emptied, queue);
      if open { FlushedSends(emptied, queue); }
    }

    method OnOpen()
      requires !destroyed && status == Connecting
      modifies this
      ensures State() == AfterOpen(old(State()))
      ensures open && status == Connected && retryCount == 0 && pendingUpdates == []
      ensures sent == old(sent) + [SendVector(Vector(engine.doc))] + Updates(old(pendingUpdates)) + [SendPresence]
    {
      retryCount := 0;
      open, status := true, Connected;
      calls := calls + [OnStatus(Connected)];
      Send(SendVector(Vector(engine.doc)));
      Flush();
      Send(SendPresence);
    }

    method OnClose(code: int)
      modifies this
      ensures State() == AfterClose(old(State()), code)
      ensures !open && (destroyed ==> calls == old(calls))
      ensures !destroyed ==>
                && status == Disconnected
                && calls == old(calls) + [OnStatus(Disconnected),
                     if 4000 <= code < 4100 then OnAuthError(code) else RetryIn(Min(1000 * Backoff.Pow2(old(retryCount)), 30000))]
                && retryCount == if 4000 <= code < 4100 then old(retryCount) else old(retryCount) + 1
    {
      Backoff.DelaySchedule(0, retryCount);
      open := false;
      if destroyed {
        return;
      }
      status := Disconnected;
      calls := calls + [OnStatus(Disconnected)];
      if IsAuthCloseCode(code) {
        calls := calls + [OnAuthError(code)];
        return;
      }
      calls := calls + [RetryIn(Backoff.Delay(retryCount))];
      retryCount := retryCount + 1;
    }

    method HandleRejected(keyId: nat, ids: seq<string>)
      requires engine.View().Ok()
      modifies this, engine
      ensures State() == AfterRejection(old(State()), engine.userId, keyId, ids)
      ensures engine.View().Ok()
    {
      var before := engine.doc;
      ghost var start := State();
      ScanPartitions(engine.doc, engine.order, AsSet(ids), engine.userId);
      var removed, threw := engine.RetractMessages(AsSet(ids));
      if removed != [] {
        HandleDocUpdate(Delta(map[], Elements(removed)));
      }
      assert State() == AfterRetraction(start, engine.userId, ids);
      if threw {
        return;
      }
      Conclude(keyId, ids, ElementsOf(before, removed));
    }

    method NoteRetracted(retracted: seq<Element>)
      modifies this`retractedIds
      ensures retractedIds == old(retractedIds) + IdsOf(retracted)
    {
      for i := 0 to |retracted|
        invariant retractedIds == old(retractedIds) + IdsOf(retracted[..i])
      {
        assert retracted[..i + 1] == retracted[..i] + [retracted[i]];
        if HasField(retracted[i], "id") {
          retractedIds := retractedIds + {Field(retracted[i], "id")};
        }
      }
      assert retracted[..|retracted|] == retracted;
    }

    method Conclude(keyId: nat, ids: seq<string>, retracted: seq<Element>)
      modifies this
      ensures State() == Concluding(old(State()), keyId, ids, retracted)
    {
      NoteRetracted(retracted);
      var repaired := ids != [] && AsSet(ids) <= retractedIds;
      if retracted != [] {
        calls := calls + [OnE2eeRejected(keyId, retracted)];
      }
      if !repaired {
        stateRefused := true;
        pendingUpdates := [];
        calls := calls + [OnUnrecoverable(keyId)];
      }
    }

    method HandleServerMessage(frame: ServerFrame, arranged: seq<OpId>)
      requires engine.View().Ok() && Deliverable(State(), frame, arranged)
      modifies this, engine
      ensures State() == AfterFrame(old(State()), engine.userId, frame, arranged)
      ensures engine.View().Ok()
    {
      match frame
      case Ask(v) =>
        if !stateRefused {
          Send(SendAnswer(Diff(engine.doc, v)));
        }
      case State(x) =>
        engine.Apply(x, arranged);
        if !synced {
          synced := true;
          calls := calls + [OnSynced];
        }
      case Fanout(x) =>
        engine.Apply(x, arranged);
      case Rejected(keyId, ids) =>
        HandleRejected(keyId, ids);
      case RoomEpoch(keyId) =>
        calls := calls + [OnRoomEpoch(keyId)];
    }

    method Destroy()
      modifies this
      ensures State() == old(State()).(destroyed := true, open := false, pending := [])
    {
      destroyed := true;
      open := false;
      pendingUpdates := [];
    }
  }
}
