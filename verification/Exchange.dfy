/**
 A client and a gated room copy over two first-in first-out channels: the provider's frame handler
 (packages/sync-engine/src/WebSocketProvider.ts:123-213) against the gateway's message handler
 (apps/server/src/sync/sync.gateway.ts:322-409), with any number of updates, answers and asks in flight,
 other members' updates, reconnects, and the backed-off re-ask.  `element` is what each operation holds.
 */
module Exchange {
  import opened JsonText
  import opened Replica
  import opened Engine
  import opened Wire
  import opened Provider
  import opened Repair
  import Throttle

  /** Frames from the client are `client.sent` from `taken` on; frames to it are `down`. */
  datatype World = World(
    client: Client, taken: nat, server: Doc, memory: Throttle.Rejection, down: seq<ServerFrame>, refusals: nat)

  datatype Step =
    | ClientReads(arranged: seq<OpId>)
    | ServerReads(ids: seq<string>, signature: nat, now: nat)   // the order in which a rejection names the ids
    | TimerFires
    | Others(x: Delta)                                          // another client's update, or one from Redis
    | Types(values: seq<Json>)
    | Drops(code: int)
    | Connects

  datatype Setting = Setting(me: string, clientId: nat, keyId: nat)

  function AfterClientReads(w: World, g: Setting, arranged: seq<OpId>): World
    requires w.client.store.Ok()
  {
    if w.down == [] || !Deliverable(w.client, w.down[0], arranged) then w
    else w.(client := AfterFrame(w.client, g.me, w.down[0], arranged), down := w.down[1..])
  }

  predicate TimerPending(m: Throttle.Rejection) { m.Rejection? && m.timer.Due? }

  function Refusing(w: World, g: Setting, ids: seq<string>, signature: nat, now: nat): World
  {
    w.(memory := Throttle.Refused(w.memory, signature, now), refusals := w.refusals + 1,
       down := w.down + [Rejected(g.keyId, ids)]
               + if Throttle.AsksAtOnce(w.memory, signature) then [Ask(Vector(w.server))] else [])
  }

  function OnSync(w: World, g: Setting, x: Delta, ids: seq<string>, signature: nat, now: nat): World
  {
    if CleanDelta(x) then w.(server := Absorb(w.server, x)) else Refusing(w, g, ids, signature, now)
  }

  function AfterServerReads(w: World, g: Setting, ids: seq<string>, signature: nat, now: nat): World
  {
    if w.taken >= |w.client.sent| then w
    else
      var next := w.(taken := w.taken + 1);
      match w.client.sent[w.taken]
      case SendVector(v) => next.(down := next.down + [State(Diff(next.server, v))])
      case SendAnswer(x) => OnSync(next, g, x, ids, signature, now)
      case SendUpdate(x) => OnSync(next, g, x, ids, signature, now)
      case SendPresence => next
  }

  function AfterTimer(w: World): World
  {
    if TimerPending(w.memory)
    then w.(memory := w.memory.(timer := Throttle.Idle), down := w.down + [Ask(Vector(w.server))]) else w
  }

  function AfterOthers(w: World, x: Delta): World
  {
    var news := Changes(w.server, Absorb(w.server, x));
    w.(server := Absorb(w.server, x),
       down := w.down + if w.client.open && !IsEmpty(news) then [Fanout(news)] else [])
  }

  /** Whatever was in flight is lost, and the socket's rejection memory with it. */
  function AfterDrop(w: World, code: int): World
  {
    if !w.client.open then w
    else
      w.(client := AfterClose(w.client, code), taken := |w.client.sent|, memory := Throttle.NoRejection, down := [])
  }

  function AfterConnect(w: World, g: Setting): World
    requires w.client.store.Ok()
  {
    if w.client.open || w.client.destroyed then w
    else
      w.(client := AfterOpen(Calling(w.client.(status := Connecting), OnStatus(Connecting))),
         down := [RoomEpoch(g.keyId), Ask(Vector(w.server)), State(Diff(w.server, map[]))])
  }

  function Next(w: World, g: Setting, e: Step): World
    requires w.client.store.Ok()
  {
    match e
    case ClientReads(arranged) => AfterClientReads(w, g, arranged)
    case ServerReads(ids, signature, now) => AfterServerReads(w, g, ids, signature, now)
    case TimerFires => AfterTimer(w)
    case Others(x) => AfterOthers(w, x)
    case Types(values) => w.(client := AfterTyping(w.client, g.clientId, values))
    case Drops(code) => AfterDrop(w, code)
    case Connects => AfterConnect(w, g)
  }

  lemma NextIsOk(w: World, g: Setting, e: Step)
    requires w.client.store.Ok()
    ensures Next(w, g, e).client.store.Ok()
  {
    match e
    case ClientReads(arranged) =>
      if w.down != [] && Deliverable(w.client, w.down[0], arranged) { FrameIsOk(w.client, g.me, w.down[0], arranged); }
    case Types(values) => AppendedIsOk(w.client.store, g.clientId, values);
    case Connects => FlushOnOpen(Calling(w.client.(status := Connecting), OnStatus(Connecting)));
    case _ =>
  }

  ghost function Run(w: World, g: Setting, es: seq<Step>): (r: World)
    requires w.client.store.Ok()
    ensures r.client.store.Ok()
    decreases |es|
  {
    if es == [] then w
    else
      var front := Run(w, g, es[..|es| - 1]);
      NextIsOk(front, g, es[|es| - 1]);
      Next(front, g, es[|es| - 1])
  }

  // ---------------------------------------------------------------- what may happen

  predicate IsOwn(e: Element, me: string) { HasField(e, "userId") && Field(e, "userId") == me }

  /** Some message of ours has this id. */
  ghost predicate OwnName(element: OpId -> Element, me: string, name: string)
  {
    exists id: OpId :: HasField(element(id), "id") && Field(element(id), "id") == name && IsOwn(element(id), me)
  }

  /** Message ids are unique across users, and no array element is null. */
  ghost predicate Sane(element: OpId -> Element, me: string)
  {
    && (forall id: OpId :: !IsNull(element(id)))
    && (forall id: OpId | HasField(element(id), "id") && !IsOwn(element(id), me) ::
          !OwnName(element, me, Field(element(id), "id")))
  }

  /** The delta of a sync frame. */
  function Carried(f: Outgoing): Delta
  {
    match f
    case SendAnswer(x) => x
    case SendUpdate(x) => x
    case _ => Delta(map[], {})
  }

  /**
   A rejection names exactly the offending ids; operations hold what `element` says; and the client
   types no new plaintext.
   */
  ghost predicate Fair(w: World, g: Setting, element: OpId -> Element, e: Step)
    requires w.client.store.Ok()
  {
    match e
    case ServerReads(ids, _, _) => w.taken < |w.client.sent| ==> AsSet(ids) == Named(Carried(w.client.sent[w.taken]))
    case Others(x) => Honest(x.cells, element)
    case Types(values) =>
      && (forall v | v in values :: CleanElement(Plain(v)))
      && Honest(Appended(w.client.store, g.clientId, values).doc, element)
    case _ => true
  }

  ghost predicate FairRun(w: World, g: Setting, element: OpId -> Element, es: seq<Step>)
    requires w.client.store.Ok()
  {
    forall i | 0 <= i < |es| :: Fair(Run(w, g, es[..i]), g, element, es[i])
  }

  // ---------------------------------------------------------------- how many refusals are still to come

  /** Handling these frames takes this element back. */
  predicate TakenBackBy(frames: seq<ServerFrame>, me: string, e: Element)
  {
    exists f :: f in frames && f.Rejected? && Retracts(e, AsSet(f.ids), me)
  }

  /** A rejection that the client cannot count as repaired. */
  ghost predicate Dooms(element: OpId -> Element, me: string, f: ServerFrame)
  {
    f.Rejected? && (f.ids == [] || exists name :: name in f.ids && !OwnName(element, me, name))
  }

  ghost predicate Doomed(element: OpId -> Element, me: string, refused: bool, frames: seq<ServerFrame>)
  {
    refused || exists f :: f in frames && Dooms(element, me, f)
  }

  /** An offending element that an answer to v will carry once these frames have been handled. */
  predicate Lingers(doc: Doc, frames: seq<ServerFrame>, me: string, v: StateVector, id: OpId)
  {
    && id in doc && doc[id].Live? && !CleanElement(doc[id].element) && !Covers(v, id)
    && !TakenBackBy(frames, me, doc[id].element)
  }

  /**
   How many more answers can be refused on account of an ask for v behind these frames: none if the
   client will have given up or nothing lingers; one if what lingers has no id, for the rejection will
   name nothing; else two.
   */
  ghost function Level(element: OpId -> Element, me: string, doc: Doc, refused: bool,
                       frames: seq<ServerFrame>, v: StateVector): nat
  {
    if Doomed(element, me, refused, frames) || !(exists id :: Lingers(doc, frames, me, v, id)) then 0
    else if forall id | Lingers(doc, frames, me, v, id) :: !HasField(doc[id].element, "id") then 1
    else 2
  }

  /** The same for a frame on its way to the server. */
  function Weight(f: Outgoing): nat
  {
    match f
    case SendAnswer(x) => if CleanDelta(x) then 0 else if Named(x) == {} then 1 else 2
    case SendUpdate(x) => if CleanDelta(x) then 0 else 3
    case _ => 0
  }

  function UpWeight(sent: seq<Outgoing>, from: nat): nat
    decreases |sent| - from
  {
    if from >= |sent| then 0 else Weight(sent[from]) + UpWeight(sent, from + 1)
  }

  function QueueWeight(pending: seq<Delta>): nat
  {
    if pending == [] then 0 else QueueWeight(pending[..|pending| - 1]) + Weight(SendUpdate(pending[|pending| - 1]))
  }

  /** The asks among the first n frames on their way to the client. */
  ghost function AskWeight(element: OpId -> Element, me: string, doc: Doc, refused: bool,
                           down: seq<ServerFrame>, n: nat): nat
    requires n <= |down|
  {
    if n == 0 then 0
    else
      AskWeight(element, me, doc, refused, down, n - 1)
      + if down[n - 1].Ask? then Level(element, me, doc, refused, down[..n - 1], down[n - 1].vector) else 0
  }

  ghost function TimerWeight(w: World, me: string, element: OpId -> Element): nat
  {
    if TimerPending(w.memory)
    then Level(element, me, w.client.store.doc, w.client.stateRefused, w.down, Vector(w.server)) else 0
  }

  /** An upper bound on the refusals that what is in flight, queued or due can still cause. */
  ghost function ToCome(w: World, me: string, element: OpId -> Element): nat
  {
    UpWeight(w.client.sent, w.taken) + QueueWeight(w.client.pending)
    + AskWeight(element, me, w.client.store.doc, w.client.stateRefused, w.down, |w.down|) + TimerWeight(w, me, element)
  }

  // ---------------------------------------------------------------- what every run keeps

  /** An offending element of the client that the server does not hold. */
  predicate Loose(w: World, id: OpId)
  {
    var doc := w.client.store.doc;
    id in doc && doc[id].Live? && !CleanElement(doc[id].element) && id !in w.server
  }

  ghost predicate ClientOk(c: Client, me: string, element: OpId -> Element)
  {
    && c.store.Ok() && Honest(c.store.doc, element) && !c.destroyed
    && (c.open <==> c.status == Connected) && (c.stateRefused ==> c.pending == [])
    && (forall name | name in c.retractedIds :: OwnName(element, me, name))
    && (forall x | x in c.pending :: Honest(x.cells, element))
  }

  /** A frame to the client brings only what the server holds. */
  ghost predicate FrameOk(f: ServerFrame, server: Doc, element: OpId -> Element)
  {
    match f
    case State(x) => Honest(x.cells, element) && x.cells.Keys <= server.Keys
    case Fanout(x) => Honest(x.cells, element) && x.cells.Keys <= server.Keys
    case Ask(v) => forall id | Covers(v, id) :: id in server
    case _ => true
  }

  predicate Brings(f: ServerFrame, id: OpId)
  {
    (f.State? && id in f.state.cells) || (f.Fanout? && id in f.delta.cells)
  }

  /** What the frames before an ask bring, its vector covers. */
  ghost predicate AskOk(down: seq<ServerFrame>, k: nat)
    requires k < |down|
  {
    down[k].Ask? ==> forall f, id | f in down[..k] && Brings(f, id) :: Covers(down[k].vector, id)
  }

  /** A frame on its way to the server; a refused answer will name everything that is loose. */
  ghost predicate SentOk(w: World, f: Outgoing, element: OpId -> Element)
  {
    && Honest(Carried(f).cells, element)
    && (f.SendAnswer? && !CleanDelta(f.x) ==> forall id | Loose(w, id) :: id in f.x.cells && f.x.cells[id].Live?)
  }

  /** Something is on its way that will make the client's state be asked for, or refused. */
  predicate InFlight(w: World)
  {
    || (exists f :: f in w.down && f.Ask?) || TimerPending(w.memory)
    || (exists i :: w.taken <= i < |w.client.sent| && Weight(w.client.sent[i]) > 0)
  }

  ghost predicate Inv(w: World, me: string, element: OpId -> Element)
  {
    && ClientOk(w.client, me, element) && Dense(w.server) && Honest(w.server, element)
    && w.taken <= |w.client.sent|
    && (!w.client.open ==> w.down == [] && w.taken == |w.client.sent| && w.memory.NoRejection?)
    && (forall f | f in w.down :: FrameOk(f, w.server, element))
    && (forall k: nat | k < |w.down| :: AskOk(w.down, k))
    && (forall i | w.taken <= i < |w.client.sent| :: SentOk(w, w.client.sent[i], element))
    && (w.client.open && !w.client.stateRefused && (exists id :: Loose(w, id)) ==> InFlight(w))
  }
}
