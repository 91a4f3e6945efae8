/** The main results about module Exchange: its runs refuse boundedly often, and end repaired or given up. */
module ExchangeRuns {
  import opened JsonText
  import opened Replica
  import opened Engine
  import opened Wire
  import opened Provider
  import opened Repair
  import Throttle
  import opened Exchange
  import opened ExchangeBound

  // ---------------------------------------------------------------- the client handles a frame

  /** Nothing was sent but, perhaps, the retraction's own update, which carries no structs. */
  predicate Quietly(sent: seq<Outgoing>, sent': seq<Outgoing>)
  {
    || sent' == sent
    || (|sent'| == |sent| + 1 && sent <= sent' && sent'[|sent|].SendUpdate? && sent'[|sent|].x.cells == map[])
  }

  ghost predicate Handles(c: Client, d: Client, me: string, element: OpId -> Element, f: ServerFrame)
  {
    && ClientOk(d, me, element) && d.open
    && Passes(element, me, f, c.store.doc, c.stateRefused, d.store.doc, d.stateRefused)
    && (d.pending == c.pending || d.pending == [])
    && if f.Ask? && !c.stateRefused
       then d.sent == c.sent + [SendAnswer(Diff(c.store.doc, f.vector))] && d.store == c.store && !d.stateRefused
       else Quietly(c.sent, d.sent)
  }

  lemma BringingHandles(c: Client, me: string, element: OpId -> Element, server: Doc, f: ServerFrame, arranged: seq<OpId>)
    requires ClientOk(c, me, element) && c.open && (f.State? || f.Fanout?) && FrameOk(f, server, element)
    requires Deliverable(c, f, arranged)
    ensures Handles(c, AfterFrame(c, me, f, arranged), me, element, f)
  {
    var x := if f.State? then f.state else f.delta;
    FrameIsOk(c, me, f, arranged);
    AbsorbIsHonest(c.store.doc, x, element);
    assert AfterFrame(c, me, f, arranged).store.doc == Absorb(c.store.doc, x);
  }

  lemma RetractionSends(c: Client, me: string, ids: seq<string>)
    requires c.store.Ok() && c.open && c.status == Connected
    ensures var d := AfterRetraction(c, me, ids);
            && d.open && d.status == c.status && d.destroyed == c.destroyed && Quietly(c.sent, d.sent)
            && d.pending == c.pending && d.stateRefused == c.stateRefused
  {}

  lemma ConclusionSends(c: Client, keyId: nat, ids: seq<string>, retracted: seq<Element>)
    ensures var d := Concluding(c, keyId, ids, retracted);
            && d.open == c.open && d.status == c.status && d.destroyed == c.destroyed && d.sent == c.sent
            && (d.pending == [] || (d.pending == c.pending && d.stateRefused == c.stateRefused))
  {}

  lemma RejectionSends(c: Client, me: string, keyId: nat, ids: seq<string>)
    requires c.store.Ok() && c.open && c.status == Connected
    ensures var d := AfterRejection(c, me, keyId, ids);
            && d.open && d.status == c.status && d.destroyed == c.destroyed && Quietly(c.sent, d.sent)
            && (d.pending == [] || (d.pending == c.pending && d.stateRefused == c.stateRefused))
  {
    RetractionSends(c, me, ids);
    var scan := Scanned(c.store.doc, c.store.order, AsSet(ids), me);
    ScanPartitions(c.store.doc, c.store.order, AsSet(ids), me);
    if !scan.threw {
      ConclusionSends(AfterRetraction(c, me, ids), keyId, ids, ElementsOf(c.store.doc, scan.removed));
    }
  }

  lemma RejectionHandles(c: Client, me: string, element: OpId -> Element, keyId: nat, ids: seq<string>)
    requires ClientOk(c, me, element) && c.open && Sane(element, me)
    ensures Handles(c, AfterRejection(c, me, keyId, ids), me, element, Rejected(keyId, ids))
  {
    var d := AfterRejection(c, me, keyId, ids);
    var wanted := AsSet(ids);
    var removed := Scanned(c.store.doc, c.store.order, wanted, me).removed;
    RejectionIs(c, me, keyId, ids);
    RejectionSends(c, me, keyId, ids);
    RetractedIsOk(c.store, wanted, me);
    RetractIsScan(c.store, wanted, me);
    NeverNull(c.store, element, me);
    RemovedAreOwn(c.store, wanted, me, element);
    forall id | id in d.store.doc && d.store.doc[id].Live?
      ensures id in c.store.doc && c.store.doc[id] == d.store.doc[id] && !Retracts(c.store.doc[id].element, wanted, me)
    {
      WalkedWithoutNull(c.store, id);
    }
    if Dooms(element, me, Rejected(keyId, ids)) && ids != [] {
      var name :| name in ids && !OwnName(element, me, name);
      assert name in wanted && name !in d.retractedIds;
    }
  }

  lemma NeverNull(s: Store, element: OpId -> Element, me: string)
    requires s.Ok() && Honest(s.doc, element) && Sane(element, me)
    ensures !HasNull(s)
  {}

  lemma RemovedAreOwn(s: Store, wanted: set<string>, me: string, element: OpId -> Element)
    requires s.Ok() && Honest(s.doc, element)
    ensures var removed := Scanned(s.doc, s.order, wanted, me).removed;
            AllLive(s.doc, removed) && forall name | name in IdsOf(ElementsOf(s.doc, removed)) :: OwnName(element, me, name)
  {
    var removed := Scanned(s.doc, s.order, wanted, me).removed;
    ScanPartitions(s.doc, s.order, wanted, me);
    var es := ElementsOf(s.doc, removed);
    forall name | name in IdsOf(es) ensures OwnName(element, me, name) {
      var e :| e in es && HasField(e, "id") && Field(e, "id") == name;
      var i :| 0 <= i < |es| && es[i] == e;
      assert removed[i] in removed && element(removed[i]) == e;
    }
  }

  lemma FrameHandles(c: Client, me: string, element: OpId -> Element, server: Doc, f: ServerFrame, arranged: seq<OpId>)
    requires ClientOk(c, me, element) && c.open && FrameOk(f, server, element) && Sane(element, me)
    requires Deliverable(c, f, arranged)
    ensures Handles(c, AfterFrame(c, me, f, arranged), me, element, f)
  {
    match f
    case Ask(v) =>
    case State(x) => BringingHandles(c, me, element, server, f, arranged);
    case Fanout(x) => BringingHandles(c, me, element, server, f, arranged);
    case Rejected(keyId, ids) => RejectionHandles(c, me, element, keyId, ids);
    case RoomEpoch(keyId) =>
  }

  // ---------------------------------------------------------------- one step at a time

  /** The step keeps the invariant and, but for `slack`, the sum of refusals had and to come. */
  ghost predicate Keeps(w: World, w': World, me: string, element: OpId -> Element, slack: nat)
  {
    Inv(w', me, element) && w'.refusals + ToCome(w', me, element) <= w.refusals + ToCome(w, me, element) + slack
  }

  lemma QueueShrinks(c: Client, d: Client)
    requires d.pending == c.pending || d.pending == []
    ensures QueueWeight(d.pending) <= QueueWeight(c.pending)
  {}

  lemma QuietWeight(sent: seq<Outgoing>, sent': seq<Outgoing>, from: nat)
    requires Quietly(sent, sent') && from <= |sent|
    ensures UpWeight(sent', from) == UpWeight(sent, from)
  {
    if sent' != sent {
      assert sent' == sent + [sent'[|sent|]];
      UpSnoc(sent, from, sent'[|sent|]);
    }
  }

  /** The weights after the client has handled the oldest frame. */
  lemma ReadingWeighs(w: World, d: Client, g: Setting, element: OpId -> Element)
    requires Inv(w, g.me, element) && w.down != [] && w.client.open
    requires Handles(w.client, d, g.me, element, w.down[0])
    ensures var w' := w.(client := d, down := w.down[1..]); ToCome(w', g.me, element) <= ToCome(w, g.me, element)
  {
    var c, f, rest := w.client, w.down[0], w.down[1..];
    var doc, doc' := c.store.doc, d.store.doc;
    QueueShrinks(c, d);
    PassAsks(element, g.me, doc, c.stateRefused, doc', d.stateRefused, w.down, |rest|);
    assert f in w.down && [f] + rest == w.down;
    forall id | Brings(f, id) ensures Covers(Vector(w.server), id) { VectorCoversExactly(w.server, id); }
    PassLevel(element, g.me, f, doc, c.stateRefused, doc', d.stateRefused, rest, Vector(w.server));
    if f.Ask? && !c.stateRefused {
      UpSnoc(c.sent, w.taken, SendAnswer(Diff(doc, f.vector)));
      AnswerWeight(element, g.me, doc, f.vector);
    } else {
      QuietWeight(c.sent, d.sent, w.taken);
    }
  }

  /** What was loose before the client read the frame covers what is loose after. */
  lemma LooseShrinks(w: World, w': World, me: string, element: OpId -> Element, f: ServerFrame)
    requires w'.server == w.server && FrameOk(f, w.server, element)
    requires Passes(element, me, f, w.client.store.doc, w.client.stateRefused, w'.client.store.doc, w'.client.stateRefused)
    ensures forall id | Loose(w', id) :: Loose(w, id)
  {}

  lemma ReadingKeepsFrames(down: seq<ServerFrame>, server: Doc, element: OpId -> Element)
    requires down != [] && (forall f | f in down :: FrameOk(f, server, element))
    requires forall k: nat | k < |down| :: AskOk(down, k)
    ensures (forall f | f in down[1..] :: FrameOk(f, server, element))
    ensures forall k: nat | k < |down[1..]| :: AskOk(down[1..], k)
  {
    forall k: nat | k < |down[1..]| ensures AskOk(down[1..], k) {
      assert AskOk(down, k + 1);
      forall f | f in down[1..][..k] ensures f in down[..k + 1] {
        var i :| 0 <= i < k && down[1..][i] == f;
        assert down[..k + 1][i + 1] == f;
      }
    }
  }

  lemma ReadingKeepsSent(w: World, d: Client, g: Setting, element: OpId -> Element)
    requires Inv(w, g.me, element) && w.down != [] && w.client.open
    requires Handles(w.client, d, g.me, element, w.down[0])
    ensures var w' := w.(client := d, down := w.down[1..]);
            w'.taken <= |d.sent| && forall i | w.taken <= i < |d.sent| :: SentOk(w', d.sent[i], element)
  {
    var w' := w.(client := d, down := w.down[1..]);
    var f := w.down[0];
    assert f in w.down;
    LooseShrinks(w, w', g.me, element, f);
    forall i | w.taken <= i < |d.sent| ensures SentOk(w', d.sent[i], element) {
      if i < |w.client.sent| { assert d.sent[i] == w.client.sent[i]; }
    }
  }

  /** The answer to an ask weighs if anything is loose. */
  lemma LooseAnswerWeighs(w: World, v: StateVector, id: OpId)
    requires Loose(w, id) && forall k | Covers(v, k) :: k in w.server
    ensures Weight(SendAnswer(Diff(w.client.store.doc, v))) > 0
  {
    assert id in Diff(w.client.store.doc, v).cells;
  }

  lemma ReadingKeepsFlight(w: World, d: Client, g: Setting, element: OpId -> Element)
    requires Inv(w, g.me, element) && w.down != [] && w.client.open
    requires Handles(w.client, d, g.me, element, w.down[0])
    ensures var w' := w.(client := d, down := w.down[1..]);
            !d.stateRefused && (exists id :: Loose(w', id)) ==> InFlight(w')
  {
    var w' := w.(client := d, down := w.down[1..]);
    var f := w.down[0];
    assert f in w.down && w.down == [f] + w.down[1..];
    LooseShrinks(w, w', g.me, element, f);
    if !d.stateRefused && exists id :: Loose(w', id) {
      var id :| Loose(w', id);
      assert Loose(w, id) && InFlight(w);
      if f.Ask? {
        LooseAnswerWeighs(w, f.vector, id);
        assert Weight(d.sent[|d.sent| - 1]) > 0;
      } else if i :| w.taken <= i < |w.client.sent| && Weight(w.client.sent[i]) > 0 {
        assert d.sent[i] == w.client.sent[i];
      }
    }
  }

  lemma ReadingKeeps(w: World, g: Setting, element: OpId -> Element, arranged: seq<OpId>)
    requires Inv(w, g.me, element) && Sane(element, g.me)
    ensures Keeps(w, AfterClientReads(w, g, arranged), g.me, element, 0)
  {
    if w.down != [] && Deliverable(w.client, w.down[0], arranged) {
      assert w.down[0] in w.down && w.client.open;
      var d := AfterFrame(w.client, g.me, w.down[0], arranged);
      FrameHandles(w.client, g.me, element, w.server, w.down[0], arranged);
      ReadingKeepsFrames(w.down, w.server, element);
      ReadingKeepsSent(w, d, g, element);
      ReadingKeepsFlight(w, d, g, element);
      ReadingWeighs(w, d, g, element);
    }
  }

  // ---------------------------------------------------------------- the server's steps

  /** One more frame to the client. */
  lemma FramesSnoc(down: seq<ServerFrame>, f: ServerFrame, server: Doc, element: OpId -> Element)
    requires (forall h | h in down :: FrameOk(h, server, element)) && FrameOk(f, server, element)
    requires forall k: nat | k < |down| :: AskOk(down, k)
    requires f.Ask? ==> f.vector == Vector(server) && Dense(server)
    ensures (forall h | h in down + [f] :: FrameOk(h, server, element))
    ensures forall k: nat | k < |down + [f]| :: AskOk(down + [f], k)
  {
    forall k: nat | k < |down + [f]| ensures AskOk(down + [f], k) {
      if k < |down| {
        assert AskOk(down, k) && (down + [f])[..k] == down[..k];
      } else {
        assert (down + [f])[..k] == down;
        forall h, id | h in down && Brings(h, id) ensures Covers(Vector(server), id) || !f.Ask? {
          if f.Ask? { VectorCoversExactly(server, id); }
        }
      }
    }
  }

  lemma AskIsOk(server: Doc, element: OpId -> Element)
    requires Dense(server)
    ensures FrameOk(Ask(Vector(server)), server, element)
  {
    forall id | Covers(Vector(server), id) ensures id in server { VectorCoversExactly(server, id); }
  }

  lemma FramesGrow(down: seq<ServerFrame>, server: Doc, server': Doc, element: OpId -> Element)
    requires (forall h | h in down :: FrameOk(h, server, element)) && server.Keys <= server'.Keys
    ensures forall h | h in down :: FrameOk(h, server', element)
  {
    forall h | h in down ensures FrameOk(h, server', element) { assert FrameOk(h, server, element); }
  }

  /** A frame leaves the channel to the server. */
  lemma Taking(w: World, g: Setting, element: OpId -> Element)
    requires Inv(w, g.me, element) && w.taken < |w.client.sent|
    ensures SentOk(w, w.client.sent[w.taken], element)
    ensures var next := w.(taken := w.taken + 1);
            && ToCome(next, g.me, element) + Weight(w.client.sent[w.taken]) == ToCome(w, g.me, element)
            && (Weight(w.client.sent[w.taken]) == 0 ==> Inv(next, g.me, element))
  {
    var next := w.(taken := w.taken + 1);
    assert forall id :: Loose(next, id) <==> Loose(w, id);
    forall i | next.taken <= i < |w.client.sent| ensures SentOk(next, w.client.sent[i], element) {
      assert SentOk(w, w.client.sent[i], element);
    }
    if Weight(w.client.sent[w.taken]) == 0 && InFlight(w) {
      if i :| w.taken <= i < |w.client.sent| && Weight(w.client.sent[i]) > 0 { assert i != w.taken; }
      assert InFlight(next);
    }
  }

  /** A frame that is neither an ask nor an effect on asks: only the client has to read it. */
  lemma SendingKeeps(w: World, g: Setting, element: OpId -> Element, f: ServerFrame)
    requires Inv(w, g.me, element) && w.client.open && !f.Ask? && FrameOk(f, w.server, element)
    ensures Keeps(w, w.(down := w.down + [f]), g.me, element, 0)
  {
    var w' := w.(down := w.down + [f]);
    var doc, refused := w.client.store.doc, w.client.stateRefused;
    FramesSnoc(w.down, f, w.server, element);
    AsksSnoc(element, g.me, doc, refused, w.down, f);
    assert forall h :: h in w.down ==> h in w.down + [f];
    LevelFalls(element, g.me, doc, refused, w.down, Vector(w.server), doc, refused, w.down + [f], Vector(w.server));
    assert forall id :: Loose(w', id) <==> Loose(w, id);
    SentStays(w, w', element);
  }

  /** Frames stay fit to be refused as long as nothing becomes loose. */
  lemma SentStays(w: World, w': World, element: OpId -> Element)
    requires w'.client.sent == w.client.sent && w'.taken >= w.taken
    requires forall i | w.taken <= i < |w.client.sent| :: SentOk(w, w.client.sent[i], element)
    requires forall id | Loose(w', id) :: Loose(w, id)
    ensures forall i | w'.taken <= i < |w'.client.sent| :: SentOk(w', w'.client.sent[i], element)
  {
    forall i | w'.taken <= i < |w'.client.sent| ensures SentOk(w', w'.client.sent[i], element) {
      assert SentOk(w, w.client.sent[i], element);
    }
  }

  /** The server learns something: nothing gets looser or heavier. */
  lemma LearningKeeps(w: World, g: Setting, element: OpId -> Element, x: Delta)
    requires Inv(w, g.me, element) && Honest(x.cells, element)
    ensures Keeps(w, w.(server := Absorb(w.server, x)), g.me, element, 0)
  {
    var w' := w.(server := Absorb(w.server, x));
    var doc, refused := w.client.store.doc, w.client.stateRefused;
    AbsorbIsDense(w.server, x);
    AbsorbIsHonest(w.server, x, element);
    FramesGrow(w.down, w.server, w'.server, element);
    assert forall id | Loose(w', id) :: Loose(w, id);
    SentStays(w, w', element);
    forall id | Covers(Vector(w.server), id) ensures Covers(Vector(w'.server), id) {
      VectorCoversExactly(w.server, id);
      VectorCoversExactly(w'.server, id);
    }
    LevelFalls(element, g.me, doc, refused, w.down, Vector(w.server), doc, refused, w.down, Vector(w'.server));
    assert InFlight(w) ==> InFlight(w');
  }

  /** An ask for the copy's own vector, behind everything on its way. */
  lemma AskingKeeps(w: World, g: Setting, element: OpId -> Element)
    requires Inv(w, g.me, element) && w.client.open
    ensures var w' := w.(down := w.down + [Ask(Vector(w.server))]);
            && Inv(w', g.me, element) && InFlight(w')
            && AskWeight(element, g.me, w.client.store.doc, w.client.stateRefused, w'.down, |w'.down|)
               == AskWeight(element, g.me, w.client.store.doc, w.client.stateRefused, w.down, |w.down|)
                  + Level(element, g.me, w.client.store.doc, w.client.stateRefused, w.down, Vector(w.server))
  {
    var f := Ask(Vector(w.server));
    var w' := w.(down := w.down + [f]);
    AskIsOk(w.server, element);
    FramesSnoc(w.down, f, w.server, element);
    AsksSnoc(element, g.me, w.client.store.doc, w.client.stateRefused, w.down, f);
    assert forall id :: Loose(w', id) <==> Loose(w, id);
    SentStays(w, w', element);
    assert f in w'.down;
  }

  /** A heavy frame leaves the channel while an ask, or the timer for one, is on its way. */
  lemma TakingWhileAsked(w: World, w': World, g: Setting, element: OpId -> Element)
    requires Inv(w, g.me, element) && w.taken < |w.client.sent| && w.client.open
    requires w' == w.(taken := w.taken + 1, memory := w'.memory, refusals := w'.refusals)
    requires (exists f :: f in w.down && f.Ask?) || TimerPending(w'.memory)
    ensures Inv(w', g.me, element)
  {
    assert forall id :: Loose(w', id) <==> Loose(w, id);
    SentStays(w, w', element);
  }

  lemma RefusalLevel(w: World, g: Setting, element: OpId -> Element, ids: seq<string>)
    requires Inv(w, g.me, element) && Sane(element, g.me) && w.taken < |w.client.sent|
    requires var f := w.client.sent[w.taken];
             (f.SendAnswer? || f.SendUpdate?) && !CleanDelta(f.x) && AsSet(ids) == Named(f.x)
    ensures Level(element, g.me, w.client.store.doc, w.client.stateRefused,
                  w.down + [Rejected(g.keyId, ids)], Vector(w.server)) < Weight(w.client.sent[w.taken])
  {
    var f := w.client.sent[w.taken];
    if f.SendAnswer? {
      assert SentOk(w, f, element);
      RefusedAnswerWeighs(w, g, element, f.x, ids);
    }
  }

  /** A refusal weighs less than the frame it refuses, even with the ask that follows it. */
  lemma RefusalTells(w: World, g: Setting, element: OpId -> Element, ids: seq<string>)
    requires Inv(w, g.me, element) && Sane(element, g.me) && w.taken < |w.client.sent|
    requires var f := w.client.sent[w.taken];
             (f.SendAnswer? || f.SendUpdate?) && !CleanDelta(f.x) && AsSet(ids) == Named(f.x)
    ensures var told := w.(taken := w.taken + 1, down := w.down + [Rejected(g.keyId, ids)]);
            ToCome(told, g.me, element) + 1
            + Level(element, g.me, w.client.store.doc, w.client.stateRefused, told.down, Vector(w.server))
            <= ToCome(w, g.me, element)
    ensures Inv(w.(down := w.down + [Rejected(g.keyId, ids)]), g.me, element)
  {
    RefusalLevel(w, g, element, ids);
    SendingKeeps(w, g, element, Rejected(g.keyId, ids));
    Taking(w, g, element);
  }

  lemma RefusingKeeps(w: World, g: Setting, element: OpId -> Element, ids: seq<string>, signature: nat, now: nat)
    requires Inv(w, g.me, element) && Sane(element, g.me) && w.taken < |w.client.sent|
    requires var f := w.client.sent[w.taken];
             (f.SendAnswer? || f.SendUpdate?) && !CleanDelta(f.x) && AsSet(ids) == Named(f.x)
    ensures Keeps(w, Refusing(w.(taken := w.taken + 1), g, ids, signature, now), g.me, element, 0)
  {
    var told := w.(down := w.down + [Rejected(g.keyId, ids)]);
    var w' := Refusing(w.(taken := w.taken + 1), g, ids, signature, now);
    RefusalTells(w, g, element, ids);
    if Throttle.AsksAtOnce(w.memory, signature) {
      AskingKeeps(told, g, element);
      var asked := told.(down := told.down + [Ask(Vector(w.server))]);
      assert asked.down == w.down + [Rejected(g.keyId, ids)] + [Ask(Vector(w.server))] == w'.down;
      assert Ask(Vector(w.server)) in asked.down;
      TakingWhileAsked(asked, w', g, element);
    } else {
      assert w'.down == told.down;
      TakingWhileAsked(told, w', g, element);
    }
  }

  lemma SyncKeeps(w: World, g: Setting, element: OpId -> Element, x: Delta, ids: seq<string>, signature: nat, now: nat)
    requires Inv(w, g.me, element) && Sane(element, g.me) && w.taken < |w.client.sent|
    requires w.client.sent[w.taken] == SendAnswer(x) || w.client.sent[w.taken] == SendUpdate(x)
    requires AsSet(ids) == Named(x)
    ensures Keeps(w, OnSync(w.(taken := w.taken + 1), g, x, ids, signature, now), g.me, element, 0)
  {
    if CleanDelta(x) {
      Taking(w, g, element);
      LearningKeeps(w.(taken := w.taken + 1), g, element, x);
    } else {
      RefusingKeeps(w, g, element, ids, signature, now);
    }
  }

  lemma AskedForState(w: World, g: Setting, element: OpId -> Element, v: StateVector)
    requires Inv(w, g.me, element) && w.taken < |w.client.sent| && w.client.sent[w.taken] == SendVector(v)
    ensures Keeps(w, w.(taken := w.taken + 1, down := w.down + [State(Diff(w.server, v))]), g.me, element, 0)
  {
    Taking(w, g, element);
    assert FrameOk(State(Diff(w.server, v)), w.server, element);
    SendingKeeps(w.(taken := w.taken + 1), g, element, State(Diff(w.server, v)));
  }

  lemma PresenceKeeps(w: World, g: Setting, element: OpId -> Element)
    requires Inv(w, g.me, element) && w.taken < |w.client.sent| && w.client.sent[w.taken].SendPresence?
    ensures Keeps(w, w.(taken := w.taken + 1), g.me, element, 0)
  {
    Taking(w, g, element);
  }

  lemma ServerReadingKeeps(w: World, g: Setting, element: OpId -> Element, ids: seq<string>, signature: nat, now: nat)
    requires Inv(w, g.me, element) && Sane(element, g.me)
    requires w.taken < |w.client.sent| ==> AsSet(ids) == Named(Carried(w.client.sent[w.taken]))
    ensures Keeps(w, AfterServerReads(w, g, ids, signature, now), g.me, element, 0)
  {
    if w.taken < |w.client.sent| {
      var f := w.client.sent[w.taken];
      ReadingIs(w, g, ids, signature, now);
      match f
      case SendVector(v) => AskedForState(w, g, element, v);
      case SendPresence => PresenceKeeps(w, g, element);
      case _ => SyncKeeps(w, g, element, Carried(f), ids, signature, now);
    }
  }

  lemma ReadingIs(w: World, g: Setting, ids: seq<string>, signature: nat, now: nat)
    requires w.taken < |w.client.sent|
    ensures AfterServerReads(w, g, ids, signature, now)
            == match w.client.sent[w.taken]
               case SendVector(v) => w.(taken := w.taken + 1, down := w.down + [State(Diff(w.server, v))])
               case SendPresence => w.(taken := w.taken + 1)
               case _ => OnSync(w.(taken := w.taken + 1), g, Carried(w.client.sent[w.taken]), ids, signature, now)
  {}

  lemma TimerKeeps(w: World, g: Setting, element: OpId -> Element)
    requires Inv(w, g.me, element)
    ensures Keeps(w, AfterTimer(w), g.me, element, 0)
  {
    if TimerPending(w.memory) {
      AskingKeeps(w, g, element);
      var asked := w.(down := w.down + [Ask(Vector(w.server))]);
      var w' := AfterTimer(w);
      assert forall id :: Loose(w', id) <==> Loose(asked, id);
      SentStays(asked, w', element);
      assert Ask(Vector(w.server)) in w'.down;
    }
  }

  lemma OthersKeep(w: World, g: Setting, element: OpId -> Element, x: Delta)
    requires Inv(w, g.me, element) && Honest(x.cells, element)
    ensures Keeps(w, AfterOthers(w, x), g.me, element, 0)
  {
    var learned := w.(server := Absorb(w.server, x));
    var news := Changes(w.server, learned.server);
    LearningKeeps(w, g, element, x);
    AbsorbIsHonest(w.server, x, element);
    if w.client.open && !IsEmpty(news) {
      SendingKeeps(learned, g, element, Fanout(news));
    } else {
      assert w.down + [] == w.down;
    }
  }

  // ---------------------------------------------------------------- typing, dropping, connecting

  lemma {:induction false} AppendedIsClean(s: Store, clientId: nat, values: seq<Json>)
    requires forall v | v in values :: CleanElement(Plain(v))
    ensures var after := Appended(s, clientId, values);
            forall id | id in after.doc && id !in s.doc :: CleanCell(after.doc[id])
  {
    if values != [] {
      AppendedIsClean(s, clientId, values[..|values| - 1]);
      assert values[|values| - 1] in values;
    }
  }

  lemma TypingIs(c: Client, clientId: nat, values: seq<Json>)
    requires c.store.Ok()
    ensures var d := AfterTyping(c, clientId, values);
            var x := Changes(c.store.doc, d.store.doc);
            && d.store == Appended(c.store, clientId, values) && d.stateRefused == c.stateRefused && d.open == c.open
            && d.status == c.status && d.destroyed == c.destroyed && d.retractedIds == c.retractedIds
            && (d.sent == c.sent || (c.open && d.sent == c.sent + [SendUpdate(x)]))
            && (d.pending == c.pending || (!c.stateRefused && d.pending == c.pending + [x]))
  {}

  lemma TypingWeighs(w: World, d: Client, g: Setting, element: OpId -> Element, x: Delta)
    requires Inv(w, g.me, element) && CleanDelta(x) && NoWorse(w.client.store.doc, d.store.doc)
    requires d.stateRefused == w.client.stateRefused
    requires d.sent == w.client.sent || d.sent == w.client.sent + [SendUpdate(x)]
    requires d.pending == w.client.pending || d.pending == w.client.pending + [x]
    ensures ToCome(w.(client := d), g.me, element) <= ToCome(w, g.me, element)
  {
    var c := w.client;
    AsksFall(element, g.me, c.store.doc, d.store.doc, c.stateRefused, w.down, |w.down|);
    LevelFalls(element, g.me, c.store.doc, c.stateRefused, w.down, Vector(w.server),
               d.store.doc, d.stateRefused, w.down, Vector(w.server));
    UpSnoc(c.sent, w.taken, SendUpdate(x));
    assert (c.pending + [x])[..|c.pending|] == c.pending;
  }

  lemma TypingSends(w: World, d: Client, g: Setting, element: OpId -> Element, x: Delta)
    requires Inv(w, g.me, element) && Honest(x.cells, element)
    requires d.sent == w.client.sent || d.sent == w.client.sent + [SendUpdate(x)]
    requires forall id | Loose(w.(client := d), id) :: Loose(w, id)
    ensures forall i | w.taken <= i < |d.sent| :: SentOk(w.(client := d), d.sent[i], element)
    ensures InFlight(w) ==> InFlight(w.(client := d))
  {
    var c, w' := w.client, w.(client := d);
    forall i | w'.taken <= i < |d.sent| ensures SentOk(w', d.sent[i], element) {
      if i < |c.sent| { assert SentOk(w, c.sent[i], element) && d.sent[i] == c.sent[i]; }
    }
    if InFlight(w) {
      if i :| w.taken <= i < |c.sent| && Weight(c.sent[i]) > 0 { assert d.sent[i] == c.sent[i]; }
      assert InFlight(w');
    }
  }

  lemma TypingIsOk(c: Client, me: string, clientId: nat, element: OpId -> Element, values: seq<Json>)
    requires ClientOk(c, me, element) && (forall v | v in values :: CleanElement(Plain(v)))
    requires Honest(Appended(c.store, clientId, values).doc, element)
    ensures var d := AfterTyping(c, clientId, values);
            && ClientOk(d, me, element) && d.open == c.open && NoWorse(c.store.doc, d.store.doc)
            && CleanDelta(Changes(c.store.doc, d.store.doc)) && Honest(Changes(c.store.doc, d.store.doc).cells, element)
            && forall id | id in d.store.doc && id !in c.store.doc :: CleanCell(d.store.doc[id])
  {
    TypingIs(c, clientId, values);
    AppendedIsOk(c.store, clientId, values);
    AppendedIsClean(c.store, clientId, values);
  }

  lemma TypingKeeps(w: World, g: Setting, element: OpId -> Element, values: seq<Json>)
    requires Inv(w, g.me, element) && forall v | v in values :: CleanElement(Plain(v))
    requires Honest(Appended(w.client.store, g.clientId, values).doc, element)
    ensures Keeps(w, w.(client := AfterTyping(w.client, g.clientId, values)), g.me, element, 0)
  {
    var c, d := w.client, AfterTyping(w.client, g.clientId, values);
    var x := Changes(c.store.doc, d.store.doc);
    TypingIs(c, g.clientId, values);
    TypingIsOk(c, g.me, g.clientId, element, values);
    TypingWeighs(w, d, g, element, x);
    TypingLoosens(w, d);
    TypingSends(w, d, g, element, x);
  }

  lemma TypingLoosens(w: World, d: Client)
    requires NoWorse(w.client.store.doc, d.store.doc)
    requires forall id | id in d.store.doc && id !in w.client.store.doc :: CleanCell(d.store.doc[id])
    ensures forall id | Loose(w.(client := d), id) :: Loose(w, id)
  {}

  lemma DroppingKeeps(w: World, g: Setting, element: OpId -> Element, code: int)
    requires Inv(w, g.me, element)
    ensures Keeps(w, AfterDrop(w, code), g.me, element, 0)
  {}

  /** What the client has sent once it is connected. */
  lemma OpeningIs(c: Client, from: nat)
    requires !c.destroyed && from == |c.sent|
    ensures var d := AfterOpen(c);
            && d.store == c.store && d.stateRefused == c.stateRefused && d.pending == [] && d.open && d.status == Connected
            && d.retractedIds == c.retractedIds && !d.destroyed && |d.sent| >= from
            && UpWeight(d.sent, from) == QueueWeight(c.pending)
            && forall i | from <= i < |d.sent| ::
                 d.sent[i].SendVector? || d.sent[i].SendPresence? || (d.sent[i].SendUpdate? && d.sent[i].x in c.pending)
  {
    var connected := Calling(c.(retryCount := 0, status := Connected, open := true), OnStatus(Connected));
    var asked := Sending(connected, SendVector(Vector(c.store.doc))).(pending := []);
    FlushedKeeps(asked, c.pending);
    UpSnoc(c.sent, from, SendVector(Vector(c.store.doc)));
    FlushWeighs(asked, c.pending, from);
    UpSnoc(Flushed(asked, c.pending).sent, from, SendPresence);
  }

  lemma GreetingIsOk(server: Doc, element: OpId -> Element, keyId: nat)
    requires Dense(server) && Honest(server, element)
    ensures var down := [RoomEpoch(keyId), Ask(Vector(server)), State(Diff(server, map[]))];
            (forall f | f in down :: FrameOk(f, server, element)) && forall k: nat | k < |down| :: AskOk(down, k)
  {
    AskIsOk(server, element);
    var down := [RoomEpoch(keyId), Ask(Vector(server)), State(Diff(server, map[]))];
    assert down[..1] == [RoomEpoch(keyId)];
  }

  lemma GreetingWeighs(element: OpId -> Element, me: string, doc: Doc, refused: bool, server: Doc, keyId: nat)
    ensures var down := [RoomEpoch(keyId), Ask(Vector(server)), State(Diff(server, map[]))];
            AskWeight(element, me, doc, refused, down, 3) <= 2
  {
    var down := [RoomEpoch(keyId), Ask(Vector(server)), State(Diff(server, map[]))];
    assert AskWeight(element, me, doc, refused, down, 0) == 0;
    assert AskWeight(element, me, doc, refused, down, 1) == 0;
    assert AskWeight(element, me, doc, refused, down, 2) <= 2;
  }

  /** A connection adds one ask. */
  lemma ConnectingKeeps(w: World, g: Setting, element: OpId -> Element)
    requires Inv(w, g.me, element)
    ensures Keeps(w, AfterConnect(w, g), g.me, element, 2)
  {
    if !w.client.open {
      var c := Calling(w.client.(status := Connecting), OnStatus(Connecting));
      OpeningIs(c, w.taken);
      ConnectedIs(w, AfterOpen(c), g, element);
    }
  }

  lemma ConnectedIs(w: World, d: Client, g: Setting, element: OpId -> Element)
    requires Inv(w, g.me, element) && !w.client.open
    requires d.store == w.client.store && d.stateRefused == w.client.stateRefused && d.pending == [] && d.open
    requires d.status == Connected && d.retractedIds == w.client.retractedIds && !d.destroyed && |d.sent| >= w.taken
    requires UpWeight(d.sent, w.taken) == QueueWeight(w.client.pending)
    requires forall i | w.taken <= i < |d.sent| ::
               d.sent[i].SendVector? || d.sent[i].SendPresence? || (d.sent[i].SendUpdate? && d.sent[i].x in w.client.pending)
    ensures var down := [RoomEpoch(g.keyId), Ask(Vector(w.server)), State(Diff(w.server, map[]))];
            Keeps(w, w.(client := d, down := down), g.me, element, 2)
  {
    var down := [RoomEpoch(g.keyId), Ask(Vector(w.server)), State(Diff(w.server, map[]))];
    GreetingIsOk(w.server, element, g.keyId);
    GreetingWeighs(element, g.me, d.store.doc, d.stateRefused, w.server, g.keyId);
    assert down[1].Ask? && down[1] in down;
  }

  // ---------------------------------------------------------------- whole runs

  function Connections(es: seq<Step>): nat
  {
    if es == [] then 0 else Connections(es[..|es| - 1]) + if es[|es| - 1].Connects? then 1 else 0
  }

  lemma NextKeeps(w: World, g: Setting, element: OpId -> Element, e: Step)
    requires Inv(w, g.me, element) && Sane(element, g.me) && Fair(w, g, element, e)
    ensures Keeps(w, Exchange.Next(w, g, e), g.me, element, if e.Connects? then 2 else 0)
  {
    match e
    case ClientReads(arranged) => ReadingKeeps(w, g, element, arranged);
    case ServerReads(ids, signature, now) => ServerReadingKeeps(w, g, element, ids, signature, now);
    case TimerFires => TimerKeeps(w, g, element);
    case Others(x) => OthersKeep(w, g, element, x);
    case Types(values) => TypingKeeps(w, g, element, values);
    case Drops(code) => DroppingKeeps(w, g, element, code);
    case Connects => ConnectingKeeps(w, g, element);
  }

  // ---------------------------------------------------------------- what is left to refuse

  /** An offending element that the server lacks and a rejection can name. */
  ghost predicate NamedLoose(w: World, element: OpId -> Element) { exists id :: Loose(w, id) && HasField(element(id), "id") }

  /** What is in flight, or due, weighs. */
  ghost function Flight(w: World, me: string, element: OpId -> Element): nat
  {
    UpWeight(w.client.sent, w.taken)
    + AskWeight(element, me, w.client.store.doc, w.client.stateRefused, w.down, |w.down|) + TimerWeight(w, me, element)
  }

  /**
   An upper bound on the refusals still to come before the next connection: the queue, and what is in
   flight, or one if nothing is but a loose element can be named.
   */
  ghost function Potential(w: World, me: string, element: OpId -> Element): nat
  {
    var flight := Flight(w, me, element);
    QueueWeight(w.client.pending) + if flight == 0 && NamedLoose(w, element) then 1 else flight
  }

  ghost predicate Spends(w: World, w': World, me: string, element: OpId -> Element, slack: nat)
  {
    Inv(w', me, element) && w'.refusals + Potential(w', me, element) <= w.refusals + Potential(w, me, element) + slack
  }

  lemma FewerLoose(w: World, w': World, element: OpId -> Element)
    requires forall id | Loose(w', id) :: Loose(w, id)
    ensures NamedLoose(w', element) ==> NamedLoose(w, element)
  {}

  /** No step makes an element loose or the queue heavier. */
  lemma NothingLoosens(w: World, g: Setting, element: OpId -> Element, e: Step)
    requires Inv(w, g.me, element) && Sane(element, g.me) && Fair(w, g, element, e)
    ensures var w' := Exchange.Next(w, g, e);
            && (forall id | Loose(w', id) :: Loose(w, id))
            && QueueWeight(w'.client.pending) <= QueueWeight(w.client.pending)
  {
    match e
    case ClientReads(arranged) =>
      if w.down != [] && Deliverable(w.client, w.down[0], arranged) {
        assert w.down[0] in w.down;
        FrameHandles(w.client, g.me, element, w.server, w.down[0], arranged);
        LooseShrinks(w, Exchange.Next(w, g, e), g.me, element, w.down[0]);
        QueueShrinks(w.client, Exchange.Next(w, g, e).client);
      }
    case Types(values) => TypingLightens(w, g, element, values);
    case Connects => ConnectingLightens(w, g);
    case _ =>
  }

  lemma TypingLightens(w: World, g: Setting, element: OpId -> Element, values: seq<Json>)
    requires Inv(w, g.me, element) && forall v | v in values :: CleanElement(Plain(v))
    requires Honest(Appended(w.client.store, g.clientId, values).doc, element)
    ensures var w' := w.(client := AfterTyping(w.client, g.clientId, values));
            && (forall id | Loose(w', id) :: Loose(w, id))
            && QueueWeight(w'.client.pending) <= QueueWeight(w.client.pending)
  {
    var c, d := w.client, AfterTyping(w.client, g.clientId, values);
    TypingIs(c, g.clientId, values);
    TypingIsOk(c, g.me, g.clientId, element, values);
    TypingLoosens(w, d);
    var x := Changes(c.store.doc, d.store.doc);
    assert (c.pending + [x])[..|c.pending|] == c.pending;
  }

  lemma ConnectingLightens(w: World, g: Setting)
    requires w.client.store.Ok() && w.taken <= |w.client.sent| && (!w.client.open ==> w.taken == |w.client.sent|)
    ensures var w' := AfterConnect(w, g);
            && w'.client.store == w.client.store && w'.server == w.server
            && (w'.client.pending == [] || w' == w)
  {
    if !w.client.open && !w.client.destroyed {
      OpeningIs(Calling(w.client.(status := Connecting), OnStatus(Connecting)), w.taken);
    }
  }

  /** A refused frame weighs two if what is loose can be named: an answer names all of it. */
  lemma RefusedWeighsTwo(w: World, g: Setting, element: OpId -> Element)
    requires Inv(w, g.me, element) && w.taken < |w.client.sent| && NamedLoose(w, element)
    requires Weight(w.client.sent[w.taken]) > 0
    ensures Flight(w, g.me, element) >= 2
  {
    var f := w.client.sent[w.taken];
    assert SentOk(w, f, element);
    if f.SendAnswer? {
      var id :| Loose(w, id) && HasField(element(id), "id");
      assert NamedId(f.x.cells[id]) in Named(f.x);
    }
  }

  /** Of the frames the server reads, only those with a weight are refused. */
  lemma OnlyHeavyIsRefused(w: World, g: Setting, ids: seq<string>, signature: nat, now: nat)
    ensures var w' := AfterServerReads(w, g, ids, signature, now);
            && w'.refusals <= w.refusals + 1 && w'.client == w.client
            && (w'.refusals > w.refusals ==> w.taken < |w.client.sent| && Weight(w.client.sent[w.taken]) > 0)
  {}

  lemma OthersRefuseNothing(w: World, g: Setting, e: Step)
    requires w.client.store.Ok() && !e.ServerReads?
    ensures Exchange.Next(w, g, e).refusals == w.refusals
  {}

  /** No step but a connection adds to the refusals had and to come. */
  lemma NextSpends(w: World, g: Setting, element: OpId -> Element, e: Step)
    requires Inv(w, g.me, element) && Sane(element, g.me) && Fair(w, g, element, e) && !e.Connects?
    ensures Spends(w, Exchange.Next(w, g, e), g.me, element, 0)
  {
    var w' := Exchange.Next(w, g, e);
    NextKeeps(w, g, element, e);
    NothingLoosens(w, g, element, e);
    FewerLoose(w, w', element);
    if e.ServerReads? {
      OnlyHeavyIsRefused(w, g, e.ids, e.signature, e.now);
      if w'.refusals > w.refusals && NamedLoose(w', element) { RefusedWeighsTwo(w, g, element); }
    } else {
      OthersRefuseNothing(w, g, e);
    }
  }

  /** A connection adds one. */
  lemma ConnectingSpends(w: World, g: Setting, element: OpId -> Element)
    requires Inv(w, g.me, element)
    ensures Spends(w, AfterConnect(w, g), g.me, element, 1)
  {
    ConnectingKeeps(w, g, element);
    ConnectingLightens(w, g);
    if !w.client.open && !w.client.destroyed {
      var w' := AfterConnect(w, g);
      OpeningIs(Calling(w.client.(status := Connecting), OnStatus(Connecting)), w.taken);
      GreetingIs(element, g.me, w.client.store.doc, w.client.stateRefused, w.server, g.keyId);
      FirstAskLevel(w, g, element);
    }
  }

  /** The greeting's ask weighs two only if what is loose can be named. */
  lemma FirstAskLevel(w: World, g: Setting, element: OpId -> Element)
    requires Dense(w.server) && Honest(w.client.store.doc, element)
    ensures Level(element, g.me, w.client.store.doc, w.client.stateRefused, [RoomEpoch(g.keyId)], Vector(w.server))
            <= 1 + if NamedLoose(w, element) then 1 else 0
  {
    var doc, v, frames := w.client.store.doc, Vector(w.server), [RoomEpoch(g.keyId)];
    if id :| Lingers(doc, frames, g.me, v, id) && HasField(doc[id].element, "id") {
      VectorCoversExactly(w.server, id);
      assert Loose(w, id);
    }
  }

  lemma GreetingIs(element: OpId -> Element, me: string, doc: Doc, refused: bool, server: Doc, keyId: nat)
    ensures var down := [RoomEpoch(keyId), Ask(Vector(server)), State(Diff(server, map[]))];
            AskWeight(element, me, doc, refused, down, 3) == Level(element, me, doc, refused, [RoomEpoch(keyId)], Vector(server))
  {
    var down := [RoomEpoch(keyId), Ask(Vector(server)), State(Diff(server, map[]))];
    assert down[..1] == [RoomEpoch(keyId)];
    assert AskWeight(element, me, doc, refused, down, 1) == 0;
    assert AskWeight(element, me, doc, refused, down, 2) == Level(element, me, doc, refused, down[..1], Vector(server));
  }

  lemma {:induction false} RunSpends(w: World, g: Setting, element: OpId -> Element, es: seq<Step>)
    requires Inv(w, g.me, element) && Sane(element, g.me) && FairRun(w, g, element, es)
    ensures Spends(w, Exchange.Run(w, g, es), g.me, element, Connections(es))
    decreases |es|
  {
    if es != [] {
      var front, last := es[..|es| - 1], es[|es| - 1];
      forall i | 0 <= i < |front| ensures Fair(Exchange.Run(w, g, front[..i]), g, element, front[i]) {
        assert front[..i] == es[..i];
      }
      RunSpends(w, g, element, front);
      if last.Connects? { ConnectingSpends(Exchange.Run(w, g, front), g, element); }
      else { NextSpends(Exchange.Run(w, g, front), g, element, last); }
    }
  }

  /** A client that is not connected, with a queue and whatever it holds. */
  ghost predicate Offline(w: World, me: string, element: OpId -> Element)
  {
    && ClientOk(w.client, me, element) && !w.client.open && w.taken == |w.client.sent|
    && w.down == [] && w.memory.NoRejection? && w.refusals == 0
    && Dense(w.server) && Honest(w.server, element)
  }

  /**
   Over every interleaving, with any number of frames in flight: the copy refuses at most one frame for each
   connection, three for each queued update that offends, and one more if an offending element that the
   server lacks has an id.  Module ExchangeTight has runs that come to exactly that.
   */
  lemma RefusalsAreBounded(w: World, g: Setting, element: OpId -> Element, es: seq<Step>)
    requires Offline(w, g.me, element) && Sane(element, g.me) && FairRun(w, g, element, es)
    ensures Exchange.Run(w, g, es).refusals
            <= Connections(es) + QueueWeight(w.client.pending) + if NamedLoose(w, element) then 1 else 0
  {
    RunSpends(w, g, element, es);
  }

  /** From any point of a run on, so many more as what is in flight, queued or due can cause. */
  lemma RefusalsToCome(w: World, g: Setting, element: OpId -> Element, es: seq<Step>)
    requires Inv(w, g.me, element) && Sane(element, g.me) && FairRun(w, g, element, es)
    ensures Exchange.Run(w, g, es).refusals <= w.refusals + Potential(w, g.me, element) + Connections(es)
  {
    RunSpends(w, g, element, es);
  }

  /**
   And when a connected client has no ask to answer, none is due, and none of its frames on the way would
   be refused, it has given up, or no offending element of its document is missing on the server.
   */
  lemma QuietMeansRepaired(w: World, g: Setting, element: OpId -> Element, es: seq<Step>)
    requires Offline(w, g.me, element) && Sane(element, g.me) && FairRun(w, g, element, es)
    requires Exchange.Run(w, g, es).client.open && !InFlight(Exchange.Run(w, g, es))
    ensures Exchange.Run(w, g, es).client.stateRefused || forall id :: !Loose(Exchange.Run(w, g, es), id)
  {
    RunSpends(w, g, element, es);
  }
}
