/** Runs of module Exchange that are refused as often as module ExchangeRuns allows. */
module ExchangeTight {
  import Common
  import opened JsonText
  import opened Replica
  import opened Engine
  import opened Wire
  import opened Provider
  import opened Repair
  import Throttle
  import opened Exchange
  import opened ExchangeBound
  import opened ExchangeRuns

  // ---------------------------------------------------------------- runs, built from the back

  ghost predicate Goes(w: World, w': World, g: Setting, element: OpId -> Element, e: Step)
  {
    w.client.store.Ok() && Fair(w, g, element, e) && w' == Exchange.Next(w, g, e) && w'.client.store.Ok()
  }

  /** The states that a fair run goes through. */
  ghost predicate Trace(ws: seq<World>, g: Setting, element: OpId -> Element, es: seq<Step>)
  {
    |ws| == |es| + 1 && forall i | 0 <= i < |es| :: Goes(ws[i], ws[i + 1], g, element, es[i])
  }

  ghost predicate Comes(w: World, ws: seq<World>, es: seq<Step>, k: nat, c: nat)
  {
    |ws| == |es| + 1 && ws[0] == w && Connections(es) == c && ws[|es|].refusals == w.refusals + k
  }

  /** Some fair run from here has c connections and is refused k times. */
  ghost predicate Can(w: World, g: Setting, element: OpId -> Element, k: nat, c: nat)
  {
    exists ws, es :: Trace(ws, g, element, es) && Comes(w, ws, es, k, c)
  }

  lemma {:induction false} ConnectionsCons(e: Step, es: seq<Step>)
    ensures Connections([e] + es) == Connections(es) + if e.Connects? then 1 else 0
    decreases |es|
  {
    if es == [] {
      assert [e] + es == [e] && [e][..0] == [];
    } else {
      ConnectionsCons(e, es[..|es| - 1]);
      assert ([e] + es)[..|es|] == [e] + es[..|es| - 1];
    }
  }

  lemma TraceCons(w: World, ws: seq<World>, g: Setting, element: OpId -> Element, e: Step, es: seq<Step>)
    requires Trace(ws, g, element, es) && Goes(w, ws[0], g, element, e)
    ensures Trace([w] + ws, g, element, [e] + es)
  {
    forall i | 0 <= i < |[e] + es| ensures Goes(([w] + ws)[i], ([w] + ws)[i + 1], g, element, ([e] + es)[i]) {
      if i > 0 { assert Goes(ws[i - 1], ws[i], g, element, es[i - 1]); }
    }
  }

  lemma Back(w: World, g: Setting, element: OpId -> Element, e: Step, k: nat, c: nat)
    requires w.client.store.Ok() && Fair(w, g, element, e) && Exchange.Next(w, g, e).client.store.Ok()
    requires Exchange.Next(w, g, e).refusals >= w.refusals && Can(Exchange.Next(w, g, e), g, element, k, c)
    ensures Can(w, g, element, k + (Exchange.Next(w, g, e).refusals - w.refusals), c + if e.Connects? then 1 else 0)
  {
    BackTo(w, Exchange.Next(w, g, e), g, element, e, k, c);
  }

  lemma BackTo(w: World, w': World, g: Setting, element: OpId -> Element, e: Step, k: nat, c: nat)
    requires Goes(w, w', g, element, e) && w'.refusals >= w.refusals && Can(w', g, element, k, c)
    ensures Can(w, g, element, k + (w'.refusals - w.refusals), c + if e.Connects? then 1 else 0)
  {
    var ws, es :| Trace(ws, g, element, es) && Comes(w', ws, es, k, c);
    TraceCons(w, ws, g, element, e, es);
    ConnectionsCons(e, es);
    assert Comes(w, [w] + ws, [e] + es, k + (w'.refusals - w.refusals), c + if e.Connects? then 1 else 0);
  }

  lemma {:induction false} TraceIsRun(ws: seq<World>, g: Setting, element: OpId -> Element, es: seq<Step>, i: nat)
    requires Trace(ws, g, element, es) && i <= |es| && ws[0].client.store.Ok()
    ensures Exchange.Run(ws[0], g, es[..i]) == ws[i] && ws[i].client.store.Ok()
    decreases i
  {
    if i > 0 {
      TraceIsRun(ws, g, element, es, i - 1);
      assert Goes(ws[i - 1], ws[i - 1 + 1], g, element, es[i - 1]);
      assert es[..i][..i - 1] == es[..i - 1];
    }
  }

  lemma CanMeansRun(w: World, g: Setting, element: OpId -> Element, k: nat, c: nat) returns (es: seq<Step>)
    requires w.client.store.Ok() && Can(w, g, element, k, c)
    ensures FairRun(w, g, element, es) && Connections(es) == c && Exchange.Run(w, g, es).refusals == w.refusals + k
  {
    var ws;
    ws, es :| Trace(ws, g, element, es) && Comes(w, ws, es, k, c);
    forall i | 0 <= i < |es| ensures Fair(Exchange.Run(w, g, es[..i]), g, element, es[i]) {
      TraceIsRun(ws, g, element, es, i);
      assert Goes(ws[i], ws[i + 1], g, element, es[i]);
    }
    TraceIsRun(ws, g, element, es, |es|);
    assert es[..|es|] == es;
  }

  lemma CanStop(w: World, g: Setting, element: OpId -> Element)
    ensures Can(w, g, element, 0, 0)
  {
    assert Trace([w], g, element, []) && Comes(w, [w], [], 0, 0);
  }

  // ---------------------------------------------------------------- the states of these runs

  /** Everything ever written is plaintext; what has an id is our own. */
  ghost predicate AllPlain(element: OpId -> Element, me: string)
  {
    forall id: OpId :: !IsNull(element(id)) && !CleanElement(element(id)) && (HasField(element(id), "id") ==> IsOwn(element(id), me))
  }

  /** A client that has not given up and holds an element that no rejection can name; the server holds nothing. */
  ghost predicate Holding(w: World, element: OpId -> Element)
  {
    && w.client.store.Ok() && Honest(w.client.store.doc, element) && !w.client.destroyed && !w.client.stateRefused
    && (w.client.open <==> w.client.status == Connected)
    && w.server == map[] && w.taken <= |w.client.sent|
    && exists id :: id in w.client.store.doc && w.client.store.doc[id].Live? && !HasField(element(id), "id")
  }

  function Up(w: World): seq<Outgoing>
    requires w.taken <= |w.client.sent|
  {
    w.client.sent[w.taken..]
  }

  /** The client knows of every message with this name: it has retracted it, or still holds it. */
  ghost predicate Accounted(c: Client, name: string)
  {
    name in c.retractedIds
    || exists id :: id in c.store.doc && c.store.doc[id].Live? && HasField(c.store.doc[id].element, "id")
                    && Field(c.store.doc[id].element, "id") == name
  }

  /** An offending update that the client will count as repaired. */
  ghost predicate Mendable(c: Client, x: Delta)
  {
    !CleanDelta(x) && Named(x) != {} && forall name | name in Named(x) :: Accounted(c, name)
  }

  /** It names all that can be named in the document. */
  ghost predicate NamesAll(c: Client, x: Delta)
  {
    forall id | id in c.store.doc && c.store.doc[id].Live? && HasField(c.store.doc[id].element, "id") ::
      Field(c.store.doc[id].element, "id") in Named(x)
  }

  predicate Idle(f: Outgoing) { f.SendPresence? || (f.SendUpdate? && f.x.cells == map[]) }

  ghost predicate Big(c: Client, f: Outgoing) { f.SendAnswer? && Mendable(c, f.x) && NamesAll(c, f.x) }

  predicate Small(f: Outgoing) { f.SendAnswer? && !CleanDelta(f.x) && Named(f.x) == {} }

  ghost predicate AllBig(c: Client, frames: seq<Outgoing>) { forall f | f in frames :: Idle(f) || Big(c, f) }

  predicate AllSmall(frames: seq<Outgoing>) { forall f | f in frames :: Idle(f) || Small(f) }

  function Answers(frames: seq<Outgoing>): nat
  {
    if frames == [] then 0 else (if frames[0].SendAnswer? then 1 else 0) + Answers(frames[1..])
  }

  lemma {:induction false} AnswersAdd(a: seq<Outgoing>, b: seq<Outgoing>)
    ensures Answers(a + b) == Answers(a) + Answers(b)
  {
    if a == [] {
      assert a + b == b;
    } else {
      AnswersAdd(a[1..], b);
      assert (a + b)[0] == a[0] && (a + b)[1..] == a[1..] + b;
    }
  }

  lemma OneAnswer(f: Outgoing)
    requires f.SendAnswer?
    ensures Answers([f]) == 1
  {
    assert [f][1..] == [];
  }

  /** What the client answers to the empty server. */
  function WholeAnswer(c: Client): Outgoing { SendAnswer(Diff(c.store.doc, Vector(map[]))) }

  lemma AnswerHolds(c: Client, element: OpId -> Element, me: string)
    requires Honest(c.store.doc, element) && AllPlain(element, me)
    ensures var x := Diff(c.store.doc, Vector(map[]));
            && x.cells == c.store.doc
            && (forall id | id in c.store.doc && c.store.doc[id].Live? ::
                  Bad(x, id) && (HasField(element(id), "id") ==> Field(element(id), "id") in Named(x)))
            && (forall name | name in Named(x) :: Accounted(c, name)) && NamesAll(c, x)
  {
    var x := Diff(c.store.doc, Vector(map[]));
    assert Vector(map[]) == map[];
    assert x.cells == c.store.doc;
    forall id | id in c.store.doc && c.store.doc[id].Live?
      ensures Bad(x, id) && (HasField(element(id), "id") ==> Field(element(id), "id") in Named(x))
    {
      if HasField(element(id), "id") { assert BadWithId(x, id) && NamedId(x.cells[id]) == Field(element(id), "id"); }
    }
    forall name | name in Named(x) ensures Accounted(c, name) {
      var id :| id in x.cells && BadWithId(x, id) && NamedId(x.cells[id]) == name;
      assert c.store.doc[id].Live? && HasField(c.store.doc[id].element, "id");
    }
  }

  lemma {:induction false} Listed(s: set<string>) returns (ids: seq<string>)
    ensures AsSet(ids) == s
    decreases |s|
  {
    if s == {} {
      ids := [];
    } else {
      var name :| name in s;
      var rest := Listed(s - {name});
      ids := [name] + rest;
      assert forall n :: n in ids <==> n == name || n in rest;
      assert forall n :: n in rest <==> n in AsSet(rest);
    }
  }

  // ---------------------------------------------------------------- the server reads

  /** A frame with nothing to refuse leaves the empty server empty. */
  lemma SkipIdle(w: World, g: Setting, element: OpId -> Element, k: nat, c: nat)
    requires Holding(w, element) && Up(w) != [] && Idle(Up(w)[0])
    requires Can(w.(taken := w.taken + 1), g, element, k, c)
    ensures Can(w, g, element, k, c)
  {
    var e := ServerReads([], 0, 0);
    assert w.client.sent[w.taken] == Up(w)[0];
    assert Named(Carried(Up(w)[0])) == {};
    IdleIsNothing(Up(w)[0]);
    assert Exchange.Next(w, g, e) == w.(taken := w.taken + 1);
    Back(w, g, element, e, k, c);
  }

  lemma IdleIsNothing(f: Outgoing)
    requires Idle(f)
    ensures f.SendUpdate? ==> CleanDelta(f.x) && Absorb(map[], f.x) == map[]
  {}

  function Refused(w: World, g: Setting, ids: seq<string>, signature: nat): World
  {
    Refusing(w.(taken := w.taken + 1), g, ids, signature, 0)
  }

  lemma RefuseHead(w: World, g: Setting, element: OpId -> Element, ids: seq<string>, signature: nat, k: nat, c: nat)
    requires Holding(w, element) && Up(w) != [] && (Up(w)[0].SendAnswer? || Up(w)[0].SendUpdate?)
    requires !CleanDelta(Up(w)[0].x) && AsSet(ids) == Named(Up(w)[0].x)
    requires Can(Refused(w, g, ids, signature), g, element, k, c)
    ensures Can(w, g, element, k + 1, c)
  {
    var e := ServerReads(ids, signature, 0);
    assert w.client.sent[w.taken] == Up(w)[0];
    assert Exchange.Next(w, g, e) == Refused(w, g, ids, signature);
    Back(w, g, element, e, k, c);
  }

  lemma {:induction false} RefuseAll(w: World, g: Setting, element: OpId -> Element, frames: seq<Outgoing>, m: nat)
    requires Holding(w, element) && w.client.open && w.client.pending == [] && AllPlain(element, g.me) && Up(w) == frames
    requires AllSmall(frames)
    ensures Can(w, g, element, Answers(frames) + m, m)
    decreases |frames|
  {
    if frames == [] {
      OnceMore(w, g, element, m);
    } else {
      var f, rest := frames[0], frames[1..];
      assert f in frames && forall h | h in rest :: h in frames;
      if Idle(f) {
        var w' := w.(taken := w.taken + 1);
        assert Up(w') == rest;
        RefuseAll(w', g, element, rest, m);
        SkipIdle(w, g, element, Answers(rest) + m, m);
      } else {
        var w' := Refused(w, g, [], 0);
        assert Up(w') == rest;
        RefuseAll(w', g, element, rest, m);
        RefuseHead(w, g, element, [], 0, Answers(rest) + m, m);
      }
    }
  }

  // ---------------------------------------------------------------- connecting

  lemma FlushedIs(c: Client, xs: seq<Delta>)
    requires c.open
    ensures Flushed(c, xs) == c.(sent := c.sent + Updates(xs))
  {
    FlushedKeeps(c, xs);
    FlushedSends(c, xs);
  }

  /** The queue goes out between the client's vector and its presence. */
  lemma OpenedIs(c: Client)
    ensures var d := AfterOpen(c);
            && d == c.(retryCount := 0, status := Connected, open := true, pending := [], sent := d.sent, calls := d.calls)
            && d.sent == c.sent + ([SendVector(Vector(c.store.doc))] + Updates(c.pending) + [SendPresence])
  {
    var connected := Calling(c.(retryCount := 0, status := Connected, open := true), OnStatus(Connected));
    FlushedIs(Sending(connected, SendVector(Vector(c.store.doc))).(pending := []), c.pending);
    assert c.sent + [SendVector(Vector(c.store.doc))] + Updates(c.pending) + [SendPresence]
           == c.sent + ([SendVector(Vector(c.store.doc))] + Updates(c.pending) + [SendPresence]);
  }

  /** Between two connections, with nothing in flight. */
  ghost predicate Parked(w: World, element: OpId -> Element)
  {
    Holding(w, element) && !w.client.open && w.taken == |w.client.sent| && w.down == [] && w.memory.NoRejection?
  }

  /** w' differs from w in what the client has sent and called back, and in the channel to it. */
  predicate SameBut(w: World, w': World)
  {
    && w'.client == w.client.(sent := w'.client.sent, calls := w'.client.calls, open := w'.client.open,
                              status := w'.client.status, retryCount := w'.client.retryCount, pending := w'.client.pending)
    && w'.server == w.server && w'.refusals == w.refusals
  }

  /** Connected, but nothing read. */
  lemma ConnectsFrom(w: World, g: Setting, element: OpId -> Element) returns (w': World)
    requires Parked(w, element)
    ensures Holding(w', element) && SameBut(w, w') && w'.client.open && w'.client.pending == [] && w'.memory == w.memory
    ensures w'.down == [RoomEpoch(g.keyId), Ask(Vector(map[])), State(Diff(map[], map[]))]
    ensures Up(w') == [SendVector(Vector(w.client.store.doc))] + Updates(w.client.pending) + [SendPresence]
    ensures forall k: nat, c: nat | Can(w', g, element, k, c) :: Can(w, g, element, k, c + 1)
  {
    w' := Exchange.Next(w, g, Connects);
    OpenedIs(Calling(w.client.(status := Connecting), OnStatus(Connecting)));
    forall k: nat, c: nat | Can(w', g, element, k, c) ensures Can(w, g, element, k, c + 1) {
      Back(w, g, element, Connects, k, c);
    }
  }

  /** The client reads a frame that leaves its document alone, and perhaps answers it. */
  lemma ReadsFirst(w: World, g: Setting, element: OpId -> Element) returns (w': World)
    requires Holding(w, element) && w.client.open && w.down != [] && (w.down[0].RoomEpoch? || w.down[0].Ask?)
    requires w.down[0].Ask? ==> w.down[0].vector == Vector(map[])
    ensures Holding(w', element) && SameBut(w, w') && w'.client.open && w'.client.pending == w.client.pending
    ensures w'.memory == w.memory && w'.taken == w.taken && w'.down == w.down[1..]
    ensures Up(w') == Up(w) + if w.down[0].Ask? then [WholeAnswer(w.client)] else []
    ensures forall k: nat, c: nat | Can(w', g, element, k, c) :: Can(w, g, element, k, c)
  {
    w' := Exchange.Next(w, g, ClientReads([]));
    forall k: nat, c: nat | Can(w', g, element, k, c) ensures Can(w, g, element, k, c) {
      Back(w, g, element, ClientReads([]), k, c);
    }
  }

  /** The greeting is read and answered; the copy has not read anything yet. */
  lemma Greeted(w: World, g: Setting, element: OpId -> Element) returns (w': World)
    requires Parked(w, element)
    ensures Holding(w', element) && SameBut(w, w') && w'.client.open && w'.client.pending == [] && w'.memory == w.memory
    ensures w'.down == [State(Diff(map[], map[]))]
    ensures Up(w') == [SendVector(Vector(w.client.store.doc))] + (Updates(w.client.pending) + [SendPresence, WholeAnswer(w.client)])
    ensures forall k: nat, c: nat | Can(w', g, element, k, c) :: Can(w, g, element, k, c + 1)
  {
    var w1 := ConnectsFrom(w, g, element);
    var w2 := ReadsFirst(w1, g, element);
    w' := ReadsFirst(w2, g, element);
    assert Up(w') == [SendVector(Vector(w.client.store.doc))] + Updates(w.client.pending) + [SendPresence] + [WholeAnswer(w.client)];
    assert [SendPresence] + [WholeAnswer(w.client)] == [SendPresence, WholeAnswer(w.client)];
  }

  /** The copy answers the client's vector: it holds nothing. */
  lemma VectorRead(w: World, g: Setting, element: OpId -> Element) returns (w': World)
    requires Holding(w, element) && Up(w) != [] && Up(w)[0].SendVector?
    ensures w' == w.(taken := w.taken + 1, down := w.down + [State(Delta(map[], {}))])
    ensures Holding(w', element) && Up(w') == Up(w)[1..]
    ensures forall k: nat, c: nat | Can(w', g, element, k, c) :: Can(w, g, element, k, c)
  {
    var e := ServerReads([], 0, 0);
    assert w.client.sent[w.taken] == Up(w)[0] && Named(Carried(Up(w)[0])) == {};
    w' := w.(taken := w.taken + 1, down := w.down + [State(Delta(map[], {}))]);
    assert Diff(map[], Up(w)[0].vector) == Delta(map[], {});
    assert Exchange.Next(w, g, e) == w';
    forall k: nat, c: nat | Can(w', g, element, k, c) ensures Can(w, g, element, k, c) {
      Back(w, g, element, e, k, c);
    }
  }

  // ---------------------------------------------------------------- one more connection

  lemma Dropped(w: World, g: Setting, element: OpId -> Element) returns (w': World)
    requires Holding(w, element) && w.client.open
    ensures Parked(w', element) && SameBut(w, w') && w'.client.pending == w.client.pending
    ensures forall k: nat, c: nat | Can(w', g, element, k, c) :: Can(w, g, element, k, c)
  {
    w' := Exchange.Next(w, g, Drops(1006));
    forall k: nat, c: nat | Can(w', g, element, k, c) ensures Can(w, g, element, k, c) {
      Back(w, g, element, Drops(1006), k, c);
    }
  }

  /** Each further connection is refused once: its first answer, before the client reads that it was. */
  lemma {:induction false} OnceMore(w: World, g: Setting, element: OpId -> Element, m: nat)
    requires Holding(w, element) && w.client.open && w.client.pending == [] && AllPlain(element, g.me)
    ensures Can(w, g, element, m, m)
    decreases m, 0
  {
    if m == 0 {
      CanStop(w, g, element);
    } else {
      var w1 := Dropped(w, g, element);
      var w2 := Greeted(w1, g, element);
      var w3 := VectorRead(w2, g, element);
      FirstRefused(w3, g, element, w1.client, m - 1);
    }
  }

  /** Of the presence and the answer that the copy reads next, it refuses the answer. */
  lemma FirstRefused(w: World, g: Setting, element: OpId -> Element, c: Client, m: nat)
    requires Holding(w, element) && w.client.open && w.client.pending == [] && AllPlain(element, g.me)
    requires w.client.store == c.store && Up(w) == [SendPresence, WholeAnswer(c)]
    ensures Can(w, g, element, m + 1, m)
    decreases m, 1
  {
    AnswerHolds(c, element, g.me);
    var ids := Listed(Named(WholeAnswer(c).x));
    var w1 := w.(taken := w.taken + 1);
    var w2 := Refused(w1, g, ids, 0);
    assert Up(w1) == [WholeAnswer(c)];
    OnceMore(w2, g, element, m);
    RefuseHead(w1, g, element, ids, 0, m, m);
    SkipIdle(w, g, element, m + 1, m);
  }

  // ---------------------------------------------------------------- a refusal, and its ask answered

  /** The client takes back what is named, counts itself as repaired, and still knows of every message. */
  lemma Mended(c: Client, me: string, keyId: nat, ids: seq<string>, element: OpId -> Element)
    requires c.store.Ok() && Honest(c.store.doc, element) && AllPlain(element, me)
    requires c.open && c.status == Connected && !c.stateRefused && c.pending == []
    requires ids != [] && forall name | name in AsSet(ids) :: Accounted(c, name)
    ensures var d := AfterRejection(c, me, keyId, ids);
            && d.store == Retracted(c.store, AsSet(ids), me) && d.store.Ok() && Honest(d.store.doc, element)
            && d.open && d.status == Connected && d.destroyed == c.destroyed && !d.stateRefused && d.pending == []
            && Quietly(c.sent, d.sent) && (forall name | Accounted(c, name) :: Accounted(d, name))
  {
    var d := AfterRejection(c, me, keyId, ids);
    RejectionIs(c, me, keyId, ids);
    RejectionSends(c, me, keyId, ids);
    RetractedIsOk(c.store, AsSet(ids), me);
    WalkNotes(c.store, AsSet(ids), me);
    KnownStaysKnown(c, d, me, AsSet(ids), element);
    forall name | name in AsSet(ids) ensures name in d.retractedIds { KnownIsNoted(c, me, AsSet(ids), name, element); }
  }

  lemma KnownIsNoted(c: Client, me: string, wanted: set<string>, name: string, element: OpId -> Element)
    requires Honest(c.store.doc, element) && AllPlain(element, me) && Accounted(c, name) && name in wanted
    ensures name in c.retractedIds + OwnIds(c.store.doc, wanted, me)
  {
    if name !in c.retractedIds {
      var id :| id in c.store.doc && c.store.doc[id].Live? && HasField(c.store.doc[id].element, "id")
                && Field(c.store.doc[id].element, "id") == name;
      assert Retracts(c.store.doc[id].element, wanted, me);
    }
  }

  lemma KnownStaysKnown(c: Client, d: Client, me: string, wanted: set<string>, element: OpId -> Element)
    requires c.store.Ok() && Honest(c.store.doc, element) && AllPlain(element, me)
    requires d.store == Retracted(c.store, wanted, me) && d.retractedIds == c.retractedIds + OwnIds(c.store.doc, wanted, me)
    ensures forall name | Accounted(c, name) :: Accounted(d, name)
  {
    OnlyNamedGo(c.store, me, wanted, element);
    forall name | Accounted(c, name) ensures Accounted(d, name) {
      if name in wanted {
        KnownIsNoted(c, me, wanted, name, element);
      } else if name !in c.retractedIds {
        var id :| id in c.store.doc && c.store.doc[id].Live? && HasField(c.store.doc[id].element, "id")
                  && Field(c.store.doc[id].element, "id") == name;
        assert d.store.doc[id] == c.store.doc[id];
      }
    }
  }

  /** What is wanted goes, and nothing else. */
  lemma OnlyNamedGo(s: Store, me: string, wanted: set<string>, element: OpId -> Element)
    requires s.Ok() && Honest(s.doc, element) && AllPlain(element, me)
    ensures var t := Retracted(s, wanted, me);
            && t.Ok() && t.doc.Keys == s.doc.Keys
            && forall id | id in s.doc && s.doc[id].Live? ::
                 t.doc[id] == if HasField(element(id), "id") && Field(element(id), "id") in wanted then Deleted else s.doc[id]
  {
    RetractedIsOk(s, wanted, me);
    RetractIsScan(s, wanted, me);
    forall id | id in s.doc && s.doc[id].Live? ensures Walked(s.doc, s.order, id) { WalkedWithoutNull(s, id); }
  }

  /** Connected, with nothing on its way to the client. */
  ghost predicate Ready(w: World, g: Setting, element: OpId -> Element)
  {
    Holding(w, element) && AllPlain(element, g.me) && w.client.open && w.client.pending == [] && w.down == []
  }

  /** w' is w after its oldest frame was refused, the rejection read and the ask answered. */
  ghost predicate Rounded(w: World, w': World, g: Setting, element: OpId -> Element, wanted: set<string>)
    requires w.client.store.Ok() && w.taken < |w.client.sent|
  {
    && Ready(w', g, element) && w'.refusals == w.refusals + 1 && w'.client.store == Retracted(w.client.store, wanted, g.me)
    && (forall name | Accounted(w.client, name) :: Accounted(w'.client, name))
  }

  /** The signature of a frame that was not the last one refused. */
  function Other(m: Throttle.Rejection): nat { if m.Rejection? then m.signature + 1 else 0 }

  lemma Round(w: World, g: Setting, element: OpId -> Element) returns (w': World, quiet: seq<Outgoing>)
    requires Ready(w, g, element)
    requires Up(w) != [] && (Up(w)[0].SendAnswer? || Up(w)[0].SendUpdate?) && Mendable(w.client, Up(w)[0].x)
    ensures Rounded(w, w', g, element, Named(Up(w)[0].x))
    ensures (forall f | f in quiet :: Idle(f)) && Up(w') == Up(w)[1..] + quiet + [WholeAnswer(w'.client)]
    ensures forall k: nat, c: nat | Can(w', g, element, k, c) :: Can(w, g, element, k + 1, c)
  {
    var wanted := Named(Up(w)[0].x);
    var ids := Listed(wanted);
    var signature := Other(w.memory);
    var w1 := Refused(w, g, ids, signature);
    assert w1.down == [Rejected(g.keyId, ids), Ask(Vector(map[]))];
    var w2 := Told(w1, g, element, ids);
    w' := ReadsFirst(w2, g, element);
    UpGrows(w, w1, w2);
    quiet := w2.client.sent[|w.client.sent|..];
    assert WholeAnswer(w2.client) == WholeAnswer(w'.client);
    assert Up(w') == Up(w)[1..] + quiet + [WholeAnswer(w'.client)];
    forall k: nat, c: nat | Can(w', g, element, k, c) ensures Can(w, g, element, k + 1, c) {
      RefuseHead(w, g, element, ids, signature, k, c);
    }
  }

  lemma UpGrows(w: World, w1: World, w2: World)
    requires w1.client == w.client && w1.taken == w2.taken == w.taken + 1 <= |w.client.sent| <= |w2.client.sent|
    requires w2.client.sent[..|w.client.sent|] == w.client.sent
    ensures Up(w2) == Up(w)[1..] + w2.client.sent[|w.client.sent|..]
  {
    var quiet := w2.client.sent[|w.client.sent|..];
    assert w2.client.sent == w.client.sent + quiet;
  }

  /** The rejection is read: what is named goes, and only an update without structs is sent. */
  lemma Tells(w: World, g: Setting, element: OpId -> Element, ids: seq<string>)
    requires Holding(w, element) && AllPlain(element, g.me) && w.client.open && w.client.pending == []
    requires ids != [] && forall name | name in AsSet(ids) :: Accounted(w.client, name)
    requires |w.down| > 1 && w.down[0] == Rejected(g.keyId, ids)
    ensures var w' := Exchange.Next(w, g, ClientReads([]));
            && w' == w.(client := w'.client, down := w.down[1..])
            && Holding(w', element) && w'.client.open && w'.client.pending == []
            && w'.client.store == Retracted(w.client.store, AsSet(ids), g.me) && Quietly(w.client.sent, w'.client.sent)
            && (forall name | Accounted(w.client, name) :: Accounted(w'.client, name))
  {
    Mended(w.client, g.me, g.keyId, ids, element);
    OnlyNamedGo(w.client.store, g.me, AsSet(ids), element);
    var d := AfterRejection(w.client, g.me, g.keyId, ids);
    var x :| x in w.client.store.doc && w.client.store.doc[x].Live? && !HasField(element(x), "id");
    assert d.store.doc[x] == w.client.store.doc[x];
  }

  lemma Told(w: World, g: Setting, element: OpId -> Element, ids: seq<string>) returns (w': World)
    requires Holding(w, element) && AllPlain(element, g.me) && w.client.open && w.client.pending == []
    requires ids != [] && forall name | name in AsSet(ids) :: Accounted(w.client, name)
    requires |w.down| > 1 && w.down[0] == Rejected(g.keyId, ids)
    ensures Holding(w', element) && w'.client.open && w'.client.pending == [] && w'.down == w.down[1..]
    ensures w'.refusals == w.refusals && w'.taken == w.taken && w'.client.store == Retracted(w.client.store, AsSet(ids), g.me)
    ensures forall name | Accounted(w.client, name) :: Accounted(w'.client, name)
    ensures |w'.client.sent| >= |w.client.sent| && w'.client.sent[..|w.client.sent|] == w.client.sent
    ensures forall f | f in w'.client.sent[|w.client.sent|..] :: Idle(f)
    ensures forall k: nat, c: nat | Can(w', g, element, k, c) :: Can(w, g, element, k, c)
  {
    Tells(w, g, element, ids);
    w' := Exchange.Next(w, g, ClientReads([]));
    forall k: nat, c: nat | Can(w', g, element, k, c) ensures Can(w, g, element, k, c) {
      Back(w, g, element, ClientReads([]), k, c);
    }
  }

  // ---------------------------------------------------------------- every answer on its way is refused

  lemma {:induction false} IdleHasNone(frames: seq<Outgoing>)
    requires forall f | f in frames :: Idle(f)
    ensures Answers(frames) == 0
  {
    if frames != [] {
      assert frames[0] in frames && forall f | f in frames[1..] :: f in frames;
      IdleHasNone(frames[1..]);
    }
  }

  lemma OneMoreAnswer(frames: seq<Outgoing>, quiet: seq<Outgoing>, f: Outgoing)
    requires (forall h | h in quiet :: Idle(h)) && f.SendAnswer?
    ensures Answers(frames + (quiet + [f])) == Answers(frames) + 1
  {
    AnswersAdd(frames, quiet + [f]);
    AnswersAdd(quiet, [f]);
    IdleHasNone(quiet);
    OneAnswer(f);
  }

  /** An answer stays refusable, and mendable, while others are mended. */
  lemma BigStays(c: Client, d: Client, me: string, wanted: set<string>, element: OpId -> Element, f: Outgoing)
    requires c.store.Ok() && Honest(c.store.doc, element) && AllPlain(element, me)
    requires d.store == Retracted(c.store, wanted, me) && forall name | Accounted(c, name) :: Accounted(d, name)
    requires Big(c, f)
    ensures Big(d, f)
  {
    OnlyNamedGo(c.store, me, wanted, element);
  }

  /** Once everything that can be named has been, the answer names nothing. */
  lemma NothingLeftToName(w: World, w': World, g: Setting, element: OpId -> Element, x: Delta)
    requires Holding(w, element) && AllPlain(element, g.me) && NamesAll(w.client, x) && w.taken < |w.client.sent|
    requires Rounded(w, w', g, element, Named(x))
    ensures Small(WholeAnswer(w'.client))
  {
    var d := w'.client;
    OnlyNamedGo(w.client.store, g.me, Named(x), element);
    AnswerHolds(d, element, g.me);
    var y := WholeAnswer(d).x;
    forall id | id in y.cells ensures !BadWithId(y, id) {
      if d.store.doc[id].Live? { assert w.client.store.doc[id].Live?; }
    }
    assert Named(y) == {};
  }

  /** Big answers are refused, and what the client answers to their asks, which names nothing, is refused as well. */
  lemma {:induction false} AnswersRefused(w: World, g: Setting, element: OpId -> Element,
                                          bigs: seq<Outgoing>, smalls: seq<Outgoing>, m: nat)
    requires Ready(w, g, element)
    requires Up(w) == bigs + smalls
    requires AllBig(w.client, bigs) && AllSmall(smalls)
    ensures Can(w, g, element, 2 * Answers(bigs) + Answers(smalls) + m, m)
    decreases |bigs|, 1
  {
    if bigs == [] {
      assert bigs + smalls == smalls;
      RefuseAll(w, g, element, smalls, m);
      return;
    }
    assert Up(w)[0] == bigs[0] && Up(w)[1..] == bigs[1..] + smalls;
    if Idle(bigs[0]) {
      IdleSkipped(w, g, element, bigs[0], bigs[1..], smalls, m);
    } else {
      assert bigs[0] in bigs;
      BigRefused(w, g, element, bigs[0], bigs[1..], smalls, m);
    }
  }

  lemma IdleSkipped(w: World, g: Setting, element: OpId -> Element,
                    f: Outgoing, rest: seq<Outgoing>, smalls: seq<Outgoing>, m: nat)
    requires Ready(w, g, element) && Up(w) != [] && Up(w)[0] == f && Up(w)[1..] == rest + smalls && Idle(f)
    requires AllBig(w.client, rest) && AllSmall(smalls)
    ensures Can(w, g, element, 2 * Answers(rest) + Answers(smalls) + m, m)
    decreases |rest| + 1, 0
  {
    var w' := w.(taken := w.taken + 1);
    assert Up(w') == Up(w)[1..];
    AnswersRefused(w', g, element, rest, smalls, m);
    SkipIdle(w, g, element, 2 * Answers(rest) + Answers(smalls) + m, m);
  }

  lemma BigRefused(w: World, g: Setting, element: OpId -> Element,
                   f: Outgoing, rest: seq<Outgoing>, smalls: seq<Outgoing>, m: nat)
    requires Ready(w, g, element) && Up(w) != [] && Up(w)[0] == f && Up(w)[1..] == rest + smalls && Big(w.client, f)
    requires AllBig(w.client, rest) && AllSmall(smalls)
    ensures Can(w, g, element, 2 * (Answers(rest) + 1) + Answers(smalls) + m, m)
    decreases |rest| + 1, 0
  {
    var w', smalls' := BigAnswered(w, g, element, f, rest, smalls);
    AnswersRefused(w', g, element, rest, smalls', m);
    var k := 2 * Answers(rest) + Answers(smalls') + m;
    assert Can(w', g, element, k, m);
    assert Can(w, g, element, k + 1, m);
  }

  lemma BigAnswered(w: World, g: Setting, element: OpId -> Element, f: Outgoing, rest: seq<Outgoing>, smalls: seq<Outgoing>)
    returns (w': World, smalls': seq<Outgoing>)
    requires Ready(w, g, element) && Up(w) != [] && Up(w)[0] == f && Up(w)[1..] == rest + smalls && Big(w.client, f)
    requires AllBig(w.client, rest) && AllSmall(smalls)
    ensures Ready(w', g, element) && Up(w') == rest + smalls' && Answers(smalls') == Answers(smalls) + 1
    ensures AllBig(w'.client, rest) && AllSmall(smalls')
    ensures forall k: nat, c: nat | Can(w', g, element, k, c) :: Can(w, g, element, k + 1, c)
  {
    var tail;
    w', tail := Answered(w, g, element);
    smalls' := smalls + tail;
    NothingLeftToName(w, w', g, element, f.x);
    BigsStay(w, w', g, element, Named(f.x), rest);
    SmallsGrow(w'.client, smalls, tail);
    Common.Associates(rest, smalls, tail);
  }

  lemma SmallsGrow(c: Client, smalls: seq<Outgoing>, tail: seq<Outgoing>)
    requires AllSmall(smalls) && (forall h | h in tail :: Idle(h) || h == WholeAnswer(c))
    requires Small(WholeAnswer(c)) && Answers(tail) == 1
    ensures Answers(smalls + tail) == Answers(smalls) + 1 && AllSmall(smalls + tail)
  {
    AnswersAdd(smalls, tail);
  }

  /** A round, and what it adds to the channel: one answer. */
  lemma Answered(w: World, g: Setting, element: OpId -> Element) returns (w': World, tail: seq<Outgoing>)
    requires Ready(w, g, element)
    requires Up(w) != [] && (Up(w)[0].SendAnswer? || Up(w)[0].SendUpdate?) && Mendable(w.client, Up(w)[0].x)
    ensures Rounded(w, w', g, element, Named(Up(w)[0].x)) && Up(w') == Up(w)[1..] + tail && Answers(tail) == 1
    ensures forall h | h in tail :: Idle(h) || h == WholeAnswer(w'.client)
    ensures forall k: nat, c: nat | Can(w', g, element, k, c) :: Can(w, g, element, k + 1, c)
  {
    var quiet;
    w', quiet := Round(w, g, element);
    tail := quiet + [WholeAnswer(w'.client)];
    OneMoreAnswer([], quiet, WholeAnswer(w'.client));
    assert [] + tail == tail;
  }

  lemma BigsStay(w: World, w': World, g: Setting, element: OpId -> Element, wanted: set<string>, bigs: seq<Outgoing>)
    requires Holding(w, element) && AllPlain(element, g.me) && w.taken < |w.client.sent| && Rounded(w, w', g, element, wanted)
    requires AllBig(w.client, bigs)
    ensures AllBig(w'.client, bigs)
  {
    forall h | h in bigs && !Idle(h) ensures Big(w'.client, h) { BigStays(w.client, w'.client, g.me, wanted, element, h); }
  }

  // ---------------------------------------------------------------- every queued update is refused

  function Name(i: nat): string { seq(i, _ => 'm') }

  /** Messages 0 to n have names of their own, what comes after has none. */
  function Written(n: nat, id: OpId): Element
  {
    if id.clock <= n then Plain(Bare(Name(id.clock), "me")) else Plain(Obj(map[]))
  }

  function WrittenBy(n: nat): OpId -> Element { id => Written(n, id) }

  lemma WrittenIsPlain(n: nat)
    ensures AllPlain(WrittenBy(n), "me") && Sane(WrittenBy(n), "me")
  {
    forall id: OpId
      ensures !IsNull(Written(n, id)) && !CleanElement(Written(n, id))
              && (HasField(Written(n, id), "id") ==> IsOwn(Written(n, id), "me"))
    {
      if id.clock <= n { BareIsBad(Name(id.clock), "me"); } else { NothingIsBad(); }
    }
  }

  lemma NothingIsBad()
    ensures !CleanElement(Plain(Obj(map[])))
  {
    var none: map<string, Json> := map[];
    assert "content" !in none && "content" in EnvelopeGate.MESSAGE_KEYS;
  }

  function Queued(n: nat, i: nat): Delta { Delta(map[OpId(1, i) := Live(Written(n, OpId(1, i)))], {}) }

  lemma QueuedIsBad(n: nat, i: nat)
    requires i <= n
    ensures !CleanDelta(Queued(n, i)) && Named(Queued(n, i)) == {Name(i)}
  {
    WrittenIsPlain(n);
    var x, id := Queued(n, i), OpId(1, i);
    assert AllPlain(WrittenBy(n), "me") && WrittenBy(n)(id) == Written(n, id);
    assert BadWithId(x, id) && NamedId(x.cells[id]) == Name(i);
    assert forall k | k in x.cells :: k == id;
  }

  /** The queue from message i on. */
  function Queue(n: nat, i: nat): (xs: seq<Delta>)
    requires i <= n
    ensures |xs| == n - i && forall k | 0 <= k < n - i :: xs[k] == Queued(n, i + k)
  {
    seq(n - i, k requires 0 <= k < n - i => Queued(n, i + k))
  }

  /** The client still holds the messages from number i on, and the one without a name. */
  ghost predicate HoldsFrom(c: Client, n: nat, i: nat)
  {
    forall k: nat | i <= k <= n + 1 :: OpId(1, k) in c.store.doc && c.store.doc[OpId(1, k)] == Live(Written(n, OpId(1, k)))
  }

  /** Messages up to number i have been taken back; the others are queued; these answers are on their way. */
  ghost predicate Queueing(w: World, g: Setting, n: nat, i: nat, bigs: seq<Outgoing>)
  {
    && i <= n && g.me == "me" && Ready(w, g, WrittenBy(n)) && HoldsFrom(w.client, n, i)
    && Up(w) == Updates(Queue(n, i)) + bigs
    && AllBig(w.client, bigs) && Answers(bigs) == i + 1
  }

  lemma UpdateRefused(w: World, g: Setting, n: nat, i: nat, bigs: seq<Outgoing>) returns (w': World, bigs': seq<Outgoing>)
    requires Queueing(w, g, n, i, bigs) && i < n
    ensures Queueing(w', g, n, i + 1, bigs')
    ensures forall k: nat, c: nat | Can(w', g, WrittenBy(n), k, c) :: Can(w, g, WrittenBy(n), k + 1, c)
  {
    var tail;
    QueueCons(n, i);
    assert Up(w)[0] == SendUpdate(Queued(n, i)) && Up(w)[1..] == Updates(Queue(n, i + 1)) + bigs;
    QueuedIsMendable(w.client, n, i);
    w', tail := Answered(w, g, WrittenBy(n));
    bigs' := bigs + tail;
    StillQueueing(w, w', g, n, i, bigs, tail);
  }

  lemma StillQueueing(w: World, w': World, g: Setting, n: nat, i: nat, bigs: seq<Outgoing>, tail: seq<Outgoing>)
    requires Queueing(w, g, n, i, bigs) && i < n && w.taken < |w.client.sent| && Rounded(w, w', g, WrittenBy(n), {Name(i)})
    requires Up(w') == Updates(Queue(n, i + 1)) + bigs + tail && Answers(tail) == 1
    requires forall h | h in tail :: Idle(h) || h == WholeAnswer(w'.client)
    ensures Queueing(w', g, n, i + 1, bigs + tail)
  {
    OthersAreHeld(w, w', g, n, i);
    BigsStay(w, w', g, WrittenBy(n), {Name(i)}, bigs);
    BigsGrow(w'.client, bigs, tail);
    Common.Associates(Updates(Queue(n, i + 1)), bigs, tail);
  }

  lemma BigsGrow(c: Client, bigs: seq<Outgoing>, tail: seq<Outgoing>)
    requires AllBig(c, bigs) && Big(c, WholeAnswer(c)) && Answers(tail) == 1
    requires forall h | h in tail :: Idle(h) || h == WholeAnswer(c)
    ensures AllBig(c, bigs + tail) && Answers(bigs + tail) == Answers(bigs) + 1
  {
    AnswersAdd(bigs, tail);
  }

  lemma QueuedIsMendable(c: Client, n: nat, i: nat)
    requires i < n && HoldsFrom(c, n, i)
    ensures Mendable(c, Queued(n, i)) && Named(Queued(n, i)) == {Name(i)}
  {
    QueuedIsBad(n, i);
    assert OpId(1, i) in c.store.doc;
  }

  /**
   The copy refuses the queued updates one after the other.  The client takes back one message for each, and
   answers each ask with all the others: by the time the first of its answers is read there are n + 1.
   */
  lemma {:induction false} UpdatesRefused(w: World, g: Setting, n: nat, i: nat, bigs: seq<Outgoing>, m: nat)
    requires Queueing(w, g, n, i, bigs)
    ensures Can(w, g, WrittenBy(n), n - i + 2 * (n + 1) + m, m)
    decreases n - i
  {
    if i == n {
      assert Updates(Queue(n, i)) + bigs == bigs && bigs + [] == bigs;
      AnswersRefused(w, g, WrittenBy(n), bigs, [], m);
    } else {
      var w', bigs' := UpdateRefused(w, g, n, i, bigs);
      UpdatesRefused(w', g, n, i + 1, bigs', m);
      var k := n - i - 1 + 2 * (n + 1) + m;
      assert Can(w', g, WrittenBy(n), k, m);
      assert Can(w, g, WrittenBy(n), k + 1, m);
    }
  }

  lemma QueueCons(n: nat, i: nat)
    requires i < n
    ensures Updates(Queue(n, i)) == [SendUpdate(Queued(n, i))] + Updates(Queue(n, i + 1))
  {}

  /** One message fewer, and the answer names all the others. */
  lemma OthersAreHeld(w: World, w': World, g: Setting, n: nat, i: nat)
    requires i < n && g.me == "me" && Ready(w, g, WrittenBy(n)) && HoldsFrom(w.client, n, i)
    requires w.taken < |w.client.sent| && Rounded(w, w', g, WrittenBy(n), {Name(i)})
    ensures HoldsFrom(w'.client, n, i + 1) && Big(w'.client, WholeAnswer(w'.client))
  {
    var element, d := WrittenBy(n), w'.client;
    OnlyNamedGo(w.client.store, "me", {Name(i)}, element);
    forall k: nat | i < k <= n + 1
      ensures OpId(1, k) in d.store.doc && d.store.doc[OpId(1, k)] == Live(Written(n, OpId(1, k)))
    {
      assert element(OpId(1, k)) == Written(n, OpId(1, k));
      assert k <= n ==> |Name(k)| != |Name(i)|;
    }
    AllIsNamed(d, n);
  }

  lemma AllIsNamed(c: Client, n: nat)
    requires Honest(c.store.doc, WrittenBy(n)) && AllPlain(WrittenBy(n), "me")
    requires OpId(1, n) in c.store.doc && c.store.doc[OpId(1, n)] == Live(Written(n, OpId(1, n)))
    ensures Big(c, WholeAnswer(c))
  {
    AnswerHolds(c, WrittenBy(n), "me");
    assert Field(WrittenBy(n)(OpId(1, n)), "id") == Name(n);
  }

  // ---------------------------------------------------------------- the whole run

  /** An empty update from the server is read. */
  lemma EmptyRead(w: World, g: Setting, element: OpId -> Element) returns (w': World)
    requires Holding(w, element) && w.client.open && w.client.synced && w.down != [] && w.down[0] == State(Delta(map[], {}))
    ensures w' == w.(down := w.down[1..]) && Holding(w', element)
    ensures forall k: nat, c: nat | Can(w', g, element, k, c) :: Can(w, g, element, k, c)
  {
    var e := ClientReads(w.client.store.order);
    AbsorbNothing(w.client.store.doc);
    w' := w.(down := w.down[1..]);
    assert Exchange.Next(w, g, e) == w';
    forall k: nat, c: nat | Can(w', g, element, k, c) ensures Can(w, g, element, k, c) {
      Back(w, g, element, e, k, c);
    }
  }

  function HeldDoc(n: nat): Doc
  {
    map id | id in (set k | 0 <= k < n + 2 :: OpId(1, k)) :: Live(Written(n, id))
  }

  /** Messages 0 to n - 1 are queued as updates as well; message n and the nameless one are only in the document. */
  function Before(n: nat): World
  {
    var store := Store(HeldDoc(n), seq(n + 2, k requires 0 <= k < n + 2 => OpId(1, k)));
    World(Client(store, Disconnected, Queue(n, 0), {}, false, true, 0, false, false, [], []),
          0, map[], Throttle.NoRejection, [], 0)
  }

  lemma BeforeIsOk(n: nat)
    ensures Before(n).client.store.Ok() && Honest(Before(n).client.store.doc, WrittenBy(n)) && HoldsFrom(Before(n).client, n, 0)
  {
    var s := Before(n).client.store;
    forall k: nat | k < n + 2 ensures OpId(1, k) in s.doc && s.order[k] == OpId(1, k) {}
    forall id | id in s.doc ensures id.client == 1 && id.clock < n + 2 && id in s.order { assert s.order[id.clock] == id; }
    assert Dense(s.doc) && Arranges(s.order, s.doc);
  }

  lemma BeforeIsParked(n: nat)
    ensures Parked(Before(n), WrittenBy(n)) && Offline(Before(n), "me", WrittenBy(n))
  {
    BeforeIsOk(n);
    var id := OpId(1, n + 1);
    assert id in HeldDoc(n) && !HasField(WrittenBy(n)(id), "id");
  }

  lemma ConnectedOnce(n: nat, g: Setting, m: nat)
    requires g.me == "me"
    ensures Before(n).client.store.Ok() && Can(Before(n), g, WrittenBy(n), 3 * n + 2 + m, m + 1)
  {
    BeforeIsOk(n);
    var w := FirstRead(n, g);
    UpdatesRefused(w, g, n, 0, [SendPresence, WholeAnswer(Before(n).client)], m);
    var k := n + 2 * (n + 1) + m;
    assert Can(w, g, WrittenBy(n), k, m);
    assert Can(Before(n), g, WrittenBy(n), k, m + 1);
  }

  /** Connected, with the empty server's frames read, and the queue and the first answer on their way. */
  lemma FirstRead(n: nat, g: Setting) returns (w': World)
    requires g.me == "me"
    ensures Before(n).client.store.Ok() && Queueing(w', g, n, 0, [SendPresence, WholeAnswer(Before(n).client)])
    ensures forall k: nat, c: nat | Can(w', g, WrittenBy(n), k, c) :: Can(Before(n), g, WrittenBy(n), k, c + 1)
  {
    var w, element := Before(n), WrittenBy(n);
    BeforeIsOk(n);
    BeforeIsParked(n);
    WrittenIsPlain(n);
    var w1 := Greeted(w, g, element);
    w' := NothingExchanged(w1, g, element);
    assert Up(w') == Updates(Queue(n, 0)) + [SendPresence, WholeAnswer(w.client)];
    QueueingBegins(w', g, n);
  }

  lemma QueueingBegins(w: World, g: Setting, n: nat)
    requires g.me == "me" && Ready(w, g, WrittenBy(n)) && w.client.store == Before(n).client.store
    requires Up(w) == Updates(Queue(n, 0)) + [SendPresence, WholeAnswer(Before(n).client)]
    ensures Queueing(w, g, n, 0, [SendPresence, WholeAnswer(Before(n).client)])
  {
    BeforeIsOk(n);
    HoldsTheSame(Before(n).client, w.client, n);
    FirstAnswer(w.client, Before(n).client, n);
  }

  lemma HoldsTheSame(c: Client, d: Client, n: nat)
    requires c.store == d.store && HoldsFrom(c, n, 0)
    ensures HoldsFrom(d, n, 0)
  {}

  /** The client reads that the server is empty, the server its vector, and the client that again. */
  lemma NothingExchanged(w: World, g: Setting, element: OpId -> Element) returns (w': World)
    requires Holding(w, element) && w.client.open && w.client.synced && w.down == [State(Diff(map[], map[]))]
    requires Up(w) != [] && Up(w)[0].SendVector?
    ensures w' == w.(taken := w.taken + 1, down := []) && Holding(w', element) && Up(w') == Up(w)[1..]
    ensures forall k: nat, c: nat | Can(w', g, element, k, c) :: Can(w, g, element, k, c)
  {
    assert Diff(map[], map[]) == Delta(map[], {});
    var w1 := EmptyRead(w, g, element);
    assert Up(w1) == Up(w);
    var w2 := VectorRead(w1, g, element);
    w' := EmptyRead(w2, g, element);
  }

  lemma FirstAnswer(c: Client, before: Client, n: nat)
    requires c.store == before.store && Honest(c.store.doc, WrittenBy(n)) && HoldsFrom(c, n, 0) && AllPlain(WrittenBy(n), "me")
    ensures AllBig(c, [SendPresence, WholeAnswer(before)]) && Answers([SendPresence, WholeAnswer(before)]) == 1
  {
    AllIsNamed(c, n);
    assert WholeAnswer(before) == WholeAnswer(c);
    OneAnswer(WholeAnswer(before));
    assert [SendPresence, WholeAnswer(before)][1..] == [WholeAnswer(before)];
  }

  lemma {:induction false} QueueWeighs(xs: seq<Delta>)
    requires forall x | x in xs :: !CleanDelta(x)
    ensures QueueWeight(xs) == 3 * |xs|
  {
    if xs != [] {
      QueueWeighs(xs[..|xs| - 1]);
      assert xs[|xs| - 1] in xs;
    }
  }

  /** With unique ids, and no null, two rejections would end this, were nothing else in flight. */
  ghost predicate Sound(w: World, me: string)
  {
    && w.client.store.Ok() && !HasNull(w.client.store) && UniqueIds(SessionOf(w.client), me)
    && EndsWithin(SessionOf(w.client), Vector(w.server), me, 2)
  }

  lemma BeforeIsSound(n: nat)
    ensures Sound(Before(n), "me")
  {
    var c, element := Before(n).client, WrittenBy(n);
    BeforeIsOk(n);
    WrittenIsPlain(n);
    assert forall id | id in c.store.doc :: c.store.doc[id] == Live(element(id));
    UniqueIdsEndTheLoop(SessionOf(c), Vector(map[]), "me");
  }

  /** A fair run with c connections, from a queue of n updates that all offend, that comes to the bound. */
  ghost predicate Attains(w: World, g: Setting, element: OpId -> Element, es: seq<Step>, n: nat, c: nat)
  {
    && Offline(w, g.me, element) && Sane(element, g.me) && Sound(w, g.me) && FairRun(w, g, element, es)
    && |w.client.pending| == n && (forall x | x in w.client.pending :: !CleanDelta(x)) && Connections(es) == c
    && Exchange.Run(w, g, es).refusals == c + QueueWeight(w.client.pending) + 1 == c + 3 * n + 1
  }

  /**
   The bound is exact, for any number of offending updates in the queue and of connections: two rejections
   would end the exchange if nothing else were in flight, and c + 3 n + 1 frames are refused.
   */
  lemma BoundIsAttained(n: nat, c: nat)
    requires c > 0
    ensures exists w, g, element, es :: Attains(w, g, element, es, n, c)
  {
    var w, g, element := Before(n), Setting("me", 1, 1), WrittenBy(n);
    ConnectedOnce(n, g, c - 1);
    var es := CanMeansRun(w, g, element, 3 * n + 2 + (c - 1), c);
    BeforeAttains(g, es, n, c);
    assert Attains(w, g, element, es, n, c);
  }

  lemma BeforeAttains(g: Setting, es: seq<Step>, n: nat, c: nat)
    requires g.me == "me" && Before(n).client.store.Ok() && FairRun(Before(n), g, WrittenBy(n), es) && Connections(es) == c
    requires Exchange.Run(Before(n), g, es).refusals == c + 3 * n + 1
    ensures Attains(Before(n), g, WrittenBy(n), es, n, c)
  {
    var w := Before(n);
    BeforeIsParked(n);
    BeforeIsSound(n);
    WrittenIsPlain(n);
    forall x | x in w.client.pending ensures !CleanDelta(x) {
      var i :| 0 <= i < n && w.client.pending[i] == x;
      QueuedIsBad(n, i);
    }
    QueueWeighs(w.client.pending);
  }
}
