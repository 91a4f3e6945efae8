/**
 What a run of the provider tells the app and puts on the socket, told from its events
 (packages/sync-engine/src/WebSocketProvider.ts).
 */
module ProviderRuns {
  import opened Common
  import opened JsonText
  import opened Replica
  import opened Engine
  import opened Wire
  import opened Provider
  import Backoff

  lemma {:induction false} RunSnoc(c: Client, me: string, clientId: nat, es: seq<Event>, e: Event)
    requires c.store.Ok()
    ensures Run(c, me, clientId, es).store.Ok()
    ensures Run(c, me, clientId, es + [e]) == Next(Run(c, me, clientId, es), me, clientId, e)
    decreases |es|
  {
    if es == [] {
      NextIsOk(c, me, clientId, e);
      assert [] + [e] == [e] && [e][1..] == [];
    } else {
      NextIsOk(c, me, clientId, es[0]);
      RunSnoc(Next(c, me, clientId, es[0]), me, clientId, es[1..], e);
      assert (es + [e])[1..] == es[1..] + [e];
    }
  }

  // ---------------------------------------------------------------- the line, from the events alone

  predicate Gone(es: seq<Event>) { exists e | e in es :: e.Destroyed? }

  /** A socket is being opened: nothing has happened to it since the provider started, or since the last retry. */
  predicate Dialing(es: seq<Event>)
  {
    if es == [] then true
    else
      match es[|es| - 1]
      case Retrying => true
      case Opened => false
      case Closed(_) => false
      case _ => Dialing(es[..|es| - 1])
  }

  /** The socket is open. */
  predicate Up(es: seq<Event>)
  {
    if es == [] then false
    else
      var front := es[..|es| - 1];
      match es[|es| - 1]
      case Opened => Up(front) || (Dialing(front) && !Gone(front))
      case Closed(_) => false
      case Destroyed => false
      case _ => Up(front)
  }

  /** The closes since the last open, or since the start, that were not about authentication. */
  function Failures(es: seq<Event>): nat
  {
    if es == [] then 0
    else
      var front, last := es[..|es| - 1], es[|es| - 1];
      match last
      case Closed(code) => if 4000 <= code < 4100 then Failures(front) else Failures(front) + 1
      case Opened => if Dialing(front) then 0 else Failures(front)
      case _ => Failures(front)
  }

  /** What an event makes the provider tell the app about the line. */
  function LineBy(es: seq<Event>, e: Event): seq<Call>
  {
    if Gone(es) then []
    else
      match e
      case Opened => if Dialing(es) then [OnStatus(Connected)] else []
      case Retrying => [OnStatus(Connecting)]
      case Closed(code) =>
        [OnStatus(Disconnected),
         if 4000 <= code < 4100 then OnAuthError(code) else RetryIn(Min(1000 * Backoff.Pow2(Failures(es)), 30000))]
      case _ => []
  }

  function Line(es: seq<Event>): seq<Call>
  {
    if es == [] then [OnStatus(Connecting)] else Line(es[..|es| - 1]) + LineBy(es[..|es| - 1], es[|es| - 1])
  }

  predicate IsLine(call: Call) { call.OnStatus? || call.OnAuthError? || call.RetryIn? }

  function LineCalls(calls: seq<Call>): seq<Call>
  {
    if calls == [] then []
    else LineCalls(calls[..|calls| - 1]) + (if IsLine(calls[|calls| - 1]) then [calls[|calls| - 1]] else [])
  }

  /** A provider that has just started. */
  predicate Fresh(c: Client)
  {
    && c.status == Connecting && c.pending == [] && !c.stateRefused && c.retractedIds == {} && !c.synced && c.retryCount == 0
    && !c.destroyed && !c.open && c.sent == [] && c.calls == [OnStatus(Connecting)]
  }

  predicate LineOk(c: Client, es: seq<Event>)
  {
    && (c.destroyed <==> Gone(es)) && (c.open <==> Up(es))
    && (!c.destroyed ==> (c.status == Connecting <==> Dialing(es)) && c.retryCount == Failures(es)
                         && (c.status == Connected ==> c.open))
    && LineCalls(c.calls) == Line(es)
  }

  lemma CallAdds(calls: seq<Call>, call: Call)
    ensures LineCalls(calls + [call]) == LineCalls(calls) + (if IsLine(call) then [call] else [])
  {
    assert (calls + [call])[..|calls|] == calls;
  }

  lemma GoneSnoc(es: seq<Event>, e: Event)
    ensures Gone(es + [e]) <==> Gone(es) || e.Destroyed?
  {
    assert e in es + [e];
    if Gone(es) {
      var d :| d in es && d.Destroyed?;
      assert d in es + [e];
    }
  }

  lemma LineSnoc(es: seq<Event>, e: Event)
    ensures Line(es + [e]) == Line(es) + LineBy(es, e)
    ensures Dialing(es + [e]) <==> e.Retrying? || (!e.Opened? && !e.Closed? && Dialing(es))
    ensures Up(es + [e]) <==> if e.Opened? then Up(es) || (Dialing(es) && !Gone(es)) else !e.Closed? && !e.Destroyed? && Up(es)
    ensures Failures(es + [e]) == if e.Closed? && !(4000 <= e.code < 4100) then Failures(es) + 1
                                  else if e.Opened? && Dialing(es) then 0 else Failures(es)
  {
    assert (es + [e])[..|es|] == es;
  }

  /** Nothing that the line depends on, or that the app is told of it. */
  predicate SameLine(c: Client, d: Client)
  {
    && d.destroyed == c.destroyed && d.status == c.status && d.retryCount == c.retryCount && d.open == c.open
    && LineCalls(d.calls) == LineCalls(c.calls)
  }

  /** The calls, and that these messages are given back if there are any. */
  function WithBack(calls: seq<Call>, keyId: nat, own: seq<Element>): seq<Call>
  {
    if own == [] then calls else calls + [OnE2eeRejected(keyId, own)]
  }

  lemma ConcludingIs(c: Client, keyId: nat, ids: seq<string>, own: seq<Element>)
    ensures var d := Concluding(c, keyId, ids, own);
            var told := WithBack(c.calls, keyId, own);
            var noted := c.retractedIds + IdsOf(own);
            var repaired := ids != [] && AsSet(ids) <= noted;
            && d.calls == (if repaired then told else told + [OnUnrecoverable(keyId)])
            && d.stateRefused == (c.stateRefused || !repaired) && d.retractedIds == noted
            && d == c.(calls := d.calls, stateRefused := d.stateRefused, retractedIds := d.retractedIds, pending := d.pending)
  {}

  lemma ConcludingKeepsLine(c: Client, keyId: nat, ids: seq<string>, retracted: seq<Element>)
    ensures SameLine(c, Concluding(c, keyId, ids, retracted))
  {
    ConcludingIs(c, keyId, ids, retracted);
    WithBackIsOffLine(c.calls, keyId, retracted);
  }

  lemma WithBackIsOffLine(calls: seq<Call>, keyId: nat, own: seq<Element>)
    ensures LineCalls(WithBack(calls, keyId, own)) == LineCalls(calls)
    ensures LineCalls(WithBack(calls, keyId, own) + [OnUnrecoverable(keyId)]) == LineCalls(calls)
  {
    CallAdds(calls, OnE2eeRejected(keyId, own));
    CallAdds(WithBack(calls, keyId, own), OnUnrecoverable(keyId));
  }

  lemma FrameKeepsLine(c: Client, me: string, frame: ServerFrame, arranged: seq<OpId>)
    requires AllLive(c.store.doc, c.store.order)
    ensures SameLine(c, AfterFrame(c, me, frame, arranged))
  {
    match frame {
      case State(x) => CallAdds(c.calls, OnSynced);
      case RoomEpoch(keyId) => CallAdds(c.calls, OnRoomEpoch(keyId));
      case Rejected(keyId, ids) => RejectionKeepsLine(c, me, keyId, ids);
      case _ =>
    }
  }

  lemma RejectionKeepsLine(c: Client, me: string, keyId: nat, ids: seq<string>)
    requires AllLive(c.store.doc, c.store.order)
    ensures SameLine(c, AfterRejection(c, me, keyId, ids))
  {
    var scan := Scanned(c.store.doc, c.store.order, AsSet(ids), me);
    ScanPartitions(c.store.doc, c.store.order, AsSet(ids), me);
    var retracted := AfterRetraction(c, me, ids);
    assert SameLine(c, retracted);
    if !scan.threw { ConcludingKeepsLine(retracted, keyId, ids, ElementsOf(c.store.doc, scan.removed)); }
  }

  lemma OpenIsTold(c: Client)
    ensures var d := AfterOpen(c);
            && d.status == Connected && d.open && d.retryCount == 0 && d.destroyed == c.destroyed
            && d.calls == c.calls + [OnStatus(Connected)]
  {
    var connected := Calling(c.(retryCount := 0, status := Connected, open := true), OnStatus(Connected));
    var asked := Sending(connected, SendVector(Vector(c.store.doc)));
    FlushedKeeps(asked.(pending := []), c.pending);
  }

  lemma CloseIsTold(c: Client, es: seq<Event>, code: int)
    requires LineOk(c, es) && !c.destroyed
    ensures var d := AfterClose(c, code);
            && LineCalls(d.calls) == LineCalls(c.calls) + LineBy(es, Closed(code))
            && d.retryCount == Failures(es + [Closed(code)])
  {
    LineSnoc(es, Closed(code));
    Backoff.DelaySchedule(0, c.retryCount);
    var told := LineBy(es, Closed(code));
    TwoCallsAdd(c.calls, told[0], told[1]);
    assert AfterClose(c, code).calls == c.calls + [told[0]] + [told[1]];
  }

  lemma TwoCallsAdd(calls: seq<Call>, a: Call, b: Call)
    requires IsLine(a) && IsLine(b)
    ensures LineCalls(calls + [a] + [b]) == LineCalls(calls) + [a, b]
  {
    CallAdds(calls, a);
    CallAdds(calls + [a], b);
  }

  lemma OpenedLineOk(c: Client, me: string, clientId: nat, es: seq<Event>)
    requires c.store.Ok() && LineOk(c, es)
    ensures LineOk(Next(c, me, clientId, Opened), es + [Opened])
  {
    GoneSnoc(es, Opened);
    LineSnoc(es, Opened);
    if !c.destroyed && c.status == Connecting {
      OpenIsTold(c);
      CallAdds(c.calls, OnStatus(Connected));
    }
  }

  lemma ClosedLineOk(c: Client, me: string, clientId: nat, es: seq<Event>, code: int)
    requires c.store.Ok() && LineOk(c, es)
    ensures LineOk(Next(c, me, clientId, Closed(code)), es + [Closed(code)])
  {
    GoneSnoc(es, Closed(code));
    LineSnoc(es, Closed(code));
    if !c.destroyed { CloseIsTold(c, es, code); }
  }

  lemma TypingKeepsLine(c: Client, clientId: nat, values: seq<Json>)
    ensures SameLine(c, AfterTyping(c, clientId, values))
  {}

  /** An event that the line does not depend on. */
  lemma OffLine(c: Client, d: Client, es: seq<Event>, e: Event)
    requires LineOk(c, es) && SameLine(c, d) && (e.Received? || e.Typed?)
    ensures LineOk(d, es + [e])
  {
    GoneSnoc(es, e);
    LineSnoc(es, e);
  }

  lemma RetryingLineOk(c: Client, me: string, clientId: nat, es: seq<Event>)
    requires c.store.Ok() && LineOk(c, es)
    ensures LineOk(Next(c, me, clientId, Retrying), es + [Retrying])
  {
    GoneSnoc(es, Retrying);
    LineSnoc(es, Retrying);
    CallAdds(c.calls, OnStatus(Connecting));
  }

  lemma DestroyedLineOk(c: Client, me: string, clientId: nat, es: seq<Event>)
    requires c.store.Ok() && LineOk(c, es)
    ensures LineOk(Next(c, me, clientId, Destroyed), es + [Destroyed])
  {
    GoneSnoc(es, Destroyed);
    LineSnoc(es, Destroyed);
  }

  lemma ReceivingKeepsLine(c: Client, me: string, clientId: nat, frame: ServerFrame, arranged: seq<OpId>)
    requires c.store.Ok()
    ensures SameLine(c, Next(c, me, clientId, Received(frame, arranged)))
  {
    FrameKeepsLine(c, me, frame, arranged);
  }

  lemma NextLineOk(c: Client, me: string, clientId: nat, es: seq<Event>, e: Event)
    requires c.store.Ok() && LineOk(c, es)
    ensures LineOk(Next(c, me, clientId, e), es + [e])
  {
    match e {
      case Opened => OpenedLineOk(c, me, clientId, es);
      case Closed(code) => ClosedLineOk(c, me, clientId, es, code);
      case Retrying => RetryingLineOk(c, me, clientId, es);
      case Destroyed => DestroyedLineOk(c, me, clientId, es);
      case Received(frame, arranged) =>
        ReceivingKeepsLine(c, me, clientId, frame, arranged);
        OffLine(c, Next(c, me, clientId, e), es, e);
      case Typed(values) =>
        TypingKeepsLine(c, clientId, values);
        OffLine(c, AfterTyping(c, clientId, values), es, e);
    }
  }

  lemma {:induction false} RunLineOk(c: Client, me: string, clientId: nat, es: seq<Event>)
    requires c.store.Ok() && Fresh(c)
    ensures LineOk(Run(c, me, clientId, es), es)
  {
    if es == [] {
      CallAdds([], OnStatus(Connecting));
      assert [] + [OnStatus(Connecting)] == c.calls;
    } else {
      var front, last := es[..|es| - 1], es[|es| - 1];
      assert es == front + [last];
      RunLineOk(c, me, clientId, front);
      RunSnoc(c, me, clientId, front, last);
      var d := Run(c, me, clientId, front);
      NextLineOk(d, me, clientId, front, last);
    }
  }

  /** In every run, what the app is told of the line is what its events call for, no more and in that order. */
  lemma LineIsTold(c: Client, me: string, clientId: nat, es: seq<Event>)
    requires c.store.Ok() && Fresh(c)
    ensures LineCalls(Run(c, me, clientId, es).calls) == Line(es)
  {
    RunLineOk(c, me, clientId, es);
  }

  /**
   A close after k failures since the last open, or since the start, is retried 1 s, 2 s, 4 s, ... 30 s later,
   and one about authentication is not retried at all.
   */
  lemma CloseIsRetried(c: Client, me: string, clientId: nat, es: seq<Event>, code: int)
    requires c.store.Ok() && Fresh(c) && !Gone(es)
    ensures Run(c, me, clientId, es + [Closed(code)]).calls
         == Run(c, me, clientId, es).calls
            + [OnStatus(Disconnected),
               if 4000 <= code < 4100 then OnAuthError(code) else RetryIn(Min(1000 * Backoff.Pow2(Failures(es)), 30000))]
  {
    RunLineOk(c, me, clientId, es);
    RunSnoc(c, me, clientId, es, Closed(code));
    Backoff.DelaySchedule(0, Failures(es));
  }

  // ---------------------------------------------------------------- every local change goes out

  /** The change that an event makes to the document from this side: messages typed, messages retracted. */
  function Change(c: Client, e: Event, d: Client): seq<Delta>
  {
    if (e.Typed? && e.values != []) || (e.Received? && e.frame.Rejected? && d.store.doc != c.store.doc)
    then [Changes(c.store.doc, d.store.doc)] else []
  }

  function Mine(c: Client, me: string, clientId: nat, es: seq<Event>): seq<Delta>
    requires c.store.Ok()
  {
    if es == [] then []
    else
      var front := es[..|es| - 1];
      RunSnoc(c, me, clientId, front, es[|es| - 1]);
      Mine(c, me, clientId, front) + Change(Run(c, me, clientId, front), es[|es| - 1], Run(c, me, clientId, es))
  }

  function UpdatesIn(sent: seq<Outgoing>): seq<Delta>
  {
    if sent == [] then []
    else UpdatesIn(sent[..|sent| - 1]) + (if sent[|sent| - 1].SendUpdate? then [sent[|sent| - 1].x] else [])
  }

  lemma FrameAdds(sent: seq<Outgoing>, f: Outgoing)
    ensures UpdatesIn(sent + [f]) == UpdatesIn(sent) + (if f.SendUpdate? then [f.x] else [])
  {
    assert (sent + [f])[..|sent|] == sent;
  }

  /** What has gone out or waits in the queue is all of it, in order; a client that gave up or is gone keeps a part. */
  predicate Conserved(c: Client, mine: seq<Delta>)
  {
    if c.destroyed || c.stateRefused then UpdatesIn(c.sent) + c.pending <= mine && c.pending == []
    else UpdatesIn(c.sent) + c.pending == mine
  }

  lemma LocalUpdateConserved(c: Client, x: Delta, mine: seq<Delta>)
    requires Conserved(c, mine) && (c.status == Connected && !c.destroyed ==> c.open && c.pending == [])
    ensures Conserved(LocallyUpdated(c, x), mine + [x])
  {
    FrameAdds(c.sent, SendUpdate(x));
  }

  lemma {:induction false} FlushConserved(c: Client, updates: seq<Delta>)
    requires c.open
    ensures UpdatesIn(Flushed(c, updates).sent) == UpdatesIn(c.sent) + updates && Flushed(c, updates).open
  {
    if updates != [] {
      var front, last := updates[..|updates| - 1], updates[|updates| - 1];
      FlushConserved(c, front);
      FrameAdds(Flushed(c, front).sent, SendUpdate(last));
      assert updates == front + [last];
    }
  }

  lemma OpenConserves(c: Client, mine: seq<Delta>)
    requires Conserved(c, mine)
    ensures Conserved(AfterOpen(c), mine) && AfterOpen(c).pending == []
  {
    var connected := Calling(c.(retryCount := 0, status := Connected, open := true), OnStatus(Connected));
    var asked := Sending(connected, SendVector(Vector(c.store.doc))).(pending := []);
    FrameAdds(connected.sent, SendVector(Vector(c.store.doc)));
    FlushConserved(asked, c.pending);
    FlushedKeeps(asked, c.pending);
    FrameAdds(Flushed(asked, c.pending).sent, SendPresence);
  }

  lemma RetractionChanges(s: Store, wanted: set<string>, me: string)
    requires AllLive(s.doc, s.order)
    ensures var removed := Scanned(s.doc, s.order, wanted, me).removed;
            var t := Retracted(s, wanted, me);
            if removed == [] then t.doc == s.doc
            else t.doc != s.doc && Changes(s.doc, t.doc) == Delta(map[], Elements(removed))
  {
    var removed := Scanned(s.doc, s.order, wanted, me).removed;
    ScanPartitions(s.doc, s.order, wanted, me);
    if removed != [] {
      assert removed[0] in s.order && s.doc[removed[0]].Live? && Retracted(s, wanted, me).doc[removed[0]].Deleted?;
    }
  }

  lemma RetractionConserves(c: Client, me: string, ids: seq<string>, mine: seq<Delta>)
    requires AllLive(c.store.doc, c.store.order) && Conserved(c, mine) && OutOk(c)
    ensures var d := AfterRetraction(c, me, ids);
            && Conserved(d, mine + (if d.store.doc != c.store.doc then [Changes(c.store.doc, d.store.doc)] else []))
            && OutOk(d)
  {
    RetractionChanges(c.store, AsSet(ids), me);
    var removed := Scanned(c.store.doc, c.store.order, AsSet(ids), me).removed;
    if removed != [] {
      LocalUpdateConserved(c.(store := Retracted(c.store, AsSet(ids), me)), Delta(map[], Elements(removed)), mine);
    } else {
      assert mine + [] == mine;
    }
  }

  /** A connected client has an open socket and an empty queue. */
  predicate OutOk(c: Client) { c.status == Connected ==> c.pending == [] && (!c.destroyed ==> c.open) }

  lemma RejectionConserves(c: Client, me: string, keyId: nat, ids: seq<string>, mine: seq<Delta>)
    requires AllLive(c.store.doc, c.store.order) && Conserved(c, mine) && OutOk(c)
    ensures var d := AfterRejection(c, me, keyId, ids);
            && Conserved(d, mine + (if d.store.doc != c.store.doc then [Changes(c.store.doc, d.store.doc)] else []))
            && OutOk(d)
  {
    var scan := Scanned(c.store.doc, c.store.order, AsSet(ids), me);
    ScanPartitions(c.store.doc, c.store.order, AsSet(ids), me);
    RetractionConserves(c, me, ids, mine);
    var d := AfterRetraction(c, me, ids);
    if !scan.threw {
      ConcludingConserves(d, keyId, ids, ElementsOf(c.store.doc, scan.removed),
                          mine + (if d.store.doc != c.store.doc then [Changes(c.store.doc, d.store.doc)] else []));
    }
  }

  lemma ConcludingConserves(c: Client, keyId: nat, ids: seq<string>, retracted: seq<Element>, mine: seq<Delta>)
    requires Conserved(c, mine) && OutOk(c)
    ensures var d := Concluding(c, keyId, ids, retracted); Conserved(d, mine) && OutOk(d) && d.store == c.store
  {}

  lemma NextConserves(c: Client, me: string, clientId: nat, e: Event, mine: seq<Delta>)
    requires c.store.Ok() && Conserved(c, mine) && OutOk(c)
    ensures var d := Next(c, me, clientId, e); Conserved(d, mine + Change(c, e, d)) && OutOk(d)
  {
    assert mine + [] == mine;
    match e {
      case Opened => if !c.destroyed && c.status == Connecting { OpenConserves(c, mine); OpenIsTold(c); }
      case Typed(values) =>
        var typed := Appended(c.store, clientId, values);
        if values != [] { LocalUpdateConserved(c.(store := typed), Changes(c.store.doc, typed.doc), mine); }
      case Received(frame, arranged) =>
        if Deliverable(c, frame, arranged) { ReceivedConserves(c, me, frame, arranged, mine); }
      case _ =>
    }
  }

  lemma ReceivedConserves(c: Client, me: string, frame: ServerFrame, arranged: seq<OpId>, mine: seq<Delta>)
    requires AllLive(c.store.doc, c.store.order) && Conserved(c, mine) && OutOk(c)
    ensures var d := AfterFrame(c, me, frame, arranged);
            Conserved(d, mine + Change(c, Received(frame, arranged), d)) && OutOk(d)
  {
    assert mine + [] == mine;
    match frame {
      case Ask(v) => FrameAdds(c.sent, SendAnswer(Diff(c.store.doc, v)));
      case Rejected(keyId, ids) => RejectionConserves(c, me, keyId, ids, mine);
      case _ => OthersSendNothing(c, me, frame, arranged);
    }
  }

  lemma OthersSendNothing(c: Client, me: string, frame: ServerFrame, arranged: seq<OpId>)
    requires AllLive(c.store.doc, c.store.order) && !frame.Ask? && !frame.Rejected?
    ensures var d := AfterFrame(c, me, frame, arranged);
            d == c.(store := d.store, synced := d.synced, calls := d.calls)
  {}

  lemma {:induction false} RunConserves(c: Client, me: string, clientId: nat, es: seq<Event>)
    requires c.store.Ok() && Fresh(c)
    ensures Conserved(Run(c, me, clientId, es), Mine(c, me, clientId, es)) && OutOk(Run(c, me, clientId, es))
  {
    if es != [] {
      var front, last := es[..|es| - 1], es[|es| - 1];
      RunConserves(c, me, clientId, front);
      RunSnoc(c, me, clientId, front, last);
      NextConserves(Run(c, me, clientId, front), me, clientId, last, Mine(c, me, clientId, front));
      assert es == front + [last];
    }
  }

  /**
   Until a client gives up or is destroyed, every change made on its side of the document, in order, has been put
   on an open socket or waits in the queue, however often the line went down; afterwards a part of it has.
   */
  lemma NoChangeIsLost(c: Client, me: string, clientId: nat, es: seq<Event>)
    requires c.store.Ok() && Fresh(c)
    ensures var d := Run(c, me, clientId, es);
            && (!d.destroyed && !d.stateRefused ==> UpdatesIn(d.sent) + d.pending == Mine(c, me, clientId, es))
            && UpdatesIn(d.sent) <= Mine(c, me, clientId, es)
            && (d.status == Connected ==> d.pending == [])
  {
    RunConserves(c, me, clientId, es);
  }

  // ---------------------------------------------------------------- answers

  function AnswersIn(sent: seq<Outgoing>): seq<Delta>
  {
    if sent == [] then []
    else AnswersIn(sent[..|sent| - 1]) + (if sent[|sent| - 1].SendAnswer? then [sent[|sent| - 1].x] else [])
  }

  /** What each question for the state is answered with, unless the socket is down or the client has given up. */
  function Answers(c: Client, me: string, clientId: nat, es: seq<Event>): seq<Delta>
    requires c.store.Ok()
  {
    if es == [] then []
    else
      var front, e := es[..|es| - 1], es[|es| - 1];
      RunSnoc(c, me, clientId, front, e);
      var d := Run(c, me, clientId, front);
      Answers(c, me, clientId, front)
      + (if e.Received? && e.frame.Ask? && Up(front) && !d.stateRefused then [Diff(d.store.doc, e.frame.vector)] else [])
  }

  lemma AnswerAdds(sent: seq<Outgoing>, f: Outgoing)
    ensures AnswersIn(sent + [f]) == AnswersIn(sent) + (if f.SendAnswer? then [f.x] else [])
  {
    assert (sent + [f])[..|sent|] == sent;
  }

  lemma {:induction false} FlushAnswersNothing(c: Client, updates: seq<Delta>)
    ensures AnswersIn(Flushed(c, updates).sent) == AnswersIn(c.sent)
  {
    if updates != [] {
      FlushAnswersNothing(c, updates[..|updates| - 1]);
      AnswerAdds(Flushed(c, updates[..|updates| - 1]).sent, SendUpdate(updates[|updates| - 1]));
    }
  }

  lemma OpenAnswersNothing(c: Client)
    ensures AnswersIn(AfterOpen(c).sent) == AnswersIn(c.sent)
  {
    var connected := Calling(c.(retryCount := 0, status := Connected, open := true), OnStatus(Connected));
    var asked := Sending(connected, SendVector(Vector(c.store.doc))).(pending := []);
    AnswerAdds(connected.sent, SendVector(Vector(c.store.doc)));
    FlushAnswersNothing(asked, c.pending);
    AnswerAdds(Flushed(asked, c.pending).sent, SendPresence);
  }

  lemma LocalUpdateAnswersNothing(c: Client, x: Delta)
    ensures AnswersIn(LocallyUpdated(c, x).sent) == AnswersIn(c.sent)
  {
    AnswerAdds(c.sent, SendUpdate(x));
  }

  lemma RejectionAnswersNothing(c: Client, me: string, keyId: nat, ids: seq<string>)
    requires AllLive(c.store.doc, c.store.order)
    ensures AnswersIn(AfterRejection(c, me, keyId, ids).sent) == AnswersIn(c.sent)
  {
    var removed := Scanned(c.store.doc, c.store.order, AsSet(ids), me).removed;
    LocalUpdateAnswersNothing(c.(store := Retracted(c.store, AsSet(ids), me)), Delta(map[], Elements(removed)));
    assert AfterRejection(c, me, keyId, ids).sent == AfterRetraction(c, me, ids).sent;
  }

  lemma NextAnswers(c: Client, me: string, clientId: nat, e: Event)
    requires c.store.Ok()
    ensures AnswersIn(Next(c, me, clientId, e).sent) == AnswersIn(c.sent)
              + (if e.Received? && e.frame.Ask? && c.open && !c.stateRefused then [Diff(c.store.doc, e.frame.vector)] else [])
  {
    match e {
      case Opened => OpenAnswersNothing(c);
      case Typed(values) =>
        var typed := Appended(c.store, clientId, values);
        LocalUpdateAnswersNothing(c.(store := typed), Changes(c.store.doc, typed.doc));
      case Received(frame, arranged) =>
        if frame.Rejected? { RejectionAnswersNothing(c, me, frame.keyId, frame.ids); }
        if frame.Ask? { AnswerAdds(c.sent, SendAnswer(Diff(c.store.doc, frame.vector))); }
      case _ =>
    }
  }

  lemma AnswersSnoc(c: Client, me: string, clientId: nat, es: seq<Event>)
    requires c.store.Ok() && es != []
    ensures var front, e := es[..|es| - 1], es[|es| - 1];
            var d := Run(c, me, clientId, front);
            Answers(c, me, clientId, es) == Answers(c, me, clientId, front)
              + (if e.Received? && e.frame.Ask? && Up(front) && !d.stateRefused then [Diff(d.store.doc, e.frame.vector)] else [])
  {}

  /** In every run each question that finds the socket up, and only that, is answered, from the document of that moment. */
  lemma {:induction false} EachQuestionIsAnswered(c: Client, me: string, clientId: nat, es: seq<Event>)
    requires c.store.Ok() && Fresh(c)
    ensures AnswersIn(Run(c, me, clientId, es).sent) == Answers(c, me, clientId, es)
  {
    if es != [] {
      var front, last := es[..|es| - 1], es[|es| - 1];
      assert es == front + [last];
      EachQuestionIsAnswered(c, me, clientId, front);
      RunSnoc(c, me, clientId, front, last);
      RunLineOk(c, me, clientId, front);
      AnswersSnoc(c, me, clientId, es);
      NextAnswers(Run(c, me, clientId, front), me, clientId, last);
    }
  }

  // ---------------------------------------------------------------- what the app is told of the server's frames

  predicate IsServed(call: Call) { call.OnRoomEpoch? || call.OnSynced? }

  function ServedCalls(calls: seq<Call>): seq<Call>
  {
    if calls == [] then []
    else ServedCalls(calls[..|calls| - 1]) + (if IsServed(calls[|calls| - 1]) then [calls[|calls| - 1]] else [])
  }

  /** The first full state has been applied. */
  predicate HadState(c: Client, me: string, clientId: nat, es: seq<Event>)
    requires c.store.Ok()
  {
    es != []
    && (HadState(c, me, clientId, es[..|es| - 1])
        || (var e := es[|es| - 1];
            e.Received? && e.frame.State? && Deliverable(Run(c, me, clientId, es[..|es| - 1]), e.frame, e.arranged)))
  }

  function Served(c: Client, me: string, clientId: nat, es: seq<Event>): seq<Call>
    requires c.store.Ok()
  {
    if es == [] then []
    else
      var front, e := es[..|es| - 1], es[|es| - 1];
      Served(c, me, clientId, front)
      + (if e.Received? && e.frame.RoomEpoch? then [OnRoomEpoch(e.frame.keyId)]
         else if HadState(c, me, clientId, es) && !HadState(c, me, clientId, front) then [OnSynced]
         else [])
  }

  lemma ServedAdds(calls: seq<Call>, call: Call)
    ensures ServedCalls(calls + [call]) == ServedCalls(calls) + (if IsServed(call) then [call] else [])
  {
    assert (calls + [call])[..|calls|] == calls;
  }

  predicate SameServed(c: Client, d: Client) { d.synced == c.synced && ServedCalls(d.calls) == ServedCalls(c.calls) }

  lemma ConcludingServesNothing(c: Client, keyId: nat, ids: seq<string>, retracted: seq<Element>)
    ensures SameServed(c, Concluding(c, keyId, ids, retracted))
  {
    ConcludingIs(c, keyId, ids, retracted);
    ServedAdds(c.calls, OnE2eeRejected(keyId, retracted));
    ServedAdds(WithBack(c.calls, keyId, retracted), OnUnrecoverable(keyId));
  }

  lemma RejectionServesNothing(c: Client, me: string, keyId: nat, ids: seq<string>)
    requires AllLive(c.store.doc, c.store.order)
    ensures SameServed(c, AfterRejection(c, me, keyId, ids))
  {
    var scan := Scanned(c.store.doc, c.store.order, AsSet(ids), me);
    ScanPartitions(c.store.doc, c.store.order, AsSet(ids), me);
    var retracted := AfterRetraction(c, me, ids);
    assert SameServed(c, retracted);
    if !scan.threw { ConcludingServesNothing(retracted, keyId, ids, ElementsOf(c.store.doc, scan.removed)); }
  }

  lemma CloseServesNothing(c: Client, code: int)
    ensures SameServed(c, AfterClose(c, code))
  {
    var last := if 4000 <= code < 4100 then OnAuthError(code) else RetryIn(Backoff.Delay(c.retryCount));
    ServedAdds(c.calls, OnStatus(Disconnected));
    ServedAdds(c.calls + [OnStatus(Disconnected)], last);
  }

  lemma OpenServesNothing(c: Client)
    ensures SameServed(c, AfterOpen(c))
  {
    var connected := Calling(c.(retryCount := 0, status := Connected, open := true), OnStatus(Connected));
    var asked := Sending(connected, SendVector(Vector(c.store.doc)));
    FlushedKeeps(asked.(pending := []), c.pending);
    ServedAdds(c.calls, OnStatus(Connected));
  }

  lemma FrameServes(c: Client, me: string, frame: ServerFrame, arranged: seq<OpId>)
    requires AllLive(c.store.doc, c.store.order)
    ensures var d := AfterFrame(c, me, frame, arranged);
            && d.synced == (c.synced || frame.State?)
            && ServedCalls(d.calls) == ServedCalls(c.calls)
                 + (if frame.RoomEpoch? then [OnRoomEpoch(frame.keyId)] else if frame.State? && !c.synced then [OnSynced] else [])
  {
    match frame {
      case Rejected(keyId, ids) => RejectionServesNothing(c, me, keyId, ids);
      case RoomEpoch(keyId) => ServedAdds(c.calls, OnRoomEpoch(keyId));
      case State(x) => ServedAdds(c.calls, OnSynced);
      case _ =>
    }
  }

  lemma NextServes(c: Client, me: string, clientId: nat, e: Event)
    requires c.store.Ok()
    ensures var d := Next(c, me, clientId, e);
            var state := e.Received? && e.frame.State? && Deliverable(c, e.frame, e.arranged);
            && d.synced == (c.synced || state)
            && ServedCalls(d.calls) == ServedCalls(c.calls)
                 + (if e.Received? && e.frame.RoomEpoch? then [OnRoomEpoch(e.frame.keyId)]
                    else if state && !c.synced then [OnSynced] else [])
  {
    match e {
      case Opened => OpenServesNothing(c);
      case Closed(code) => CloseServesNothing(c, code);
      case Retrying => ServedAdds(c.calls, OnStatus(Connecting));
      case Received(frame, arranged) => if Deliverable(c, frame, arranged) { FrameServes(c, me, frame, arranged); }
      case Typed(values) => TypingGivesNothingBack(c, clientId, values);
      case _ =>
    }
  }

  /** The app hears of each epoch frame, and once, at the first full state that is applied, that it is in step. */
  lemma {:induction false} FramesAreTold(c: Client, me: string, clientId: nat, es: seq<Event>)
    requires c.store.Ok() && Fresh(c)
    ensures ServedCalls(Run(c, me, clientId, es).calls) == Served(c, me, clientId, es)
    ensures Run(c, me, clientId, es).synced == HadState(c, me, clientId, es)
  {
    if es == [] {
      ServedAdds([], OnStatus(Connecting));
      assert [] + [OnStatus(Connecting)] == c.calls;
    } else {
      var front, last := es[..|es| - 1], es[|es| - 1];
      FramesAreTold(c, me, clientId, front);
      RunSnoc(c, me, clientId, front, last);
      NextServes(Run(c, me, clientId, front), me, clientId, last);
      assert es == front + [last];
    }
  }

  // ---------------------------------------------------------------- rejections

  /** A message of one's own that a rejection names. */
  predicate OwnAndNamed(e: Element, ids: seq<string>, me: string)
  {
    && e.Plain? && e.value.Obj?
    && "id" in e.value.fields && e.value.fields["id"].Str? && e.value.fields["id"].s in ids
    && "userId" in e.value.fields && e.value.fields["userId"] == Str(me)
  }

  /** Those in the array, in its order. */
  function OwnNamed(doc: Doc, order: seq<OpId>, ids: seq<string>, me: string): seq<Element>
    requires AllLive(doc, order)
  {
    if order == [] then []
    else
      var e := doc[order[|order| - 1]].element;
      OwnNamed(doc, order[..|order| - 1], ids, me) + (if OwnAndNamed(e, ids, me) then [e] else [])
  }

  predicate HoldsNull(doc: Doc, order: seq<OpId>)
    requires AllLive(doc, order)
  {
    exists id :: id in order && doc[id].element == Plain(Null)
  }

  /** The ids of the messages that the app has been given back. */
  function GivenBack(calls: seq<Call>): set<string>
  {
    if calls == [] then {}
    else
      var last := calls[|calls| - 1];
      GivenBack(calls[..|calls| - 1])
      + if last.OnE2eeRejected?
        then set e | e in last.retracted && e.Plain? && e.value.Obj? && "id" in e.value.fields && e.value.fields["id"].Str? ::
               e.value.fields["id"].s
        else {}
  }

  /** There are ids, and the app has been given back a message for each of them. */
  predicate Repaired(calls: seq<Call>, ids: seq<string>) { ids != [] && forall id | id in ids :: id in GivenBack(calls) }

  /**
   What a rejection makes the provider tell the app: its own named messages back, and that it is beyond repair
   unless all that was named has been given back by now.  A null in the array throws first.
   */
  predicate RejectionTold(c: Client, me: string, keyId: nat, ids: seq<string>, d: Client)
    requires AllLive(c.store.doc, c.store.order)
  {
    if HoldsNull(c.store.doc, c.store.order) then d.calls == c.calls && d.stateRefused == c.stateRefused
    else
      var told := WithBack(c.calls, keyId, OwnNamed(c.store.doc, c.store.order, ids, me));
      if Repaired(told, ids) then d.calls == told && d.stateRefused == c.stateRefused
      else d.calls == told + [OnUnrecoverable(keyId)] && d.stateRefused
  }

  lemma {:induction false} ScanFindsOwn(doc: Doc, order: seq<OpId>, ids: seq<string>, me: string)
    requires AllLive(doc, order) && !Scanned(doc, order, AsSet(ids), me).threw
    ensures var removed := Scanned(doc, order, AsSet(ids), me).removed;
            AllLive(doc, removed) && ElementsOf(doc, removed) == OwnNamed(doc, order, ids, me)
  {
    ScanPartitions(doc, order, AsSet(ids), me);
    if order != [] {
      var front, last := order[..|order| - 1], order[|order| - 1];
      ScanFindsOwn(doc, front, ids, me);
      ElementsSnoc(doc, Scanned(doc, front, AsSet(ids), me).removed, last);
    }
  }

  lemma ElementsSnoc(doc: Doc, ids: seq<OpId>, last: OpId)
    requires AllLive(doc, ids) && last in doc && doc[last].Live?
    ensures AllLive(doc, ids + [last]) && ElementsOf(doc, ids + [last]) == ElementsOf(doc, ids) + [doc[last].element]
  {}

  lemma GivenBackAdds(calls: seq<Call>, call: Call)
    ensures GivenBack(calls + [call]) == GivenBack(calls) + (if call.OnE2eeRejected? then IdsOf(call.retracted) else {})
  {
    assert (calls + [call])[..|calls|] == calls;
  }

  lemma ConcludingTells(c: Client, keyId: nat, ids: seq<string>, own: seq<Element>)
    requires c.retractedIds == GivenBack(c.calls)
    ensures var d := Concluding(c, keyId, ids, own);
            var told := WithBack(c.calls, keyId, own);
            && d.calls == (if Repaired(told, ids) then told else told + [OnUnrecoverable(keyId)])
            && d.stateRefused == (c.stateRefused || !Repaired(told, ids))
            && d.retractedIds == GivenBack(d.calls)
  {
    var told := WithBack(c.calls, keyId, own);
    BackIsGiven(c.calls, keyId, own);
    AllNamed(ids, GivenBack(told));
    GivenBackAdds(told, OnUnrecoverable(keyId));
    ConcludingIs(c, keyId, ids, own);
  }

  lemma BackIsGiven(calls: seq<Call>, keyId: nat, own: seq<Element>)
    ensures GivenBack(WithBack(calls, keyId, own)) == GivenBack(calls) + IdsOf(own)
  {
    GivenBackAdds(calls, OnE2eeRejected(keyId, own));
  }

  lemma AllNamed(ids: seq<string>, back: set<string>)
    ensures AsSet(ids) <= back <==> forall id | id in ids :: id in back
  {}

  lemma RetractionTellsNothing(c: Client, me: string, ids: seq<string>)
    requires AllLive(c.store.doc, c.store.order)
    ensures var d := AfterRetraction(c, me, ids);
            d.calls == c.calls && d.retractedIds == c.retractedIds && d.stateRefused == c.stateRefused
  {}

  lemma RejectionIsToldNow(c: Client, me: string, keyId: nat, ids: seq<string>)
    requires AllLive(c.store.doc, c.store.order) && c.retractedIds == GivenBack(c.calls)
    ensures RejectionTold(c, me, keyId, ids, AfterRejection(c, me, keyId, ids))
    ensures AfterRejection(c, me, keyId, ids).retractedIds == GivenBack(AfterRejection(c, me, keyId, ids).calls)
  {
    var scan := Scanned(c.store.doc, c.store.order, AsSet(ids), me);
    ScanIsExact(c.store.doc, c.store.order, AsSet(ids), me);
    ScanPartitions(c.store.doc, c.store.order, AsSet(ids), me);
    RetractionTellsNothing(c, me, ids);
    if !scan.threw {
      ScanFindsOwn(c.store.doc, c.store.order, ids, me);
      ConcludingTells(AfterRetraction(c, me, ids), keyId, ids, ElementsOf(c.store.doc, scan.removed));
    }
  }

  lemma CloseGivesNothingBack(c: Client, code: int)
    ensures GivenBack(AfterClose(c, code).calls) == GivenBack(c.calls)
  {
    var last := if 4000 <= code < 4100 then OnAuthError(code) else RetryIn(Backoff.Delay(c.retryCount));
    GivenBackAdds(c.calls, OnStatus(Disconnected));
    GivenBackAdds(c.calls + [OnStatus(Disconnected)], last);
  }

  lemma OpenGivesNothingBack(c: Client)
    ensures GivenBack(AfterOpen(c).calls) == GivenBack(c.calls) && AfterOpen(c).retractedIds == c.retractedIds
  {
    var connected := Calling(c.(retryCount := 0, status := Connected, open := true), OnStatus(Connected));
    var asked := Sending(connected, SendVector(Vector(c.store.doc)));
    FlushedKeeps(asked.(pending := []), c.pending);
    GivenBackAdds(c.calls, OnStatus(Connected));
  }

  lemma FrameGivesBack(c: Client, me: string, frame: ServerFrame, arranged: seq<OpId>)
    requires AllLive(c.store.doc, c.store.order) && c.retractedIds == GivenBack(c.calls)
    ensures AfterFrame(c, me, frame, arranged).retractedIds == GivenBack(AfterFrame(c, me, frame, arranged).calls)
  {
    match frame {
      case Rejected(keyId, ids) => RejectionIsToldNow(c, me, keyId, ids);
      case RoomEpoch(keyId) => GivenBackAdds(c.calls, OnRoomEpoch(keyId));
      case State(x) => GivenBackAdds(c.calls, OnSynced);
      case _ =>
    }
  }

  lemma TypingGivesNothingBack(c: Client, clientId: nat, values: seq<Json>)
    ensures AfterTyping(c, clientId, values).calls == c.calls && AfterTyping(c, clientId, values).retractedIds == c.retractedIds
  {}

  lemma NextGivesBack(c: Client, me: string, clientId: nat, e: Event)
    requires c.store.Ok() && c.retractedIds == GivenBack(c.calls)
    ensures Next(c, me, clientId, e).retractedIds == GivenBack(Next(c, me, clientId, e).calls)
  {
    match e {
      case Opened => OpenGivesNothingBack(c);
      case Closed(code) => CloseGivesNothingBack(c, code);
      case Retrying => GivenBackAdds(c.calls, OnStatus(Connecting));
      case Received(frame, arranged) => if Deliverable(c, frame, arranged) { FrameGivesBack(c, me, frame, arranged); }
      case Typed(values) => TypingGivesNothingBack(c, clientId, values);
      case _ =>
    }
  }

  lemma {:induction false} RunGivesBack(c: Client, me: string, clientId: nat, es: seq<Event>)
    requires c.store.Ok() && Fresh(c)
    ensures Run(c, me, clientId, es).retractedIds == GivenBack(Run(c, me, clientId, es).calls)
  {
    if es == [] {
      GivenBackAdds([], OnStatus(Connecting));
      assert [] + [OnStatus(Connecting)] == c.calls;
    } else {
      var front, last := es[..|es| - 1], es[|es| - 1];
      RunGivesBack(c, me, clientId, front);
      RunSnoc(c, me, clientId, front, last);
      NextGivesBack(Run(c, me, clientId, front), me, clientId, last);
      assert es == front + [last];
    }
  }

  /**
   In every run a rejection gives the app back exactly its own named messages of the array, in order, and the
   client gives up exactly if it named nothing, or something that has never been given back.
   */
  lemma RejectionsAreTold(c: Client, me: string, clientId: nat, es: seq<Event>, keyId: nat, ids: seq<string>, arranged: seq<OpId>)
    requires c.store.Ok() && Fresh(c)
    ensures Run(c, me, clientId, es).store.Ok()
    ensures RejectionTold(Run(c, me, clientId, es), me, keyId, ids,
                          Run(c, me, clientId, es + [Received(Rejected(keyId, ids), arranged)]))
  {
    var e := Received(Rejected(keyId, ids), arranged);
    RunSnoc(c, me, clientId, es, e);
    RunGivesBack(c, me, clientId, es);
    var d := Run(c, me, clientId, es);
    assert Run(c, me, clientId, es + [e]) == AfterRejection(d, me, keyId, ids) by {
      NextOfRejected(d, me, clientId, keyId, ids, arranged);
    }
    RejectionIsToldNow(d, me, keyId, ids);
  }

  lemma NextOfRejected(c: Client, me: string, clientId: nat, keyId: nat, ids: seq<string>, arranged: seq<OpId>)
    requires c.store.Ok()
    ensures Next(c, me, clientId, Received(Rejected(keyId, ids), arranged)) == AfterRejection(c, me, keyId, ids)
  {}
}
