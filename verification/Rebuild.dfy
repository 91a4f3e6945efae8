/**
 Discarding a document the server keeps refusing and rebuilding it from the server: the recovery glue of
 apps/mobile/src/hooks/useSync.ts:196-212 over SyncEngine.reinsertMessages.
 */
module Rebuild {
  import opened Common
  import opened JsonText
  import opened Replica
  import opened Engine
  import Envelope

  /** One of the user's own messages that is already encrypted. */
  predicate IsOwnSealed(e: Element, me: string)
  {
    HasField(e, "userId") && Field(e, "userId") == me && HasField(e, "content")
    && StartsWith(Field(e, "content"), Envelope.PREFIX)
  }

  /** The filter throws on null, and on an own element whose content is not a string. */
  predicate Trips(e: Element, me: string)
  {
    IsNull(e) || (HasField(e, "userId") && Field(e, "userId") == me && !HasField(e, "content"))
  }

  function Values(s: Store, n: nat): (es: seq<Element>)
    requires AllLive(s.doc, s.order) && n <= |s.order|
    ensures |es| == n && forall i | 0 <= i < n :: es[i] == s.doc[s.order[i]].element
  {
    if n == 0 then [] else
      assert s.order[n - 1] in s.order;
      Values(s, n - 1) + [s.doc[s.order[n - 1]].element]
  }

  function AllValues(s: Store): seq<Element>
    requires AllLive(s.doc, s.order)
  {
    Values(s, |s.order|)
  }

  /** The messages worth keeping, in array order. */
  function Kept(es: seq<Element>, me: string): seq<Json>
  {
    if es == [] then []
    else
      var last := es[|es| - 1];
      Kept(es[..|es| - 1], me) + (if IsOwnSealed(last, me) then [last.value] else [])
  }

  /**
   `client` is the id the engine's document types under; every document has one of its own.  `discarding`:
   discard() was called, and the document is thrown away once it has resolved.
   */
  datatype App = App(client: nat, store: Store, synced: bool, stash: Option<seq<Json>>, discarding: bool)
  {
    ghost predicate Ok() { store.Ok() }
  }

  datatype Event =
    | Rejected                                   // a rejection the provider cannot repair
    | Rebuilt(client: nat)                       // discard() has resolved: a new engine, a new provider
    | Server(x: Delta, arranged: seq<OpId>, step2: bool)   // from the server: a step2, or an update
    | Typed(values: seq<Json>)

  predicate Throws(s: Store, me: string)
    requires AllLive(s.doc, s.order)
  {
    exists e | e in AllValues(s) :: Trips(e, me)
  }

  /** Null, or an object of the user's own whose content is no string. */
  predicate Unreadable(v: Json, me: string)
  {
    v.Null? || (v.Obj? && "userId" in v.fields && v.fields["userId"] == Str(me)
                && !("content" in v.fields && v.fields["content"].Str?))
  }

  /** The filter throws exactly when the array holds such a value. */
  lemma ThrowsExactlyWhen(s: Store, me: string)
    requires AllLive(s.doc, s.order)
    ensures Throws(s, me) <==>
            exists id :: id in s.order && s.doc[id].element.Plain? && Unreadable(s.doc[id].element.value, me)
  {
    if Throws(s, me) {
      var e :| e in AllValues(s) && Trips(e, me);
      var i :| 0 <= i < |s.order| && AllValues(s)[i] == e;
      assert s.order[i] in s.order;
    }
    forall id | id in s.order && Trips(s.doc[id].element, me) ensures Throws(s, me) {
      var i :| 0 <= i < |s.order| && s.order[i] == id;
      assert AllValues(s)[i] in AllValues(s);
    }
  }

  /** The callback throws before it does anything, or adds to the stash and starts to discard. */
  function AfterRejected(a: App, me: string): App
    requires AllLive(a.store.doc, a.store.order)
  {
    if Throws(a.store, me) then a
    else
      a.(stash := Some((if a.stash.Some? then a.stash.value else []) + Kept(AllValues(a.store), me)), discarding := true)
  }

  /** A null element makes it throw before anything is put back. */
  function Reinserted(s: Store, client: nat, stash: seq<Json>): Store
    requires AllLive(s.doc, s.order)
  {
    if HasNull(s) then s else Appended(s, client, Missing(stash, PresentIds(s)))
  }

  /** What the discard leaves: nothing but the stash. */
  function AfterRebuilt(a: App, client: nat): App
  {
    if a.discarding then App(client, Store(map[], []), false, a.stash, false) else a
  }

  /** The first step2 a provider receives puts the stash back. */
  function AfterServer(a: App, x: Delta, arranged: seq<OpId>, step2: bool): App
    requires Arranges(arranged, Absorb(a.store.doc, x))
  {
    var applied := a.(store := Store(Absorb(a.store.doc, x), arranged), synced := a.synced || step2);
    if a.synced || !step2 || a.stash.None? then applied
    else applied.(store := Reinserted(applied.store, a.client, a.stash.value), stash := None)
  }

  function Next(a: App, me: string, e: Event): App
    requires AllLive(a.store.doc, a.store.order)
  {
    match e
    case Rejected => AfterRejected(a, me)
    case Rebuilt(client) => AfterRebuilt(a, client)
    case Server(x, arranged, step2) =>
      if Arranges(arranged, Absorb(a.store.doc, x)) then AfterServer(a, x, arranged, step2) else a
    case Typed(values) => a.(store := Appended(a.store, a.client, values))
  }

  lemma NextIsOk(a: App, me: string, e: Event)
    requires a.Ok()
    ensures Next(a, me, e).Ok()
  {
    match e
    case Rejected =>
    case Rebuilt(_) =>
    case Typed(values) => AppendedIsOk(a.store, a.client, values);
    case Server(x, arranged, step2) =>
      if Arranges(arranged, Absorb(a.store.doc, x)) {
        AbsorbIsDense(a.store.doc, x);
        var applied := Store(Absorb(a.store.doc, x), arranged);
        if a.stash.Some? { AppendedIsOk(applied, a.client, Missing(a.stash.value, PresentIds(applied))); }
      }
  }

  ghost function Run(a: App, me: string, es: seq<Event>): (r: App)
    requires a.Ok()
    ensures r.Ok()
    decreases |es|
  {
    if es == [] then a
    else
      var b := Run(a, me, es[..|es| - 1]);
      NextIsOk(b, me, es[|es| - 1]);
      Next(b, me, es[|es| - 1])
  }

  /** A step2 has been applied since the provider was made. */
  ghost predicate HadStep2(a: App, me: string, es: seq<Event>)
    requires a.Ok()
    decreases |es|
  {
    if es == [] then a.synced
    else
      var front := es[..|es| - 1];
      match es[|es| - 1]
      case Server(x, arranged, step2) =>
        HadStep2(a, me, front) || (step2 && Arranges(arranged, Absorb(Run(a, me, front).store.doc, x)))
      case Rebuilt(_) => HadStep2(a, me, front) && !Run(a, me, front).discarding
      case _ => HadStep2(a, me, front)
  }

  /** A provider is synced from its first step2 on, so at most one in its life can spend the stash. */
  lemma {:induction false} SyncedExactlyWhen(a: App, me: string, es: seq<Event>)
    requires a.Ok()
    ensures Run(a, me, es).synced <==> HadStep2(a, me, es)
    decreases |es|
  {
    if es != [] {
      SyncedExactlyWhen(a, me, es[..|es| - 1]);
      NextIsOk(Run(a, me, es[..|es| - 1]), me, es[|es| - 1]);
    }
  }

  // ---------------------------------------------------------------- putting the stash back

  lemma {:induction false} KeptIsExact(es: seq<Element>, me: string, m: Json)
    ensures m in Kept(es, me) <==>
            && Plain(m) in es && m.Obj? && "userId" in m.fields && m.fields["userId"] == Str(me)
            && "content" in m.fields && m.fields["content"].Str? && "E2E1" <= m.fields["content"].s
    decreases |es|
  {
    if es != [] {
      var front, last := es[..|es| - 1], es[|es| - 1];
      KeptIsExact(front, me, m);
      assert es == front + [last];
    }
  }

  predicate Holds(s: Store, m: Json)
    requires AllLive(s.doc, s.order)
  {
    exists id | id in s.order :: s.doc[id].element == Plain(m)
  }

  /** Everything in s is in t as it is, in the same order. */
  predicate Extends(s: Store, t: Store)
  {
    s.order <= t.order && forall id | id in s.doc :: id in t.doc && t.doc[id] == s.doc[id]
  }

  /** Exactly those of the messages are there that already were, or whose id was not. */
  predicate Conserved(ms: seq<Json>, before: Store, after: Store)
    requires AllLive(before.doc, before.order) && AllLive(after.doc, after.order)
  {
    forall m | m in ms :: Holds(after, m) <==> Holds(before, m) || IdOf(m) !in PresentIds(before)
  }

  /** Messages as they are written: each with a string id. */
  predicate HaveIds(ms: seq<Json>) { forall m | m in ms :: HasField(Plain(m), "id") }

  /** An element of the new array was in the old one, or is one of those appended. */
  lemma Origin(s: Store, client: nat, missing: seq<Json>, i: nat)
    requires s.Ok() && i < |Appended(s, client, missing).order|
    ensures var t := Appended(s, client, missing);
            && t.order[i] in t.doc && |t.order| == |s.order| + |missing|
            && if i < |s.order| then t.order[i] == s.order[i] && s.order[i] in s.doc && t.doc[t.order[i]] == s.doc[s.order[i]]
               else t.doc[t.order[i]] == Live(Plain(missing[i - |s.order|])) && missing[i - |s.order|] in missing
  {
    var t := Appended(s, client, missing);
    AppendedIsOk(s, client, missing);
    if i < |s.order| {
      assert t.order[i] == t.order[..|s.order|][i];
      assert s.order[i] in s.order;
    } else {
      assert t.order[i] == t.order[|s.order| + (i - |s.order|)];
    }
  }

  lemma HeldBefore(s: Store, client: nat, missing: seq<Json>, m: Json)
    requires s.Ok() && Appended(s, client, missing).Ok() && Holds(Appended(s, client, missing), m)
    ensures Holds(s, m) || m in missing
  {
    var t := Appended(s, client, missing);
    var i: nat :| i < |t.order| && t.doc[t.order[i]].element == Plain(m);
    Origin(s, client, missing, i);
    if i < |s.order| { assert s.order[i] in s.order; }
  }

  lemma PutBackHolds(s: Store, client: nat, stash: seq<Json>, m: Json)
    requires s.Ok() && !HasNull(s) && m in stash
    ensures var t := Reinserted(s, client, stash);
            t.Ok() && (Holds(t, m) <==> Holds(s, m) || IdOf(m) !in PresentIds(s))
  {
    var missing := Missing(stash, PresentIds(s));
    AppendedIsOk(s, client, missing);
    MissingIsExact(stash, PresentIds(s), m);
    if Holds(Appended(s, client, missing), m) { HeldBefore(s, client, missing, m); }
    if m in missing { AppendedIsHeld(s, client, missing, m); }
    if Holds(s, m) { HeldIsKept(s, Appended(s, client, missing), m); }
  }

  lemma AppendedIsHeld(s: Store, client: nat, missing: seq<Json>, m: Json)
    requires s.Ok() && m in missing
    ensures Appended(s, client, missing).Ok() && Holds(Appended(s, client, missing), m)
  {
    var t := Appended(s, client, missing);
    AppendedIsOk(s, client, missing);
    var i :| 0 <= i < |missing| && missing[i] == m;
    assert t.order[|s.order| + i] in t.order;
  }

  lemma HeldIsKept(s: Store, t: Store, m: Json)
    requires s.Ok() && t.Ok() && Extends(s, t) && Holds(s, m)
    ensures Holds(t, m)
  {
    var i :| 0 <= i < |s.order| && s.doc[s.order[i]].element == Plain(m);
    assert t.order[i] == s.order[i] && t.order[i] in t.order;
  }

  /** Everything the server sent stays as it is, and what was stashed comes back, unless the document holds a null. */
  lemma ReinsertConserves(s: Store, client: nat, stash: seq<Json>)
    requires s.Ok() && HaveIds(stash)
    ensures var t := Reinserted(s, client, stash);
            && t.Ok() && Extends(s, t)
            && (Conserved(stash, s, t) <==> !HasNull(s) || Missing(stash, PresentIds(s)) == [])
  {
    AppendedIsOk(s, client, Missing(stash, PresentIds(s)));
    if HasNull(s) {
      NothingPutBack(s, stash);
    } else {
      forall m | m in stash { PutBackHolds(s, client, stash, m); }
    }
  }

  lemma NothingPutBack(s: Store, stash: seq<Json>)
    requires s.Ok() && HaveIds(stash)
    ensures Conserved(stash, s, s) <==> Missing(stash, PresentIds(s)) == []
  {
    var missing := Missing(stash, PresentIds(s));
    forall m | m in stash ensures m in missing <==> IdOf(m) !in PresentIds(s) { MissingIsExact(stash, PresentIds(s), m); }
    forall m | m in stash && Holds(s, m) ensures IdOf(m) in PresentIds(s) {
      var id :| id in s.order && s.doc[id].element == Plain(m);
    }
    if missing != [] {
      MissingIsExact(stash, PresentIds(s), missing[0]);
      assert missing[0] in missing;
    }
  }

  /** Nobody else's element carries the id of one of these messages. */
  predicate NoOtherHasTheirId(s: Store, ms: seq<Json>)
    requires AllLive(s.doc, s.order)
  {
    forall m, id | m in ms && id in s.order && SameId(s.doc[id].element, Plain(m)) :: s.doc[id].element == Plain(m)
  }

  /** With unique ids every message is there. */
  lemma AllHeld(ms: seq<Json>, before: Store, after: Store)
    requires before.Ok() && after.Ok() && HaveIds(ms) && NoOtherHasTheirId(before, ms) && Conserved(ms, before, after)
    ensures forall m | m in ms :: Holds(after, m)
  {
    forall m | m in ms ensures Holds(after, m) {
      if IdOf(m) in PresentIds(before) {
        var id :| id in before.order && HasField(before.doc[id].element, "id") && Field(before.doc[id].element, "id") == IdOf(m);
        assert SameId(before.doc[id].element, Plain(m));
        assert Holds(before, m);
      }
    }
  }

  // ---------------------------------------------------------------- the stash waits for the rebuild

  predicate NoRebuild(es: seq<Event>) { forall e | e in es :: !e.Rebuilt? }

  predicate NoStep2(es: seq<Event>) { forall e | e in es :: !(e.Server? && e.step2) && !e.Rebuilt? }

  /** Nothing spends the stash of a synced provider, or before the next step2; later rejections only add to it. */
  lemma {:induction false} StashWaits(a: App, me: string, es: seq<Event>)
    requires a.Ok() && a.stash.Some? && (if a.synced then NoRebuild(es) else NoStep2(es))
    ensures var b := Run(a, me, es);
            b.synced == a.synced && b.stash.Some? && a.stash.value <= b.stash.value
    decreases |es|
  {
    if es != [] {
      StashWaits(a, me, es[..|es| - 1]);
      assert es[|es| - 1] in es;
    }
  }

  /** A rejection, whatever happens until the rebuild, and the rebuild. */
  ghost function Rebuilding(a: App, me: string, mid: seq<Event>, anew: nat): (r: App)
    requires a.Ok()
    ensures r.Ok()
  {
    NextIsOk(a, me, Rejected);
    Next(Run(Next(a, me, Rejected), me, mid), me, Rebuilt(anew))
  }

  /** And whatever happens until the first step2. */
  ghost function AwaitingStep2(a: App, me: string, mid: seq<Event>, anew: nat, late: seq<Event>): (r: App)
    requires a.Ok()
    ensures r.Ok()
  {
    Run(Rebuilding(a, me, mid, anew), me, late)
  }

  lemma RebuildingIsBlank(a: App, me: string, mid: seq<Event>, anew: nat)
    requires a.Ok() && !Throws(a.store, me) && NoRebuild(mid)
    ensures var b := Rebuilding(a, me, mid, anew); b.client == anew && b.store == Store(map[], []) && !b.synced
  {
    NextIsOk(a, me, Rejected);
    DiscardWaits(Next(a, me, Rejected), me, mid);
  }

  /** The first step2 applied, before anything is put back. */
  function Resynced(r: App, x: Delta, arranged: seq<OpId>): Store { Store(Absorb(r.store.doc, x), arranged) }

  /** Until the rebuild the discard stays under way, and until a rejection it does not start. */
  lemma {:induction false} DiscardWaits(a: App, me: string, es: seq<Event>)
    requires a.Ok() && a.discarding && NoRebuild(es)
    ensures Run(a, me, es).discarding
    decreases |es|
  {
    if es != [] {
      DiscardWaits(a, me, es[..|es| - 1]);
      assert es[|es| - 1] in es;
    }
  }

  /** When the rejecting provider had been synced, the rebuilt one still has everything stashed. */
  lemma StashReaches(a: App, me: string, mid: seq<Event>, anew: nat, late: seq<Event>)
    requires a.Ok() && a.synced && !Throws(a.store, me) && NoRebuild(mid) && NoStep2(late)
    ensures var r := AwaitingStep2(a, me, mid, anew, late);
            && !r.synced && r.stash.Some?
            && forall m | m in Kept(AllValues(a.store), me) :: m in r.stash.value
  {
    var rejected := AfterRejected(a, me);
    NextIsOk(a, me, Rejected);
    StashWaits(rejected, me, mid);
    DiscardWaits(rejected, me, mid);
    var rebuilt := Next(Run(rejected, me, mid), me, Rebuilt(anew));
    StashWaits(rebuilt, me, late);
    forall m | m in Kept(AllValues(a.store), me)
      ensures m in AwaitingStep2(a, me, mid, anew, late).stash.value
    {
      assert m in rejected.stash.value;
      PrefixKeeps(rejected.stash.value, rebuilt.stash.value, m);
      PrefixKeeps(rebuilt.stash.value, AwaitingStep2(a, me, mid, anew, late).stash.value, m);
    }
  }

  lemma PrefixKeeps(s: seq<Json>, t: seq<Json>, m: Json)
    requires s <= t && m in s
    ensures m in t
  {
    var i :| 0 <= i < |s| && s[i] == m;
    assert t[i] == m;
  }

  // ---------------------------------------------------------------- what the server holds

  /**
   What a server may hold beside this app: an operation id names one element, and an id of the app's own
   client is an operation of the app, because no other document types under that client.
   */
  ghost predicate Genuine(a: App, cells: Doc, element: OpId -> Element)
  {
    forall id | id in cells && cells[id].Live? ::
      if id.client == a.client then id in a.store.doc && Deletes(cells[id], a.store.doc[id])
      else cells[id].element == element(id)
  }

  /** Nothing, or a deletion, has happened to the cell. */
  predicate Deletes(c: Cell, d: Cell) { d == c || d.Deleted? }

  /** What the app holds of others. */
  ghost predicate KnowsOthers(a: App, element: OpId -> Element)
  {
    forall id | id in a.store.doc && a.store.doc[id].Live? && id.client != a.client :: a.store.doc[id].element == element(id)
  }

  ghost predicate GenuineRun(a: App, me: string, es: seq<Event>, element: OpId -> Element)
    requires a.Ok()
  {
    forall i | 0 <= i < |es| && es[i].Server? :: Genuine(Run(a, me, es[..i]), es[i].x.cells, element)
  }

  lemma {:induction false} AppendedIsOwn(s: Store, client: nat, values: seq<Json>)
    ensures forall id | id in Appended(s, client, values).doc && id !in s.doc :: id.client == client
    ensures forall id | id in s.doc :: id in Appended(s, client, values).doc
    ensures forall id | id in s.doc && id.client != client :: Appended(s, client, values).doc[id] == s.doc[id]
  {
    if values != [] { AppendedIsOwn(s, client, values[..|values| - 1]); }
  }

  lemma NextKnowsOthers(a: App, me: string, e: Event, element: OpId -> Element)
    requires a.Ok() && KnowsOthers(a, element) && !e.Rebuilt? && (e.Server? ==> Genuine(a, e.x.cells, element) && !e.step2)
    ensures Next(a, me, e).client == a.client && KnowsOthers(Next(a, me, e), element)
  {
    if e.Typed? { AppendedIsOwn(a.store, a.client, e.values); }
  }

  lemma {:induction false} RunKnowsOthers(a: App, me: string, es: seq<Event>, element: OpId -> Element)
    requires a.Ok() && KnowsOthers(a, element) && NoStep2(es) && GenuineRun(a, me, es, element)
    ensures Run(a, me, es).client == a.client && KnowsOthers(Run(a, me, es), element)
    decreases |es|
  {
    if es != [] {
      var front := es[..|es| - 1];
      forall i | 0 <= i < |front| && front[i].Server? ensures Genuine(Run(a, me, front[..i]), front[i].x.cells, element) {
        assert front[..i] == es[..i] && es[i].Server?;
      }
      assert es[|es| - 1] in es;
      RunKnowsOthers(a, me, front, element);
      NextKnowsOthers(Run(a, me, front), me, es[|es| - 1], element);
    }
  }

  /** The vector that a step2 answers covers nothing the app has not got. */
  ghost predicate CoversNoMore(v: StateVector, a: App) { forall id | Covers(v, id) :: id in a.store.doc }

  /** Absorbing such a step2 brings everything the server holds; what is deleted on either side is deleted. */
  lemma StepTwoBringsServer(a: App, server: Doc, v: StateVector, element: OpId -> Element)
    requires a.Ok() && Dense(server) && CoversNoMore(v, a) && KnowsOthers(a, element) && Genuine(a, server, element)
    ensures Below(server, Absorb(a.store.doc, Diff(server, v)))
  {
    var x := Diff(server, v);
    forall id | id in server ensures id in a.store.doc || Fits(a.store.doc, x.cells, id) {
      assert Fits(server, map[], id);
    }
  }

  /**
   When the rejecting provider had been synced: after the rebuild and its first step2, whatever was typed
   and received in between, the document holds everything the server held, as it was or deleted; and, unless
   that makes it hold a null, of the own encrypted messages that the discarded document held exactly those
   whose id the server did not send with something else.
   */
  lemma DiscardConserves(a: App, me: string, mid: seq<Event>, anew: nat, late: seq<Event>,
                         server: Doc, v: StateVector, arranged: seq<OpId>, element: OpId -> Element)
    requires a.Ok() && a.synced && !Throws(a.store, me) && NoRebuild(mid) && NoStep2(late)
    requires GenuineRun(Rebuilding(a, me, mid, anew), me, late, element) && Dense(server)
    requires var r := AwaitingStep2(a, me, mid, anew, late);
             && CoversNoMore(v, r) && Genuine(r, server, element)
             && Arranges(arranged, Absorb(r.store.doc, Diff(server, v)))
    ensures var r, x := AwaitingStep2(a, me, mid, anew, late), Diff(server, v);
            var s, t := Resynced(r, x, arranged), AfterServer(r, x, arranged, true).store;
            && t.Ok() && Below(server, t.doc) && Extends(s, t)
            && (!HasNull(s) ==> Conserved(Kept(AllValues(a.store), me), s, t))
  {
    var r, x := AwaitingStep2(a, me, mid, anew, late), Diff(server, v);
    var s := Resynced(r, x, arranged);
    StashReaches(a, me, mid, anew, late);
    RebuildingIsBlank(a, me, mid, anew);
    RunKnowsOthers(Rebuilding(a, me, mid, anew), me, late, element);
    StepTwoBringsServer(r, server, v, element);
    AbsorbIsDense(r.store.doc, x);
    AppendedIsOk(s, r.client, Missing(r.stash.value, PresentIds(s)));
    if !HasNull(s) {
      forall m | m in Kept(AllValues(a.store), me) { PutBackHolds(s, r.client, r.stash.value, m); }
    }
  }

  /** So with unique ids none of them is lost. */
  lemma DiscardLosesNothing(a: App, me: string, mid: seq<Event>, anew: nat, late: seq<Event>, x: Delta, arranged: seq<OpId>)
    requires a.Ok() && a.synced && !Throws(a.store, me) && NoRebuild(mid) && NoStep2(late)
    requires var r := AwaitingStep2(a, me, mid, anew, late);
             Arranges(arranged, Absorb(r.store.doc, x)) && !HasNull(Resynced(r, x, arranged))
    requires HaveIds(Kept(AllValues(a.store), me))
    requires NoOtherHasTheirId(Resynced(AwaitingStep2(a, me, mid, anew, late), x, arranged), Kept(AllValues(a.store), me))
    ensures var t := AfterServer(AwaitingStep2(a, me, mid, anew, late), x, arranged, true).store;
            t.Ok() && forall m | m in Kept(AllValues(a.store), me) :: Holds(t, m)
  {
    var r := AwaitingStep2(a, me, mid, anew, late);
    var s := Resynced(r, x, arranged);
    StashReaches(a, me, mid, anew, late);
    AbsorbIsDense(r.store.doc, x);
    forall m | m in Kept(AllValues(a.store), me) { PutBackHolds(s, r.client, r.stash.value, m); }
    AppendedIsOk(s, r.client, Missing(r.stash.value, PresentIds(s)));
    AllHeld(Kept(AllValues(a.store), me), s, AfterServer(r, x, arranged, true).store);
  }

  // ---------------------------------------------------------------- when there is no rebuild

  predicate NoRejection(es: seq<Event>) { forall e | e in es :: !e.Rejected? }

  /** Without a discard under way the document only grows. */
  lemma {:induction false} NeverDiscarded(a: App, me: string, es: seq<Event>)
    requires a.Ok() && !a.discarding && NoRejection(es)
    ensures !Run(a, me, es).discarding && Below(a.store.doc, Run(a, me, es).store.doc)
    decreases |es|
  {
    if es != [] {
      var front, last := es[..|es| - 1], es[|es| - 1];
      NeverDiscarded(a, me, front);
      assert last in es;
      NextGrows(Run(a, me, front), me, last);
    }
  }

  lemma NextGrows(a: App, me: string, e: Event)
    requires a.Ok() && !a.discarding && !e.Rejected?
    ensures !Next(a, me, e).discarding && Below(a.store.doc, Next(a, me, e).store.doc)
  {
    match e
    case Rebuilt(_) =>
    case Typed(values) => AppendedIsOk(a.store, a.client, values);
    case Server(x, arranged, step2) =>
      if Arranges(arranged, Absorb(a.store.doc, x)) {
        AbsorbIsDense(a.store.doc, x);
        var applied := Store(Absorb(a.store.doc, x), arranged);
        if a.stash.Some? { AppendedIsOk(applied, a.client, Missing(a.stash.value, PresentIds(applied))); }
      }
  }

  /**
   Unless a frame that was already on its way is refused too, a rejection leads to an empty document, ready
   to be rebuilt, if and only if the filter did not throw; if it threw, every cell stays.
   */
  lemma DiscardsExactlyUnlessThrown(a: App, me: string)
    requires a.Ok() && !a.discarding
    ensures Next(a, me, Rejected).Ok()
    ensures (exists es | NoRejection(es) :: Run(Next(a, me, Rejected), me, es).store.doc == map[])
            <==> !Throws(a.store, me)
  {
    NextIsOk(a, me, Rejected);
    var b := Next(a, me, Rejected);
    if Throws(a.store, me) {
      var e :| e in AllValues(a.store) && Trips(e, me);
      forall es | NoRejection(es) ensures Run(b, me, es).store.doc != map[] {
        NeverDiscarded(b, me, es);
        assert a.store.order[0] in a.store.order;
      }
    } else {
      RunOne(b, me, Rebuilt(0));
      assert NoRejection([Rebuilt(0)]) && Run(b, me, [Rebuilt(0)]).store.doc == map[];
    }
  }

  lemma RunOne(a: App, me: string, e: Event)
    requires a.Ok()
    ensures Run(a, me, []) == a && Run(a, me, [e]) == Next(a, me, e)
  {
    assert [e][..0] == [];
    assert Run(a, me, [e][..0]) == a;
  }

  lemma SpentEarly(a: App, me: string, anew: nat)
    requires a.Ok() && !a.synced && !Throws(a.store, me)
    ensures AwaitingStep2(a, me, [Server(Delta(map[], {}), a.store.order, true)], anew, [])
            == App(anew, Store(map[], []), false, None, false)
  {
    var e := Server(Delta(map[], {}), a.store.order, true);
    var rejected := AfterRejected(a, me);
    NextIsOk(a, me, Rejected);
    AbsorbNothing(a.store.doc);
    RunOne(rejected, me, e);
    var spent := Next(rejected, me, e);
    assert spent.stash == None;
    NextIsOk(rejected, me, e);
    RunOne(Next(spent, me, Rebuilt(anew)), me, e);
  }

  /**
   Had it not been synced, its own first step2 could spend the stash on the document about to be
   discarded, and the rebuilt document would hold none of the messages.
   */
  lemma StashCanBeSpentEarly(a: App, me: string, anew: nat, m: Json)
    requires a.Ok() && !a.synced && !Throws(a.store, me)
    requires m in Kept(AllValues(a.store), me)
    ensures var nothing := Delta(map[], {});
            var r := AwaitingStep2(a, me, [Server(nothing, a.store.order, true)], anew, []);
            && Arranges([], Absorb(r.store.doc, nothing))
            && (var s, t := Resynced(r, nothing, []), AfterServer(r, nothing, [], true).store;
                t.Ok() && !Conserved(Kept(AllValues(a.store), me), s, t))
  {
    SpentEarly(a, me, anew);
    AbsorbNothing(map[]);
  }

  // ---------------------------------------------------------------- each message once

  predicate SameId(d: Element, e: Element) { HasField(d, "id") && HasField(e, "id") && Field(d, "id") == Field(e, "id") }

  predicate OnceEach(es: seq<Element>) { forall i, j | 0 <= i < j < |es| :: !SameId(es[i], es[j]) }

  function Plains(ms: seq<Json>): (es: seq<Element>)
    ensures |es| == |ms|
  {
    seq(|ms|, i requires 0 <= i < |ms| => Plain(ms[i]))
  }

  /** The first n values only depend on the first n cells. */
  lemma {:induction false} ValuesAgree(s: Store, t: Store, n: nat)
    requires AllLive(s.doc, s.order) && AllLive(t.doc, t.order) && Extends(s, t) && n <= |s.order|
    ensures Values(t, n) == Values(s, n)
  {
    if n > 0 {
      ValuesAgree(s, t, n - 1);
      assert t.order[n - 1] == s.order[n - 1] && s.order[n - 1] in s.order;
    }
  }

  lemma PlainsSnoc(ms: seq<Json>)
    requires ms != []
    ensures Plains(ms) == Plains(ms[..|ms| - 1]) + [Plain(ms[|ms| - 1])]
  {}

  lemma {:induction false} AppendedValues(s: Store, client: nat, ms: seq<Json>)
    requires s.Ok()
    ensures Appended(s, client, ms).Ok() && AllValues(Appended(s, client, ms)) == AllValues(s) + Plains(ms)
  {
    if ms == [] {
      assert Appended(s, client, ms) == s && AllValues(s) + Plains(ms) == AllValues(s);
    } else {
      var front := ms[..|ms| - 1];
      AppendedValues(s, client, front);
      ValuesSnoc(Appended(s, client, front), client, ms[|ms| - 1]);
      PlainsSnoc(ms);
    }
  }

  lemma ValuesSnoc(t: Store, client: nat, v: Json)
    requires t.Ok()
    ensures var id := NextId(t.doc, client);
            var u := Store(t.doc[id := Live(Plain(v))], t.order + [id]);
            u.Ok() && AllValues(u) == AllValues(t) + [Plain(v)]
  {
    AppendOne(t, client, v);
    var id := NextId(t.doc, client);
    ValuesAgree(t, Store(t.doc[id := Live(Plain(v))], t.order + [id]), |t.order|);
  }

  lemma ReinsertedValues(s: Store, client: nat, stash: seq<Json>)
    requires s.Ok() && !HasNull(s)
    ensures var t := Reinserted(s, client, stash);
            t.Ok() && AllValues(t) == AllValues(s) + Plains(Missing(stash, PresentIds(s)))
  {
    AppendedValues(s, client, Missing(stash, PresentIds(s)));
  }

  lemma MissingIsNew(s: Store, stash: seq<Json>, i: nat, j: nat)
    requires s.Ok() && i < |s.order| && j < |Missing(stash, PresentIds(s))|
    ensures !SameId(AllValues(s)[i], Plain(Missing(stash, PresentIds(s))[j]))
  {
    var m := Missing(stash, PresentIds(s))[j];
    MissingIsExact(stash, PresentIds(s), m);
    assert s.order[i] in s.order;
  }

  /** Each id is there once exactly when it was so in the resynced document and among the messages put back. */
  lemma OnceEachExactlyWhen(s: Store, client: nat, stash: seq<Json>)
    requires s.Ok() && !HasNull(s)
    ensures var t := Reinserted(s, client, stash);
            t.Ok() && (OnceEach(AllValues(t)) <==>
              OnceEach(AllValues(s)) && OnceEach(Plains(Missing(stash, PresentIds(s)))))
  {
    ReinsertedValues(s, client, stash);
    var t := Reinserted(s, client, stash);
    var vs, ms := AllValues(s), Plains(Missing(stash, PresentIds(s)));
    forall i, j | 0 <= i < |vs| && 0 <= j < |ms| ensures !SameId(vs[i], ms[j]) {
      MissingIsNew(s, stash, i, j);
    }
    OnceEachAdds(vs, ms);
  }

  lemma OnceEachAdds(a: seq<Element>, b: seq<Element>)
    requires forall i, j | 0 <= i < |a| && 0 <= j < |b| :: !SameId(a[i], b[j])
    ensures OnceEach(a + b) <==> OnceEach(a) && OnceEach(b)
  {
    if OnceEach(a + b) {
      forall i, j | 0 <= i < j < |a| ensures !SameId(a[i], a[j]) {
        assert (a + b)[i] == a[i] && (a + b)[j] == a[j];
      }
      forall i, j | 0 <= i < j < |b| ensures !SameId(b[i], b[j]) {
        assert (a + b)[|a| + i] == b[i] && (a + b)[|a| + j] == b[j];
      }
    }
  }

  lemma {:induction false} MissingAdds(a: seq<Json>, b: seq<Json>, present: set<string>)
    ensures Missing(a + b, present) == Missing(a, present) + Missing(b, present)
    decreases |b|
  {
    if b == [] {
      assert a + b == a;
    } else {
      MissingAdds(a, b[..|b| - 1], present);
      assert (a + b)[..|a + b| - 1] == a + b[..|b| - 1];
    }
  }

  lemma DoubledIsNotOnce(ours: seq<Json>, present: set<string>, m: Json)
    requires m in ours && HasField(Plain(m), "id") && IdOf(m) !in present
    ensures !OnceEach(Plains(Missing(ours + ours, present)))
  {
    var once := Missing(ours, present);
    MissingAdds(ours, ours, present);
    MissingIsExact(ours, present, m);
    var i :| 0 <= i < |once| && once[i] == m;
    assert (once + once)[i] == m && (once + once)[|once| + i] == m;
    TwiceIsNotOnce(once + once, i, |once| + i, m);
  }

  lemma TwiceIsNotOnce(ms: seq<Json>, i: nat, j: nat, m: Json)
    requires i < j < |ms| && ms[i] == m == ms[j] && HasField(Plain(m), "id")
    ensures !OnceEach(Plains(ms))
  {
    var es := Plains(ms);
    assert SameId(es[i], es[j]);
  }

  /** Two rejections before the rebuild stash every message twice: one the server lacks comes back twice. */
  lemma SecondRejectionDuplicates(a: App, me: string, s: Store, m: Json)
    requires a.Ok() && a.stash.None? && !Throws(a.store, me) && s.Ok() && !HasNull(s)
    requires m in Kept(AllValues(a.store), me) && HasField(Plain(m), "id") && IdOf(m) !in PresentIds(s)
    ensures var b := AfterRejected(AfterRejected(a, me), me);
            b.stash.Some? && (var t := Reinserted(s, b.client, b.stash.value); t.Ok() && !OnceEach(AllValues(t)))
  {
    var ours := Kept(AllValues(a.store), me);
    var b := AfterRejected(AfterRejected(a, me), me);
    assert b.stash == Some(ours + ours) by { assert [] + ours == ours; }
    DoubledIsNotOnce(ours, PresentIds(s), m);
    OnceEachExactlyWhen(s, b.client, ours + ours);
  }

  // ---------------------------------------------------------------- the hook's objects

  /** The effect's engine and the stash that outlives it, for one account and room. */
  class RoomSync {
    const me: string
    var engine: SyncEngine
    var synced: bool             // of the present provider
    var stash: Option<seq<Json>>
    var discarding: bool         // discard() was called and has not resolved

    ghost predicate Valid()
      reads this, engine
    {
      engine.View().Ok() && engine.userId == me
    }

    ghost function State(): App
      reads this, engine
    {
      App(engine.clientId, engine.View(), synced, stash, discarding)
    }

    constructor (me: string, client: nat)
      ensures Valid() && fresh(engine) && State() == App(client, Store(map[], []), false, None, false)
    {
      this.me, synced, stash, discarding := me, false, None, false;
      engine := new SyncEngine(me, client);
    }

    /** onUnrecoverableE2eeRejection: stash what is ours and start to discard, unless reading some element throws. */
    method OnUnrecoverableRejection() returns (threw: bool)
      requires Valid()
      modifies this`stash, this`discarding
      ensures Valid() && engine == old(engine) && State() == AfterRejected(old(State()), me)
      ensures threw == Throws(engine.View(), me)
    {
      var values := Values(engine.View(), |engine.order|);
      var ours: seq<Json> := [];
      for i := 0 to |values|
        invariant ours == Kept(values[..i], me)
        invariant forall e | e in values[..i] :: !Trips(e, me)
      {
        assert values[..i + 1] == values[..i] + [values[i]] && values[..i + 1][..i] == values[..i];
        if Trips(values[i], me) {
          assert values[i] in values;
          return true;
        }
        if IsOwnSealed(values[i], me) {
          ours := ours + [values[i].value];
        }
      }
      assert values[..|values|] == values;
      stash := Some((if stash.Some? then stash.value else []) + ours);
      discarding := true;
      return false;
    }

    /** onSynced: the stash is deleted, then put back. */
    method OnSynced()
      requires Valid()
      modifies this`stash, engine
      ensures Valid() && stash == None && synced == old(synced) && discarding == old(discarding)
      ensures engine.View() == match old(stash) case None => old(engine.View())
                                                case Some(kept) => Reinserted(old(engine.View()), engine.clientId, kept)
    {
      if stash.None? { return; }
      var kept := stash.value;
      stash := None;
      var missing, threw := engine.ReinsertMessages(kept);
    }

    /** A step2 or an update from the server. */
    method OnServer(x: Delta, arranged: seq<OpId>, step2: bool)
      requires Valid() && Arranges(arranged, Absorb(engine.doc, x))
      modifies this, engine
      ensures Valid() && State() == AfterServer(old(State()), x, arranged, step2)
    {
      engine.Apply(x, arranged);
      if step2 && !synced {
        synced := true;
        OnSynced();
      }
    }

    /** The effect runs again once discard() has resolved: a new engine over an absent key, with a client id of its own. */
    method RunEffectAgain(client: nat)
      requires Valid() && discarding
      modifies this
      ensures Valid() && fresh(engine) && State() == Next(old(State()), me, Rebuilt(client))
    {
      engine := new SyncEngine(me, client);
      synced, discarding := false, false;
    }
  }
}
