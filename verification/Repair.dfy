/**
 The reject, retract and resync exchange between the gateway (apps/server/src/sync/sync.gateway.ts)
 and the provider (packages/sync-engine/src/WebSocketProvider.ts), over whole documents.
 */
module Repair {
  import opened JsonText
  import opened Replica
  import opened Engine
  import opened Wire
  import opened Provider
  import EnvelopeGate

  // ---------------------------------------------------------------- how far the walk gets

  /** The backward walk gets to this element: no null stands in the array at or after it. */
  predicate Walked(doc: Doc, all: seq<OpId>, id: OpId)
    requires AllLive(doc, all)
  {
    exists i: nat :: i < |all| && all[i] == id && NoNullFrom(doc, all, i)
  }

  predicate NoNullFrom(doc: Doc, all: seq<OpId>, from: nat)
    requires AllLive(doc, all)
  {
    forall j | from <= j < |all| :: !IsNull(doc[all[j]].element)
  }

  lemma WalkedSnoc(doc: Doc, all: seq<OpId>, id: OpId)
    requires AllLive(doc, all) && all != []
    ensures var front, last := all[..|all| - 1], all[|all| - 1];
            Walked(doc, all, id) <==> !IsNull(doc[last].element) && (id == last || Walked(doc, front, id))
  {
    var front, last := all[..|all| - 1], all[|all| - 1];
    assert all == front + [last];
    if !IsNull(doc[last].element) {
      if id == last { assert NoNullFrom(doc, all, |all| - 1); }
      if i: nat :| i < |front| && front[i] == id && NoNullFrom(doc, front, i) { assert NoNullFrom(doc, all, i); }
      if i: nat :| i < |all| && all[i] == id && NoNullFrom(doc, all, i) {
        if i < |front| { assert front[i] == id && NoNullFrom(doc, front, i); }
      }
    }
  }

  /** The walk removes exactly the elements it gets to that it is to retract. */
  lemma {:induction false} ScanRemoves(doc: Doc, all: seq<OpId>, wanted: set<string>, me: string, id: OpId)
    requires AllLive(doc, all) && DistinctIds(all)
    ensures id in Scanned(doc, all, wanted, me).removed
            <==> id in all && Walked(doc, all, id) && Retracts(doc[id].element, wanted, me)
  {
    if all != [] {
      var front, last := all[..|all| - 1], all[|all| - 1];
      assert all == front + [last];
      WalkedSnoc(doc, all, id);
      ScanRemoves(doc, front, wanted, me, id);
      ScanPartitions(doc, front, wanted, me);
    }
  }

  lemma WalkedAgrees(doc: Doc, after: Doc, all: seq<OpId>, id: OpId)
    requires AllLive(doc, all) && AllLive(after, all) && forall k | k in all :: after[k] == doc[k]
    ensures Walked(after, all, id) <==> Walked(doc, all, id)
  {
    forall i: nat | i < |all| ensures NoNullFrom(doc, all, i) <==> NoNullFrom(after, all, i) {
      assert forall j | i <= j < |all| :: all[j] in all;
    }
  }

  /** One step of the walk: what stays of an array and its last element. */
  lemma KeptSnoc(doc: Doc, all: seq<OpId>, wanted: set<string>, me: string)
    requires AllLive(doc, all) && all != []
    ensures var front, last := all[..|all| - 1], all[|all| - 1];
            Scanned(doc, all, wanted, me).kept ==
              if IsNull(doc[last].element) then all
              else if Retracts(doc[last].element, wanted, me) then Scanned(doc, front, wanted, me).kept
              else Scanned(doc, front, wanted, me).kept + [last]
  {}

  lemma WalkedPlus(doc: Doc, front: seq<OpId>, last: OpId, id: OpId)
    requires AllLive(doc, front) && last in doc && doc[last].Live? && !IsNull(doc[last].element)
    ensures AllLive(doc, front + [last])
    ensures Walked(doc, front + [last], id) <==> id == last || Walked(doc, front, id)
  {
    assert (front + [last])[..|front|] == front;
    WalkedSnoc(doc, front + [last], id);
  }

  lemma KeptAreLive(doc: Doc, all: seq<OpId>, wanted: set<string>, me: string)
    requires AllLive(doc, all)
    ensures AllLive(doc, Scanned(doc, all, wanted, me).kept)
    ensures forall id | id in Scanned(doc, all, wanted, me).kept :: id in all
  {
    ScanPartitions(doc, all, wanted, me);
  }

  /** What stays in the array is walked to afterwards exactly when it was before. */
  lemma {:induction false} KeptAreWalked(doc: Doc, all: seq<OpId>, wanted: set<string>, me: string, id: OpId)
    requires AllLive(doc, all) && DistinctIds(all) && id in Scanned(doc, all, wanted, me).kept
    ensures AllLive(doc, Scanned(doc, all, wanted, me).kept)
    ensures Walked(doc, Scanned(doc, all, wanted, me).kept, id) <==> Walked(doc, all, id)
    decreases |all|
  {
    KeptAreLive(doc, all, wanted, me);
    KeptSnoc(doc, all, wanted, me);
    var front, last := all[..|all| - 1], all[|all| - 1];
    if !IsNull(doc[last].element) {
      KeptAreLive(doc, front, wanted, me);
      var inner := Scanned(doc, front, wanted, me).kept;
      WalkedSnoc(doc, all, id);
      WalkedPlus(doc, inner, last, id);
      if id in inner { KeptAreWalked(doc, front, wanted, me, id); }
      NotInFront(all);
    }
  }

  lemma NotInFront(all: seq<OpId>)
    requires DistinctIds(all) && all != []
    ensures all[|all| - 1] !in all[..|all| - 1]
  {}

  /** The client document after retracting its own messages with the wanted ids, as far as the walk gets. */
  function Retract(s: Store, wanted: set<string>, me: string): Doc
    requires AllLive(s.doc, s.order)
  {
    map id | id in s.doc ::
      if s.doc[id].Live? && Retracts(s.doc[id].element, wanted, me) && Walked(s.doc, s.order, id)
      then Deleted else s.doc[id]
  }

  /** Retract is what the engine's walk over the array leaves behind; it throws exactly when the array holds null. */
  lemma RetractIsScan(s: Store, wanted: set<string>, me: string)
    requires s.Ok()
    ensures Retracted(s, wanted, me).doc == Retract(s, wanted, me)
    ensures Scanned(s.doc, s.order, wanted, me).threw <==> HasNull(s)
  {
    ScanIsExact(s.doc, s.order, wanted, me);
    ScanPartitions(s.doc, s.order, wanted, me);
    forall id | id in s.doc ensures Retracted(s, wanted, me).doc[id] == Retract(s, wanted, me)[id] {
      ScanRemoves(s.doc, s.order, wanted, me, id);
    }
  }

  lemma RetractKeepsWalks(s: Store, wanted: set<string>, me: string, id: OpId)
    requires s.Ok() && id in Retracted(s, wanted, me).order
    ensures Retracted(s, wanted, me).Ok() && id in s.order && Retracted(s, wanted, me).doc[id] == s.doc[id]
    ensures Walked(Retracted(s, wanted, me).doc, Retracted(s, wanted, me).order, id) <==> Walked(s.doc, s.order, id)
  {
    RetractedIsOk(s, wanted, me);
    ScanPartitions(s.doc, s.order, wanted, me);
    ScanKeepsDistinct(s.doc, s.order, wanted, me);
    KeptAreWalked(s.doc, s.order, wanted, me, id);
    WalkedAgrees(s.doc, Retracted(s, wanted, me).doc, Retracted(s, wanted, me).order, id);
  }

  // ---------------------------------------------------------------- one rejection

  /** An offending struct that is the client's own message, with a string id. */
  predicate OwnBad(x: Delta, id: OpId, me: string)
  {
    BadWithId(x, id) && HasField(x.cells[id].element, "userId") && Field(x.cells[id].element, "userId") == me
  }

  /** The step2 a client answers a state vector with, and the ids its rejection names. */
  function Step2(c: Doc, v: StateVector): Delta { Diff(c, v) }

  /** An offending struct that the client takes back when it is told: its own, and within the walk. */
  predicate Takable(s: Store, v: StateVector, me: string, id: OpId)
    requires AllLive(s.doc, s.order)
  {
    OwnBad(Step2(s.doc, v), id, me) && Walked(s.doc, s.order, id)
  }

  /** The store after the rejection of its answer has been handled. */
  function TakenBack(s: Store, v: StateVector, me: string): Store
    requires AllLive(s.doc, s.order)
  {
    Retracted(s, Named(Step2(s.doc, v)), me)
  }

  lemma OwnBadIsRetracted(c: Doc, v: StateVector, me: string, id: OpId)
    requires Bad(Step2(c, v), id)
    ensures Retracts(c[id].element, Named(Step2(c, v)), me) <==> OwnBad(Step2(c, v), id, me)
  {
    var x := Step2(c, v);
    if BadWithId(x, id) {
      assert NamedId(x.cells[id]) in Named(x);
    }
  }

  /** After a rejection, exactly the offending structs that were not taken back still offend. */
  lemma StillBad(s: Store, v: StateVector, me: string, id: OpId)
    requires s.Ok()
    ensures var x, x' := Step2(s.doc, v), Step2(TakenBack(s, v, me).doc, v);
            && (Bad(x', id) <==> Bad(x, id) && !Takable(s, v, me, id))
            && (Bad(x', id) ==> x'.cells[id] == x.cells[id])
  {
    RetractIsScan(s, Named(Step2(s.doc, v)), me);
    if Bad(Step2(s.doc, v), id) {
      OwnBadIsRetracted(s.doc, v, me, id);
    }
  }

  /**
   The next step2 passes the gate if and only if every offending struct of the refused one was the
   client's own message with a string id and no null stands at or after it in the array.
   */
  lemma RepairedExactlyWhenOwn(s: Store, v: StateVector, me: string)
    requires s.Ok()
    ensures CleanDelta(Step2(TakenBack(s, v, me).doc, v))
       <==> forall id | Bad(Step2(s.doc, v), id) :: Takable(s, v, me, id)
  {
    var x := Step2(s.doc, v);
    var x' := Step2(TakenBack(s, v, me).doc, v);
    forall id ensures Bad(x', id) <==> Bad(x, id) && !Takable(s, v, me, id) {
      StillBad(s, v, me, id);
    }
    CleanMeansNoBad(x');
  }

  lemma CleanMeansNoBad(x: Delta)
    ensures CleanDelta(x) <==> forall id :: !Bad(x, id)
  {
    assert forall id | id in x.cells :: CleanCell(x.cells[id]) <==> !Bad(x, id);
  }

  /** A step2 only carries structs the receiver lacks, so legacy plaintext it already holds never bounces. */
  lemma HeldContentNeverBounces(c: Doc, server: Doc, id: OpId)
    requires Dense(server) && id in server
    ensures id !in Step2(c, Vector(server)).cells
  {
    VectorCoversExactly(server, id);
  }

  /**
   d is c some time later: elements may have been deleted, and what is new came from the server or is
   well formed, as everything an encrypting client types is.
   */
  predicate EvolvedFrom(c: Doc, d: Doc, server: Doc)
  {
    Below(c, d) && forall id | id in d && id !in c && id !in server :: CleanCell(d[id])
  }

  /**
   Repair, with traffic in between.  The server refused the client's step2; by the time the client
   answers the follow-up state vector the server has grown to s2, and the client has retracted, gone on
   receiving, typed and deleted, and is at c2.  The answer passes; every live element of the client is
   then on the server, live unless the server had a deletion of it, and unchanged where the server
   lacked it; and an element the server held live is removed only if the client had deleted it.
   */
  lemma RepairLands(c: Store, s: Doc, c2: Doc, s2: Doc, me: string)
    requires c.Ok() && Dense(s) && Dense(s2) && Dense(c2) && Below(s, s2)
    requires forall id | Bad(Step2(c.doc, Vector(s)), id) :: Takable(c, Vector(s), me, id)
    requires EvolvedFrom(TakenBack(c, Vector(s), me).doc, c2, s2)
    ensures CleanDelta(Step2(c2, Vector(s2)))
    ensures var s3 := Absorb(s2, Step2(c2, Vector(s2)));
            && (forall id | id in c2 && c2[id].Live? :: id in s3 && (s3[id].Live? || (id in s2 && s2[id].Deleted?)))
            && (forall id | id in c2 && id !in s2 :: id in s3 && s3[id] == c2[id])
            && (forall id | id in s2 && s2[id].Live? && s3[id].Deleted? :: id in c2 && c2[id].Deleted?)
    ensures forall id | id in c.doc && c.doc[id].Live? ::
              id in c2 && (c2[id] == c.doc[id] || c2[id].Deleted?)
  {
    AnswerIsClean(c, s, c2, s2, me);
    DiffCompletes(s2, c2);
    RetractedIsOk(c, Named(Step2(c.doc, Vector(s))), me);
  }

  lemma AnswerIsClean(c: Store, s: Doc, c2: Doc, s2: Doc, me: string)
    requires c.Ok() && Dense(s) && Dense(s2) && Below(s, s2)
    requires forall id | Bad(Step2(c.doc, Vector(s)), id) :: Takable(c, Vector(s), me, id)
    requires EvolvedFrom(TakenBack(c, Vector(s), me).doc, c2, s2)
    ensures CleanDelta(Step2(c2, Vector(s2)))
  {
    var c1 := TakenBack(c, Vector(s), me).doc;
    RepairedExactlyWhenOwn(c, Vector(s), me);
    var answer := Step2(c2, Vector(s2));
    forall id | id in answer.cells ensures CleanCell(answer.cells[id]) {
      VectorCoversExactly(s2, id);
      VectorCoversExactly(s, id);
      if c2[id].Live? && id in c1 {
        assert c1[id] == c2[id] && id in Step2(c1, Vector(s)).cells;
      }
    }
  }

  // ---------------------------------------------------------------- one ask at a time

  /** The part of a client that takes part in the exchange. */
  datatype Session = Session(store: Store, retractedIds: set<string>, refused: bool)

  function SessionOf(client: Client): Session { Session(client.store, client.retractedIds, client.stateRefused) }

  /** The client bounces: it still answers state vectors, and its answer is refused. */
  predicate Bounces(s: Session, v: StateVector) { !s.refused && !CleanDelta(Step2(s.store.doc, v)) }

  /** Handling the rejection of its answer, when nothing else is in flight. */
  function AfterBounce(s: Session, v: StateVector, me: string): (t: Session)
    requires s.store.Ok()
    ensures t.store.Ok()
  {
    var named := Named(Step2(s.store.doc, v));
    var scan := Scanned(s.store.doc, s.store.order, named, me);
    RetractedIsOk(s.store, named, me);
    ScanPartitions(s.store.doc, s.store.order, named, me);
    var noted := s.retractedIds + IdsOf(ElementsOf(s.store.doc, scan.removed));
    if scan.threw then s.(store := TakenBack(s.store, v, me))
    else Session(TakenBack(s.store, v, me), noted, s.refused || !(named != {} && named <= noted))
  }

  /** A provider's handling of the rejection is a step of this session, null elements or not. */
  lemma ProviderBounces(client: Client, v: StateVector, me: string, keyId: nat, ids: seq<string>)
    requires client.store.Ok() && AsSet(ids) == Named(Step2(client.store.doc, v))
    ensures SessionOf(AfterRejection(client, me, keyId, ids)) == AfterBounce(SessionOf(client), v, me)
  {
    RejectionIs(client, me, keyId, ids);
    assert ids == [] <==> AsSet(ids) == {} by {
      if ids != [] { assert ids[0] in AsSet(ids); }
    }
  }

  /** What a rejection makes of the store, the noted ids and the verdict. */
  lemma RejectionIs(client: Client, me: string, keyId: nat, ids: seq<string>)
    requires client.store.Ok()
    ensures var scan := Scanned(client.store.doc, client.store.order, AsSet(ids), me);
            var d := AfterRejection(client, me, keyId, ids);
            && AllLive(client.store.doc, scan.removed) && d.store == Retracted(client.store, AsSet(ids), me)
            && (scan.threw ==> d.retractedIds == client.retractedIds && d.stateRefused == client.stateRefused)
            && (!scan.threw ==>
                  && d.retractedIds == client.retractedIds + IdsOf(ElementsOf(client.store.doc, scan.removed))
                  && d.stateRefused == (client.stateRefused || !(ids != [] && AsSet(ids) <= d.retractedIds)))
  {
    var removed := Scanned(client.store.doc, client.store.order, AsSet(ids), me).removed;
    ScanPartitions(client.store.doc, client.store.order, AsSet(ids), me);
    RetractionKeeps(client, me, ids);
    ConclusionIs(AfterRetraction(client, me, ids), keyId, ids, ElementsOf(client.store.doc, removed));
  }

  lemma RetractionKeeps(c: Client, me: string, ids: seq<string>)
    requires AllLive(c.store.doc, c.store.order)
    ensures var d := AfterRetraction(c, me, ids);
            && d.store == Retracted(c.store, AsSet(ids), me) && d.stateRefused == c.stateRefused
            && d.retractedIds == c.retractedIds
  {
  }

  lemma ConclusionIs(c: Client, keyId: nat, ids: seq<string>, retracted: seq<Element>)
    ensures var d := Concluding(c, keyId, ids, retracted);
            && d.store == c.store && d.retractedIds == c.retractedIds + IdsOf(retracted)
            && d.stateRefused == (c.stateRefused || !(ids != [] && AsSet(ids) <= d.retractedIds))
  {
  }

  ghost function Bounced(s: Session, v: StateVector, me: string, n: nat): (t: Session)
    requires s.store.Ok()
    ensures t.store.Ok()
  {
    if n == 0 then s else AfterBounce(Bounced(s, v, me, n - 1), v, me)
  }

  /** The next step2 is accepted, or the client has stopped answering, after at most n rejections. */
  ghost predicate EndsWithin(s: Session, v: StateVector, me: string, n: nat)
    requires s.store.Ok()
  {
    exists k: nat :: k <= n && !Bounces(Bounced(s, v, me, k), v)
  }

  /** The ids of the user's own live messages among the wanted ones. */
  function OwnIds(c: Doc, wanted: set<string>, me: string): set<string>
  {
    set id | id in c && c[id].Live? && Retracts(c[id].element, wanted, me) :: Field(c[id].element, "id")
  }

  /** Without a null the walk notes the ids of all of the user's own messages with a wanted id. */
  lemma WalkNotes(s: Store, wanted: set<string>, me: string)
    requires s.Ok() && !HasNull(s)
    ensures var r := Scanned(s.doc, s.order, wanted, me);
            !r.threw && AllLive(s.doc, r.removed) && IdsOf(ElementsOf(s.doc, r.removed)) == OwnIds(s.doc, wanted, me)
  {
    ScanPartitions(s.doc, s.order, wanted, me);
    ScanIsExact(s.doc, s.order, wanted, me);
    RemovedIds(s.doc, Scanned(s.doc, s.order, wanted, me).removed, wanted, me);
  }

  lemma RemovedIds(doc: Doc, removed: seq<OpId>, wanted: set<string>, me: string)
    requires AllLive(doc, removed)
    requires forall id | id in doc && doc[id].Live? :: id in removed <==> Retracts(doc[id].element, wanted, me)
    ensures IdsOf(ElementsOf(doc, removed)) == OwnIds(doc, wanted, me)
  {
    var es := ElementsOf(doc, removed);
    forall name | name in OwnIds(doc, wanted, me) ensures name in IdsOf(es) {
      var id :| id in doc && doc[id].Live? && Retracts(doc[id].element, wanted, me) && Field(doc[id].element, "id") == name;
      var i :| 0 <= i < |removed| && removed[i] == id;
      assert es[i] == doc[id].element && es[i] in es;
    }
    forall name | name in IdsOf(es) ensures name in OwnIds(doc, wanted, me) {
      var e :| e in es && HasField(e, "id") && Field(e, "id") == name;
      var i :| 0 <= i < |es| && es[i] == e;
      assert removed[i] in removed;
    }
  }

  lemma WalkedWithoutNull(s: Store, id: OpId)
    requires s.Ok() && !HasNull(s) && id in s.doc && s.doc[id].Live?
    ensures Walked(s.doc, s.order, id)
  {
    var i: nat :| i < |s.order| && s.order[i] == id;
    forall j | i <= j < |s.order| ensures !IsNull(s.doc[s.order[j]].element) { assert s.order[j] in s.order; }
    assert NoNullFrom(s.doc, s.order, i);
  }

  // ---------------------------------------------------------------- when it never ends

  /** An offending struct that has a string id but is not the client's own. */
  predicate ForeignBad(x: Delta, id: OpId, me: string) { BadWithId(x, id) && !OwnBad(x, id, me) }

  /**
   No null in the array, but some offending struct with an id is someone else's, and every such id is
   also the id of a message of our own, retracted before or about to be: every rejection looks repaired.
   */
  predicate Wedged(s: Session, v: StateVector, me: string)
  {
    var x := Step2(s.store.doc, v);
    && (exists id :: id in x.cells && ForeignBad(x, id, me))
    && forall id | id in x.cells && ForeignBad(x, id, me) ::
         NamedId(x.cells[id]) in s.retractedIds + OwnIds(s.store.doc, Named(x), me)
  }

  /** A null in the array, so that no rejection is ever concluded, and an offending struct the walk does not take back. */
  ghost predicate OutOfReach(s: Session, v: StateVector, me: string)
    requires s.store.Ok()
  {
    exists id :: Bad(Step2(s.store.doc, v), id) && !Takable(s.store, v, me, id)
  }

  /** The exchange can never end. */
  ghost predicate Stuck(s: Session, v: StateVector, me: string)
    requires s.store.Ok()
  {
    !s.refused && if HasNull(s.store) then OutOfReach(s, v, me) else Wedged(s, v, me)
  }

  /** A rejection neither adds a null nor removes one. */
  lemma NullStays(s: Session, v: StateVector, me: string)
    requires s.store.Ok()
    ensures HasNull(AfterBounce(s, v, me).store) <==> HasNull(s.store)
  {
    var named := Named(Step2(s.store.doc, v));
    ScanPartitions(s.store.doc, s.store.order, named, me);
    var t := AfterBounce(s, v, me).store;
    if HasNull(s.store) {
      var id :| id in s.store.order && IsNull(s.store.doc[id].element);
      assert id in t.order && IsNull(t.doc[id].element);
    }
  }

  lemma OwnNamedAreOwnIds(s: Store, v: StateVector, me: string, id: OpId)
    requires OwnBad(Step2(s.doc, v), id, me)
    ensures NamedId(Step2(s.doc, v).cells[id]) in OwnIds(s.doc, Named(Step2(s.doc, v)), me)
  {
    OwnBadIsRetracted(s.doc, v, me, id);
    assert s.doc[id].Live? && Retracts(s.doc[id].element, Named(Step2(s.doc, v)), me);
  }

  /** Every named id is accounted for exactly when those of foreign structs are. */
  lemma NamedCovered(s: Session, v: StateVector, me: string)
    ensures var x := Step2(s.store.doc, v);
            var noted := s.retractedIds + OwnIds(s.store.doc, Named(x), me);
            Named(x) <= noted <==> forall id | id in x.cells && ForeignBad(x, id, me) :: NamedId(x.cells[id]) in noted
  {
    var x := Step2(s.store.doc, v);
    var noted := s.retractedIds + OwnIds(s.store.doc, Named(x), me);
    forall id | id in x.cells && BadWithId(x, id) ensures NamedId(x.cells[id]) in Named(x) {}
    if forall id | id in x.cells && ForeignBad(x, id, me) :: NamedId(x.cells[id]) in noted {
      forall name | name in Named(x) ensures name in noted {
        var id :| id in x.cells && BadWithId(x, id) && NamedId(x.cells[id]) == name;
        if OwnBad(x, id, me) {
          OwnNamedAreOwnIds(s.store, v, me, id);
        }
      }
    }
  }

  /** Without a null exactly the structs that are not one's own still offend after a rejection. */
  lemma BadWithoutNull(s: Store, v: StateVector, me: string, id: OpId)
    requires s.Ok() && !HasNull(s)
    ensures var x, x' := Step2(s.doc, v), Step2(TakenBack(s, v, me).doc, v);
            && (Bad(x', id) <==> Bad(x, id) && !OwnBad(x, id, me))
            && (Bad(x', id) ==> x'.cells[id] == x.cells[id])
  {
    StillBad(s, v, me, id);
    if Bad(Step2(s.doc, v), id) {
      WalkedWithoutNull(s, id);
    }
  }

  lemma WedgedStays(s: Session, v: StateVector, me: string)
    requires s.store.Ok() && !HasNull(s.store) && !s.refused && Wedged(s, v, me)
    ensures Bounces(s, v) && !AfterBounce(s, v, me).refused && Wedged(AfterBounce(s, v, me), v, me)
  {
    var x, s' := Step2(s.store.doc, v), AfterBounce(s, v, me);
    var x' := Step2(s'.store.doc, v);
    var f :| f in x.cells && ForeignBad(x, f, me);
    NamedCovered(s, v, me);
    WalkNotes(s.store, Named(x), me);
    assert NamedId(x.cells[f]) in Named(x);
    forall id ensures ForeignBad(x', id, me) <==> ForeignBad(x, id, me) {
      BadWithoutNull(s.store, v, me, id);
    }
    assert ForeignBad(x', f, me);
    forall id | id in x'.cells && ForeignBad(x', id, me) ensures NamedId(x'.cells[id]) in s'.retractedIds {
      BadWithoutNull(s.store, v, me, id);
      assert ForeignBad(x, id, me);
    }
  }

  lemma OutOfReachStays(s: Session, v: StateVector, me: string)
    requires s.store.Ok() && HasNull(s.store) && !s.refused && OutOfReach(s, v, me)
    ensures Bounces(s, v) && !AfterBounce(s, v, me).refused && OutOfReach(AfterBounce(s, v, me), v, me)
  {
    var x, t := Step2(s.store.doc, v), AfterBounce(s, v, me);
    var id :| Bad(x, id) && !Takable(s.store, v, me, id);
    RetractIsScan(s.store, Named(x), me);
    StillBad(s.store, v, me, id);
    assert id in t.store.order;
    RetractKeepsWalks(s.store, Named(x), me, id);
    assert Bad(Step2(t.store.doc, v), id) && !Takable(t.store, v, me, id);
  }

  /** Being stuck survives every rejection, and a stuck client bounces. */
  lemma StuckStays(s: Session, t: Session, v: StateVector, me: string)
    requires s.store.Ok() && Stuck(s, v, me) && t == AfterBounce(s, v, me)
    ensures Bounces(s, v) && Stuck(t, v, me)
  {
    NullStays(s, v, me);
    if HasNull(s.store) { OutOfReachStays(s, v, me); } else { WedgedStays(s, v, me); }
  }

  lemma StuckForever(s: Session, v: StateVector, me: string, n: nat)
    requires s.store.Ok() && Stuck(s, v, me)
    ensures Stuck(Bounced(s, v, me, n), v, me)
  {
    var t := s;
    for k := 0 to n
      invariant t == Bounced(s, v, me, k) && Stuck(t, v, me)
    {
      var next := AfterBounce(t, v, me);
      StuckStays(t, next, v, me);
      t := next;
    }
  }

  /** With a null in the array one rejection is enough if the walk gets to all that offends. */
  lemma OneBounceSuffices(s: Session, v: StateVector, me: string)
    requires s.store.Ok() && !OutOfReach(s, v, me)
    ensures !Bounces(AfterBounce(s, v, me), v)
  {
    RepairedExactlyWhenOwn(s.store, v, me);
  }

  /** Without one, two are enough unless the client is wedged. */
  lemma TwoBouncesSuffice(s: Session, v: StateVector, me: string)
    requires s.store.Ok() && !HasNull(s.store) && !Wedged(s, v, me) && Bounces(s, v)
    ensures var t := AfterBounce(s, v, me); !Bounces(t, v) || !Bounces(AfterBounce(t, v, me), v)
  {
    var x, t := Step2(s.store.doc, v), AfterBounce(s, v, me);
    NamedCovered(s, v, me);
    WalkNotes(s.store, Named(x), me);
    if Bounces(t, v) {
      // Not refused, so every named id is covered; not wedged, so no foreign struct has an id.
      var x' := Step2(t.store.doc, v);
      forall id ensures !BadWithId(x', id) {
        BadWithoutNull(s.store, v, me, id);
        if BadWithId(x', id) {
          assert ForeignBad(x, id, me);
          assert false;
        }
      }
      assert Named(x') == {};
      NullStays(s, v, me);
      WalkNotes(t.store, {}, me);
    }
  }

  /**
   When nothing else is in flight, the exchange ends after at most two rejections if and only if the
   client is not stuck; a stuck client is rejected forever.
   */
  lemma LoopEndsExactlyUnlessStuck(s: Session, v: StateVector, me: string)
    requires s.store.Ok()
    ensures EndsWithin(s, v, me, 2) <==> !Stuck(s, v, me)
    ensures Stuck(s, v, me) ==> forall n: nat :: Bounces(Bounced(s, v, me, n), v)
  {
    if Stuck(s, v, me) {
      forall n: nat ensures Bounces(Bounced(s, v, me, n), v) {
        StuckForever(s, v, me, n);
        var t := Bounced(s, v, me, n);
        StuckStays(t, AfterBounce(t, v, me), v, me);
      }
    } else {
      FirstBounces(s, v, me);
      if Bounces(s, v) {
        if HasNull(s.store) { OneBounceSuffices(s, v, me); } else { TwoBouncesSuffice(s, v, me); }
      }
    }
  }

  lemma FirstBounces(s: Session, v: StateVector, me: string)
    requires s.store.Ok()
    ensures Bounced(s, v, me, 0) == s && Bounced(s, v, me, 1) == AfterBounce(s, v, me)
    ensures Bounced(s, v, me, 2) == AfterBounce(AfterBounce(s, v, me), v, me)
  {
    assert Bounced(s, v, me, 1) == AfterBounce(Bounced(s, v, me, 0), v, me);
    assert Bounced(s, v, me, 2) == AfterBounce(Bounced(s, v, me, 1), v, me);
  }

  /** Message ids are unique: no foreign message shares an id with a message of ours, present or retracted. */
  predicate UniqueIds(s: Session, me: string)
  {
    var doc := s.store.doc;
    forall f, o | f in doc && doc[f].Live? && o in doc && doc[o].Live?
      && HasField(doc[f].element, "id") && HasField(doc[o].element, "id") ::
      var theirs, ours := doc[f].element, doc[o].element;
      !(HasField(theirs, "userId") && Field(theirs, "userId") == me) ==>
        && Field(theirs, "id") !in s.retractedIds
        && (HasField(ours, "userId") && Field(ours, "userId") == me ==> Field(theirs, "id") != Field(ours, "id"))
  }

  /** With unique message ids and no null in the array such an exchange always ends. */
  lemma UniqueIdsEndTheLoop(s: Session, v: StateVector, me: string)
    requires s.store.Ok() && UniqueIds(s, me) && !HasNull(s.store)
    ensures EndsWithin(s, v, me, 2)
  {
    var x := Step2(s.store.doc, v);
    forall f | f in x.cells && ForeignBad(x, f, me)
      ensures NamedId(x.cells[f]) !in s.retractedIds + OwnIds(s.store.doc, Named(x), me)
    {
      assert HasField(s.store.doc[f].element, "id") && Field(s.store.doc[f].element, "id") == NamedId(x.cells[f]);
    }
    LoopEndsExactlyUnlessStuck(s, v, me);
  }

  // ---------------------------------------------------------------- inputs on which it never ends

  function Bare(id: string, user: string): Json { Obj(map["id" := Str(id), "userId" := Str(user)]) }

  lemma BareIsBad(id: string, user: string)
    ensures !CleanElement(Plain(Bare(id, user)))
  {
    assert "content" !in Bare(id, user).fields && "content" in EnvelopeGate.MESSAGE_KEYS;
  }

  /** Our own plaintext and someone else's under one id. */
  lemma SharedIdSticks()
    ensures exists s: Session, v: StateVector, me: string ::
      s.store.Ok() && s.retractedIds == {} && !HasNull(s.store) && !EndsWithin(s, v, me, 2)
  {
    var a, b := OpId(1, 0), OpId(2, 0);
    var doc: Doc := map[a := Live(Plain(Bare("1", "me"))), b := Live(Plain(Bare("1", "you")))];
    var s := Session(Store(doc, [a, b]), {}, false);
    var x := Step2(doc, map[]);
    BareIsBad("1", "me");
    BareIsBad("1", "you");
    assert Dense(doc) && s.store.Ok();
    assert BadWithId(x, a) && BadWithId(x, b) && NamedId(x.cells[a]) == "1" == NamedId(x.cells[b]);
    assert ForeignBad(x, b, "me") && !ForeignBad(x, a, "me");
    OwnNamedAreOwnIds(s.store, map[], "me", a);
    assert Wedged(s, map[], "me");
    LoopEndsExactlyUnlessStuck(s, map[], "me");
  }

  /** Our own plaintext, and behind it a null that the server already holds: ids are unique, and nothing named is foreign. */
  lemma HeldNullSticks()
    ensures exists s: Session, v: StateVector, me: string ::
      && s.store.Ok() && s.retractedIds == {} && UniqueIds(s, me)
      && (forall id | Bad(Step2(s.store.doc, v), id) :: OwnBad(Step2(s.store.doc, v), id, me))
      && !EndsWithin(s, v, me, 2)
  {
    var a, n := OpId(1, 0), OpId(2, 0);
    var doc: Doc := map[a := Live(Plain(Bare("1", "me"))), n := Live(Plain(Null))];
    var v: StateVector := map[2 := 1];
    var s := Session(Store(doc, [a, n]), {}, false);
    var x := Step2(doc, v);
    BareIsBad("1", "me");
    assert Dense(doc) && s.store.Ok();
    assert Covers(v, n) && !Covers(v, a) && x.cells.Keys == {a} && OwnBad(x, a, "me");
    assert n in s.store.order && IsNull(doc[n].element);
    assert !Walked(doc, s.store.order, a);
    assert OutOfReach(s, v, "me");
    LoopEndsExactlyUnlessStuck(s, v, "me");
  }
}
