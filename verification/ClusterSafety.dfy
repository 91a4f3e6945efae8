/** What the envelope gate, the epochs and the publications keep over every run of the instances. */
module ClusterSafety {
  import opened Common
  import opened Replica
  import opened Wire
  import opened Cluster

  // ---------------------------------------------------------------- the gate

  /** A live element that is no enveloped message. */
  predicate Unclean(d: Doc, id: OpId) { id in d && !CleanCell(d[id]) }

  /** All plaintext in the documents, and on its way between them, came in through no gate. */
  ghost predicate PlaintextIsUngated(cl: Cluster)
  {
    && (forall j, id | 0 <= j < |cl.copies| && Unclean(cl.copies[j].doc, id) :: id in cl.ungated)
    && (forall j, x, id | 0 <= j < |cl.copies| && x in DocNotes(cl.copies[j].inbox) && Unclean(x.cells, id) ::
          id in cl.ungated)
  }

  lemma AbsorbUnclean(d: Doc, x: Delta, id: OpId)
    requires Unclean(Absorb(d, x), id)
    ensures Unclean(d, id) || (id !in d && Unclean(x.cells, id))
  {
  }

  /** What a gated copy newly holds after a client's frame is clean. */
  lemma GatedNewsIsClean(c: Copy, lobby: bool, f: ClientFrame, id: OpId)
    requires Gated(c, lobby)
    ensures !Unclean(Changes(c.doc, Absorb(c.doc, Applied(c, lobby, f))).cells, id)
  {
    var x := Applied(c, lobby, f);
    if (f.Answer? || f.Push?) && x != Delta(map[], {}) {
      AcceptedIsClean(if f.Answer? then f.answer else f.push);
    }
    assert CleanDelta(x);
    if Unclean(Absorb(c.doc, x), id) {
      AbsorbUnclean(c.doc, x, id);
    }
  }

  lemma ClientFrameKeepsGate(cl: Cluster, i: nat, f: ClientFrame)
    requires PlaintextIsUngated(cl) && i < |cl.copies|
    ensures PlaintextIsUngated(OnClientFrame(cl, i, f))
  {
    var c := cl.copies[i];
    var after := Absorb(c.doc, Applied(c, cl.lobby, f));
    var news := Changes(c.doc, after);
    var cl' := OnClientFrame(cl, i, f);
    if !IsEmpty(news) {
      forall id | Unclean(news.cells, id) ensures id in cl'.ungated {
        if Gated(c, cl.lobby) {
          GatedNewsIsClean(c, cl.lobby, f, id);
        }
      }
      forall j, id | 0 <= j < |cl'.copies| && Unclean(cl'.copies[j].doc, id) ensures id in cl'.ungated {
        if j == i && id !in c.doc {
          assert Unclean(news.cells, id);
        }
      }
      forall j, x, id | 0 <= j < |cl'.copies| && x in DocNotes(cl'.copies[j].inbox) && Unclean(x.cells, id)
        ensures id in cl'.ungated
      {
        DocNotesAppend(cl.copies[j].inbox, DocNote(news));
      }
    }
  }

  lemma StepKeepsGate(cl: Cluster, e: Event)
    requires PlaintextIsUngated(cl)
    ensures PlaintextIsUngated(Step(cl, e))
  {
    if e.at < |cl.copies| {
      var c, cl' := cl.copies[e.at], Step(cl, e);
      match e {
        case FromClient(i, f) => ClientFrameKeepsGate(cl, i, f);
        case Deliver(i) =>
          if c.inbox != [] && c.inbox[0].DocNote? {
            assert DocNotes(c.inbox) == [c.inbox[0].x] + DocNotes(c.inbox[1..]);
            assert c.inbox[0].x in DocNotes(c.inbox);
            forall id | Unclean(cl'.copies[i].doc, id) ensures id in cl.ungated {
              AbsorbUnclean(c.doc, c.inbox[0].x, id);
            }
          }
        case Claim(i) =>
        case Announce(i) =>
          if c.claims != [] {
            forall j | 0 <= j < |cl.copies| ensures DocNotes(cl'.copies[j].inbox) == DocNotes(cl.copies[j].inbox) {
              DocNotesAppend(cl.copies[j].inbox, EpochNote(c.claims[0]));
            }
          }
      }
    }
  }

  lemma {:induction false} RunKeepsGate(cl: Cluster, es: seq<Event>)
    requires PlaintextIsUngated(cl)
    ensures PlaintextIsUngated(Run(cl, es))
  {
    if es != [] {
      RunKeepsGate(cl, es[..|es| - 1]);
      StepKeepsGate(Run(cl, es[..|es| - 1]), es[|es| - 1]);
    }
  }

  /** Every instance knows that the room is encrypted. */
  predicate AllGated(cl: Cluster) { forall j | 0 <= j < |cl.copies| :: Gated(cl.copies[j], cl.lobby) }

  lemma {:induction false} GatedStays(cl: Cluster, es: seq<Event>)
    requires AllGated(cl)
    ensures AllGated(Run(cl, es)) && Run(cl, es).ungated == cl.ungated
  {
    if es != [] {
      GatedStays(cl, es[..|es| - 1]);
    }
  }

  /**
   The gate over whole runs.  From any reachable state in which every instance is gated, no
   interleaving of client frames, deliveries and claims brings a new plaintext element into any
   document: what is plaintext at the end was accepted before that point.
   */
  lemma NoPlaintextOnceAllGated(n: nat, doc: Doc, epoch: nat, before: seq<Event>, after: seq<Event>, j: nat, id: OpId)
    requires var mid := Run(Start(n, doc, epoch, false), before);
             AllGated(mid) && j < |Run(mid, after).copies| && Unclean(Run(mid, after).copies[j].doc, id)
    ensures id in Run(Start(n, doc, epoch, false), before).ungated
  {
    var mid := Run(Start(n, doc, epoch, false), before);
    RunKeepsGate(Start(n, doc, epoch, false), before);
    RunKeepsGate(mid, after);
    GatedStays(mid, after);
  }

  /** The ids that Redis delivered to instance i during a run. */
  function ViaRedis(cl: Cluster, es: seq<Event>, i: nat): set<OpId>
  {
    if es == [] then {}
    else
      var before := Run(cl, es[..|es| - 1]);
      ViaRedis(cl, es[..|es| - 1], i)
      + if es[|es| - 1] == Deliver(i) && i < |before.copies| && before.copies[i].inbox != []
           && before.copies[i].inbox[0].DocNote?
        then before.copies[i].inbox[0].x.cells.Keys else {}
  }

  /**
   The gate at one instance, whatever the others know.  From the moment its copy is gated, a plaintext
   element in it was already there or came through Redis.
   */
  lemma {:induction false} GatedCopyStaysClean(cl: Cluster, es: seq<Event>, i: nat, id: OpId)
    requires i < |cl.copies| && Gated(cl.copies[i], cl.lobby)
    ensures |Run(cl, es).copies| == |cl.copies| && Gated(Run(cl, es).copies[i], Run(cl, es).lobby)
    ensures Unclean(Run(cl, es).copies[i].doc, id) ==> Unclean(cl.copies[i].doc, id) || id in ViaRedis(cl, es, i)
  {
    if es != [] {
      var front, last := es[..|es| - 1], es[|es| - 1];
      GatedCopyStaysClean(cl, front, i, id);
      var before := Run(cl, front);
      if Unclean(Step(before, last).copies[i].doc, id) && !Unclean(before.copies[i].doc, id) {
        OnlyRedisAddsPlaintext(before, last, i, id);
      }
    }
  }

  lemma OnlyRedisAddsPlaintext(cl: Cluster, e: Event, i: nat, id: OpId)
    requires i < |cl.copies| && Gated(cl.copies[i], cl.lobby)
    requires Unclean(Step(cl, e).copies[i].doc, id) && !Unclean(cl.copies[i].doc, id)
    ensures e == Deliver(i) && cl.copies[i].inbox != [] && cl.copies[i].inbox[0].DocNote?
            && id in cl.copies[i].inbox[0].x.cells
  {
    var c := cl.copies[i];
    if e.FromClient? && e.at == i {
      GatedNewsIsClean(c, cl.lobby, e.frame, id);
    }
  }

  // ---------------------------------------------------------------- epochs

  predicate NotesAtMost(inbox: seq<Note>, k: nat) { forall x | x in inbox && x.EpochNote? :: x.keyId <= k }

  predicate ClaimsAtMost(claims: seq<nat>, k: nat) { forall c | c in claims :: c <= k }

  /** No copy is ahead of the database, and no event in flight is. */
  predicate EpochsBounded(cl: Cluster)
  {
    forall j | 0 <= j < |cl.copies| ::
      && cl.copies[j].epoch <= cl.db
      && NotesAtMost(cl.copies[j].inbox, cl.db)
      && ClaimsAtMost(cl.copies[j].claims, cl.db)
  }

  /** Copy j is at the database's epoch, or the news of it is still coming. */
  ghost predicate Informed(cl: Cluster, j: nat)
    requires j < |cl.copies|
  {
    || cl.copies[j].epoch == cl.db
    || EpochNote(cl.db) in cl.copies[j].inbox
    || exists i :: 0 <= i < |cl.copies| && cl.db in cl.copies[i].claims
  }

  ghost predicate EpochOnItsWay(cl: Cluster) { forall j | 0 <= j < |cl.copies| :: Informed(cl, j) }

  lemma StepKeepsBounds(cl: Cluster, e: Event)
    requires EpochsBounded(cl)
    ensures EpochsBounded(Step(cl, e))
  {
    var cl' := Step(cl, e);
    if e.at < |cl.copies| {
      var c := cl.copies[e.at];
      assert c.claims != [] ==> c.claims[0] in c.claims;
      assert c.inbox != [] ==> c.inbox[0] in c.inbox;
      forall j | 0 <= j < |cl'.copies|
        ensures && cl'.copies[j].epoch <= cl'.db
                && NotesAtMost(cl'.copies[j].inbox, cl'.db)
                && ClaimsAtMost(cl'.copies[j].claims, cl'.db)
      {
        assert NotesAtMost(cl.copies[j].inbox, cl.db) && ClaimsAtMost(cl.copies[j].claims, cl.db);
        assert forall k | k in cl'.copies[j].claims :: k in cl.copies[j].claims || k == cl'.db;
        assert forall x | x in cl'.copies[j].inbox ::
            x in cl.copies[j].inbox || (x.EpochNote? && c.claims != [] && x.keyId == c.claims[0]) || x.DocNote?;
      }
    }
  }

  lemma {:induction false} EpochsStayBounded(n: nat, doc: Doc, epoch: nat, lobby: bool, es: seq<Event>)
    ensures EpochsBounded(Run(Start(n, doc, epoch, lobby), es))
  {
    if es != [] {
      EpochsStayBounded(n, doc, epoch, lobby, es[..|es| - 1]);
      StepKeepsBounds(Run(Start(n, doc, epoch, lobby), es[..|es| - 1]), es[|es| - 1]);
    }
  }

  lemma StepKeepsInformed(cl: Cluster, e: Event, j: nat)
    requires EpochsBounded(cl) && j < |cl.copies| && e.at < |cl.copies| && Informed(cl, j)
    ensures |Step(cl, e).copies| == |cl.copies| && Informed(Step(cl, e), j)
  {
    var c, cl' := cl.copies[e.at], Step(cl, e);
    if e.Claim? {
      assert cl'.db in cl'.copies[e.at].claims;
    } else if i :| 0 <= i < |cl.copies| && cl.db in cl.copies[i].claims {
      if e.Announce? && e.at == i && c.claims[0] == cl.db {
        assert j != i ==> cl'.copies[j].inbox == cl.copies[j].inbox + [EpochNote(cl.db)];
        assert c.epoch <= cl.db;
      } else {
        assert cl.db in cl'.copies[i].claims;
      }
    } else if EpochNote(cl.db) in cl.copies[j].inbox {
      if e.Deliver? && e.at == j {
        assert c.inbox == [c.inbox[0]] + c.inbox[1..];
        assert c.epoch <= cl.db;
      } else {
        assert EpochNote(cl.db) in cl'.copies[j].inbox;
      }
    } else {
      assert e.Deliver? && e.at == j && c.inbox != [] ==> c.inbox[0] in c.inbox && NotesAtMost(c.inbox, cl.db);
      assert e.Announce? && e.at == j && c.claims != [] ==> c.claims[0] in c.claims && ClaimsAtMost(c.claims, cl.db);
    }
  }

  lemma StepKeepsEpochs(cl: Cluster, e: Event)
    requires EpochsBounded(cl) && EpochOnItsWay(cl)
    ensures EpochOnItsWay(Step(cl, e))
  {
    if e.at < |cl.copies| {
      forall j | 0 <= j < |Step(cl, e).copies| ensures Informed(Step(cl, e), j) {
        StepKeepsInformed(cl, e, j);
      }
    }
  }

  lemma {:induction false} EpochsStayOnTheirWay(n: nat, doc: Doc, epoch: nat, lobby: bool, es: seq<Event>)
    ensures EpochOnItsWay(Run(Start(n, doc, epoch, lobby), es))
  {
    if es != [] {
      EpochsStayBounded(n, doc, epoch, lobby, es[..|es| - 1]);
      EpochsStayOnTheirWay(n, doc, epoch, lobby, es[..|es| - 1]);
      StepKeepsEpochs(Run(Start(n, doc, epoch, lobby), es[..|es| - 1]), es[|es| - 1]);
    }
  }

  /** No step lowers an epoch. */
  lemma {:induction false} EpochsNeverFall(cl: Cluster, es: seq<Event>, j: nat)
    requires j < |cl.copies|
    ensures |Run(cl, es).copies| == |cl.copies| && cl.copies[j].epoch <= Run(cl, es).copies[j].epoch
  {
    if es != [] {
      EpochsNeverFall(cl, es[..|es| - 1], j);
    }
  }

  /** When every event has been announced and delivered, every copy is at the database's epoch. */
  lemma QuietMeansCurrent(n: nat, doc: Doc, epoch: nat, lobby: bool, es: seq<Event>, j: nat)
    requires var cl := Run(Start(n, doc, epoch, lobby), es);
             && j < |cl.copies|
             && forall i | 0 <= i < |cl.copies| :: cl.copies[i].inbox == [] && cl.copies[i].claims == []
    ensures var cl := Run(Start(n, doc, epoch, lobby), es); cl.copies[j].epoch == cl.db
  {
    EpochsStayOnTheirWay(n, doc, epoch, lobby, es);
    assert Informed(Run(Start(n, doc, epoch, lobby), es), j);
  }

  // ---------------------------------------------------------------- publications

  /** What an instance has published, its document holds; no two of its publications overlap. */
  predicate PublishedOnce(cl: Cluster)
  {
    && (forall p | p in cl.log :: p.publisher < |cl.copies|
         && (forall id | id in p.x.cells :: id in cl.copies[p.publisher].doc)
         && (forall id | id in p.x.deletes :: id in cl.copies[p.publisher].doc && cl.copies[p.publisher].doc[id].Deleted?))
    && (forall a, b | 0 <= a < b < |cl.log| && cl.log[a].publisher == cl.log[b].publisher ::
         cl.log[a].x.cells.Keys !! cl.log[b].x.cells.Keys && cl.log[a].x.deletes !! cl.log[b].x.deletes)
  }

  lemma DocsOnlyGrow(cl: Cluster, e: Event, j: nat)
    requires j < |cl.copies|
    ensures |Step(cl, e).copies| == |cl.copies| && Below(cl.copies[j].doc, Step(cl, e).copies[j].doc)
  {
  }

  lemma StepPublishesOnce(cl: Cluster, e: Event)
    requires PublishedOnce(cl)
    ensures PublishedOnce(Step(cl, e))
  {
    var cl' := Step(cl, e);
    forall j | 0 <= j < |cl.copies| ensures Below(cl.copies[j].doc, cl'.copies[j].doc) {
      DocsOnlyGrow(cl, e, j);
    }
    if cl'.log != cl.log {
      var i := e.at;
      var news := Changes(cl.copies[i].doc, cl'.copies[i].doc);
      assert cl'.log == cl.log + [Publication(i, news)];
      forall a, b | 0 <= a < b < |cl'.log| && cl'.log[a].publisher == cl'.log[b].publisher
        ensures cl'.log[a].x.cells.Keys !! cl'.log[b].x.cells.Keys && cl'.log[a].x.deletes !! cl'.log[b].x.deletes
      {
        assert cl'.log[a] == cl.log[a] && cl.log[a] in cl.log;
      }
    }
  }

  /** An instance publishes an operation at most once, and its deletion at most once, in any run. */
  lemma {:induction false} EachIsPublishedOnce(n: nat, doc: Doc, epoch: nat, lobby: bool, es: seq<Event>)
    ensures PublishedOnce(Run(Start(n, doc, epoch, lobby), es))
  {
    if es != [] {
      EachIsPublishedOnce(n, doc, epoch, lobby, es[..|es| - 1]);
      StepPublishesOnce(Run(Start(n, doc, epoch, lobby), es[..|es| - 1]), es[|es| - 1]);
    }
  }
}
