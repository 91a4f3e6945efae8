/**
 Several server instances holding one room: apps/server/src/sync/sync.gateway.ts over a run.

 Every instance applies client updates behind the envelope gate, announces what was new to it to the
 others through Redis, and raises its epoch when a claim's event reaches it.  Redis delivers to each
 instance in publication order; instances start from the same loaded document and keep the room.
 */
module Cluster {
  import opened Common
  import opened Replica
  import opened Wire

  datatype Note = DocNote(x: Delta) | EpochNote(keyId: nat)

  /** One instance's copy of the room, what Redis still has to deliver to it, and claims it has to announce. */
  datatype Copy = Copy(doc: Doc, epoch: nat, inbox: seq<Note>, claims: seq<nat>)

  datatype Publication = Publication(publisher: nat, x: Delta)

  /** `ungated` collects the ids accepted from clients without the gate, and those loaded at the start. */
  datatype Cluster = Cluster(copies: seq<Copy>, db: nat, lobby: bool, ungated: set<OpId>, log: seq<Publication>)

  datatype Event =
    | FromClient(at: nat, frame: ClientFrame)
    | Deliver(at: nat)
    | Claim(at: nat)          // an epoch claim commits through instance `at`
    | Announce(at: nat)       // ... and its event fires there

  // ---------------------------------------------------------------- steps

  predicate Gated(c: Copy, lobby: bool) { c.epoch > 0 && !lobby }

  /** The update a frame would apply, unless the gate refuses it or it does not decode. */
  function Applied(c: Copy, lobby: bool, f: ClientFrame): Delta
  {
    if !(f.Answer? || f.Push?) then Delta(map[], {})
    else
      var u := if f.Answer? then f.answer else f.push;
      if u.Undecodable? || (Gated(c, lobby) && !GateAccepts(u)) then Delta(map[], {}) else DeltaOf(u)
  }

  function Publish(copies: seq<Copy>, from: nat, note: Note): (r: seq<Copy>)
    ensures |r| == |copies|
    ensures forall j | 0 <= j < |r| ::
      r[j] == if j == from then copies[j] else copies[j].(inbox := copies[j].inbox + [note])
  {
    seq(|copies|, j requires 0 <= j < |copies| =>
      if j == from then copies[j] else copies[j].(inbox := copies[j].inbox + [note]))
  }

  function OnClientFrame(cl: Cluster, i: nat, f: ClientFrame): Cluster
    requires i < |cl.copies|
  {
    var c := cl.copies[i];
    var after := Absorb(c.doc, Applied(c, cl.lobby, f));
    var news := Changes(c.doc, after);
    if IsEmpty(news) then cl
    else cl.(copies := Publish(cl.copies[i := c.(doc := after)], i, DocNote(news)),
             ungated := if Gated(c, cl.lobby) then cl.ungated else cl.ungated + news.cells.Keys,
             log := cl.log + [Publication(i, news)])
  }

  function OnDelivery(c: Copy): Copy
    requires c.inbox != []
  {
    match c.inbox[0]
    case DocNote(x) => c.(doc := Absorb(c.doc, x), inbox := c.inbox[1..])
    case EpochNote(k) => c.(epoch := Max(c.epoch, k), inbox := c.inbox[1..])
  }

  function Step(cl: Cluster, e: Event): Cluster
  {
    if e.at >= |cl.copies| then cl
    else
      var c := cl.copies[e.at];
      match e
      case FromClient(i, f) => OnClientFrame(cl, i, f)
      case Deliver(i) => if c.inbox == [] then cl else cl.(copies := cl.copies[i := OnDelivery(c)])
      case Claim(i) => cl.(db := cl.db + 1, copies := cl.copies[i := c.(claims := c.claims + [cl.db + 1])])
      case Announce(i) =>
        if c.claims == [] then cl
        else
          var raised := c.(epoch := Max(c.epoch, c.claims[0]), claims := c.claims[1..]);
          cl.(copies := Publish(cl.copies[i := raised], i, EpochNote(c.claims[0])))
  }

  function Run(cl: Cluster, es: seq<Event>): Cluster
  {
    if es == [] then cl else Step(Run(cl, es[..|es| - 1]), es[|es| - 1])
  }

  /** n instances that have just loaded the same room. */
  function Start(n: nat, doc: Doc, epoch: nat, lobby: bool): Cluster
  {
    Cluster(seq(n, _ => Copy(doc, epoch, [], [])), epoch, lobby, doc.Keys, [])
  }

  // ---------------------------------------------------------------- convergence

  function DocNotes(inbox: seq<Note>): seq<Delta>
  {
    if inbox == [] then []
    else (if inbox[0].DocNote? then [inbox[0].x] else []) + DocNotes(inbox[1..])
  }

  /** Where a copy will be once its inbox has been delivered. */
  function Settled(c: Copy): Doc { AbsorbAll(c.doc, DocNotes(c.inbox)) }

  /** Every update in the list is complete for the document it will find. */
  predicate Chain(d: Doc, xs: seq<Delta>)
    decreases |xs|
  {
    xs == [] || (Complete(d, xs[0]) && Chain(Absorb(d, xs[0]), xs[1..]))
  }

  ghost predicate HonestAll(xs: seq<Delta>, element: OpId -> Element)
  {
    forall x | x in xs :: Honest(x.cells, element)
  }

  ghost predicate CopyOk(c: Copy, element: OpId -> Element)
  {
    && Dense(c.doc) && Honest(c.doc, element)
    && HonestAll(DocNotes(c.inbox), element)
    && Chain(c.doc, DocNotes(c.inbox))
  }

  /** Every copy is bound for one and the same document. */
  ghost predicate Converging(cl: Cluster, target: Doc, element: OpId -> Element)
  {
    && Dense(target)
    && forall j | 0 <= j < |cl.copies| :: CopyOk(cl.copies[j], element) && Settled(cl.copies[j]) == target
  }

  /** A complete update can be applied before or after the pending ones. */
  lemma {:induction false} AbsorbPastChain(d: Doc, xs: seq<Delta>, y: Delta, element: OpId -> Element)
    requires Chain(d, xs) && Complete(d, y)
    requires Honest(d, element) && HonestAll(xs, element) && Honest(y.cells, element)
    ensures Chain(Absorb(d, y), xs) && Complete(AbsorbAll(d, xs), y)
    ensures AbsorbAll(Absorb(d, y), xs) == Absorb(AbsorbAll(d, xs), y)
    decreases |xs|
  {
    if xs != [] {
      var x, rest := xs[0], xs[1..];
      assert x in xs && forall z | z in rest :: z in xs;
      AbsorbIsBelow(d, x);
      AbsorbIsBelow(d, y);
      CompleteIsMonotone(d, Absorb(d, x), y);
      CompleteIsMonotone(d, Absorb(d, y), x);
      AbsorbIsHonest(d, x, element);
      AbsorbCommutes(d, x, y, element);
      AbsorbPastChain(Absorb(d, x), rest, y, element);
    }
  }

  lemma {:induction false} ChainExtends(d: Doc, xs: seq<Delta>, y: Delta)
    requires Chain(d, xs) && Complete(AbsorbAll(d, xs), y)
    ensures Chain(d, xs + [y]) && AbsorbAll(d, xs + [y]) == Absorb(AbsorbAll(d, xs), y)
    decreases |xs|
  {
    if xs == [] {
      assert xs + [y] == [y];
      assert [y][1..] == [];
    } else {
      assert (xs + [y])[0] == xs[0] && (xs + [y])[1..] == xs[1..] + [y];
      ChainExtends(Absorb(d, xs[0]), xs[1..], y);
    }
  }

  lemma {:induction false} DocNotesAppend(inbox: seq<Note>, note: Note)
    ensures DocNotes(inbox + [note]) == DocNotes(inbox) + (if note.DocNote? then [note.x] else [])
  {
    if inbox == [] {
      assert inbox + [note] == [note] && [note][1..] == [];
    } else {
      assert (inbox + [note])[0] == inbox[0] && (inbox + [note])[1..] == inbox[1..] + [note];
      DocNotesAppend(inbox[1..], note);
    }
  }

  /** Receiving a publication moves a copy's destination along with the publisher's. */
  lemma CopyReceives(c: Copy, target: Doc, x: Delta, element: OpId -> Element)
    requires CopyOk(c, element) && Settled(c) == target && Complete(target, x) && Honest(x.cells, element)
    ensures var c' := c.(inbox := c.inbox + [DocNote(x)]); CopyOk(c', element) && Settled(c') == Absorb(target, x)
  {
    DocNotesAppend(c.inbox, DocNote(x));
    ChainExtends(c.doc, DocNotes(c.inbox), x);
  }

  /** An epoch note changes no copy's destination. */
  lemma CopyHearsEpoch(c: Copy, k: nat, element: OpId -> Element)
    requires CopyOk(c, element)
    ensures var c' := c.(inbox := c.inbox + [EpochNote(k)]); CopyOk(c', element) && Settled(c') == Settled(c)
  {
    DocNotesAppend(c.inbox, EpochNote(k));
    assert DocNotes(c.inbox) + [] == DocNotes(c.inbox);
  }

  /** The publisher itself: its new document, with the same inbox, is bound for the new target. */
  lemma CopyAccepts(c: Copy, x: Delta, element: OpId -> Element)
    requires CopyOk(c, element) && Honest(x.cells, element)
    ensures var after := Absorb(c.doc, x);
            var news := Changes(c.doc, after);
            && CopyOk(c.(doc := after), element)
            && Complete(Settled(c), news) && Honest(news.cells, element)
            && Settled(c.(doc := after)) == Absorb(Settled(c), news)
  {
    var after := Absorb(c.doc, x);
    var news := Changes(c.doc, after);
    AbsorbIsDense(c.doc, x);
    AbsorbIsHonest(c.doc, x, element);
    ChangesReplay(c.doc, after);
    AbsorbPastChain(c.doc, DocNotes(c.inbox), news, element);
  }

  lemma CopyDelivers(c: Copy, element: OpId -> Element)
    requires CopyOk(c, element) && c.inbox != []
    ensures CopyOk(OnDelivery(c), element) && Settled(OnDelivery(c)) == Settled(c)
  {
    if c.inbox[0].DocNote? {
      var x := c.inbox[0].x;
      var xs := DocNotes(c.inbox);
      assert xs[0] == x && xs[1..] == DocNotes(c.inbox[1..]);
      assert x in xs;
      AbsorbIsDense(c.doc, x);
      AbsorbIsHonest(c.doc, x, element);
      assert forall z | z in xs[1..] :: z in xs;
    } else {
      assert DocNotes(c.inbox) == DocNotes(c.inbox[1..]);
    }
  }

  /** The elements that a client's frame carries are the ones their ids name. */
  ghost predicate HonestFrame(f: ClientFrame, element: OpId -> Element)
  {
    && (f.Answer? && f.answer.Update? ==> Honest(Cells(f.answer.structs), element))
    && (f.Push? && f.push.Update? ==> Honest(Cells(f.push.structs), element))
  }

  ghost predicate HonestEvents(es: seq<Event>, element: OpId -> Element)
  {
    forall e | e in es && e.FromClient? :: HonestFrame(e.frame, element)
  }

  lemma ClientFrameConverges(cl: Cluster, i: nat, f: ClientFrame, target: Doc, element: OpId -> Element)
    returns (target': Doc)
    requires Converging(cl, target, element) && i < |cl.copies| && HonestFrame(f, element)
    ensures Converging(OnClientFrame(cl, i, f), target', element)
  {
    var c := cl.copies[i];
    var x := Applied(c, cl.lobby, f);
    var after := Absorb(c.doc, x);
    var news := Changes(c.doc, after);
    if IsEmpty(news) {
      return target;
    }
    CopyAccepts(c, x, element);
    target' := Absorb(target, news);
    AbsorbIsDense(target, news);
    var cl' := OnClientFrame(cl, i, f);
    forall j | 0 <= j < |cl'.copies| ensures CopyOk(cl'.copies[j], element) && Settled(cl'.copies[j]) == target' {
      if j != i {
        CopyReceives(cl.copies[j], target, news, element);
      }
    }
  }

  lemma StepConverges(cl: Cluster, e: Event, target: Doc, element: OpId -> Element) returns (target': Doc)
    requires Converging(cl, target, element) && (e.FromClient? ==> HonestFrame(e.frame, element))
    ensures Converging(Step(cl, e), target', element)
  {
    target' := target;
    if e.at < |cl.copies| {
      match e {
        case FromClient(i, f) => target' := ClientFrameConverges(cl, i, f, target, element);
        case Deliver(i) =>
          if cl.copies[i].inbox != [] {
            CopyDelivers(cl.copies[i], element);
          }
        case Claim(i) =>
        case Announce(i) =>
          if cl.copies[i].claims != [] {
            forall j | 0 <= j < |cl.copies| && j != i
              ensures CopyOk(Step(cl, e).copies[j], element) && Settled(Step(cl, e).copies[j]) == target
            {
              CopyHearsEpoch(cl.copies[j], cl.copies[i].claims[0], element);
            }
          }
      }
    }
  }

  lemma {:induction false} RunConverges(n: nat, doc: Doc, epoch: nat, lobby: bool, es: seq<Event>,
                                        element: OpId -> Element) returns (target: Doc)
    requires Dense(doc) && Honest(doc, element) && HonestEvents(es, element)
    ensures Converging(Run(Start(n, doc, epoch, lobby), es), target, element)
  {
    if es == [] {
      target := doc;
    } else {
      var front := es[..|es| - 1];
      assert es[|es| - 1] in es && forall e | e in front :: e in es;
      target := RunConverges(n, doc, epoch, lobby, front, element);
      target := StepConverges(Run(Start(n, doc, epoch, lobby), front), es[|es| - 1], target, element);
    }
  }

  lemma {:induction false} AbsorbAllOrigin(d: Doc, xs: seq<Delta>, id: OpId)
    ensures id in d ==> id in AbsorbAll(d, xs)
    ensures id in AbsorbAll(d, xs) ==> id in d || exists x :: x in xs && id in x.cells
    decreases |xs|
  {
    if xs != [] {
      AbsorbAllOrigin(Absorb(d, xs[0]), xs[1..], id);
      if x :| x in xs[1..] && id in x.cells {
        assert x in xs;
      }
      assert xs[0] in xs;
    }
  }

  /**
   In every reachable state, an operation held by any instance is held by every other one or is still
   on its way there.
   */
  lemma NothingIsLost(n: nat, doc: Doc, epoch: nat, lobby: bool, es: seq<Event>, element: OpId -> Element,
                      i: nat, j: nat, id: OpId)
    requires Dense(doc) && Honest(doc, element) && HonestEvents(es, element)
    requires i < |Run(Start(n, doc, epoch, lobby), es).copies| && j < |Run(Start(n, doc, epoch, lobby), es).copies|
    requires id in Run(Start(n, doc, epoch, lobby), es).copies[i].doc
    ensures var c := Run(Start(n, doc, epoch, lobby), es).copies[j];
            id in c.doc || exists x :: x in DocNotes(c.inbox) && id in x.cells
  {
    var target := RunConverges(n, doc, epoch, lobby, es, element);
    var copies := Run(Start(n, doc, epoch, lobby), es).copies;
    AbsorbAllOrigin(copies[i].doc, DocNotes(copies[i].inbox), id);
    AbsorbAllOrigin(copies[j].doc, DocNotes(copies[j].inbox), id);
  }

  /** Once Redis has drained, all instances hold the same document: no operation and no deletion differs. */
  lemma DrainedMeansEqual(n: nat, doc: Doc, epoch: nat, lobby: bool, es: seq<Event>, element: OpId -> Element,
                          i: nat, j: nat)
    requires Dense(doc) && Honest(doc, element) && HonestEvents(es, element)
    requires var copies := Run(Start(n, doc, epoch, lobby), es).copies;
             i < |copies| && j < |copies| && copies[i].inbox == [] && copies[j].inbox == []
    ensures var copies := Run(Start(n, doc, epoch, lobby), es).copies; copies[i].doc == copies[j].doc
  {
    var target := RunConverges(n, doc, epoch, lobby, es, element);
    var copies := Run(Start(n, doc, epoch, lobby), es).copies;
    assert Settled(copies[i]) == copies[i].doc && Settled(copies[j]) == copies[j].doc;
  }
}
