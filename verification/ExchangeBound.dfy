/** What the runs of module Exchange keep, and how many of the client's frames they can refuse. */
module ExchangeBound {
  import opened JsonText
  import opened Replica
  import opened Engine
  import opened Wire
  import opened Provider
  import opened Repair
  import Throttle
  import opened Exchange

  // ---------------------------------------------------------------- levels

  lemma LevelFalls(element: OpId -> Element, me: string, doc: Doc, refused: bool, frames: seq<ServerFrame>, v: StateVector,
                   doc': Doc, refused': bool, frames': seq<ServerFrame>, v': StateVector)
    requires Doomed(element, me, refused, frames) ==> Doomed(element, me, refused', frames')
    requires forall id | Lingers(doc', frames', me, v', id) :: Lingers(doc, frames, me, v, id) && doc'[id] == doc[id]
    ensures Level(element, me, doc', refused', frames', v') <= Level(element, me, doc, refused, frames, v)
  {}

  /** Handling frame f leads from one document and verdict to another. */
  ghost predicate Passes(element: OpId -> Element, me: string, f: ServerFrame,
                         doc: Doc, refused: bool, doc': Doc, refused': bool)
  {
    && (refused || Dooms(element, me, f) ==> refused')
    && forall id | id in doc' && doc'[id].Live? ::
         Brings(f, id)
         || (id in doc && doc[id] == doc'[id] && !(f.Rejected? && Retracts(doc[id].element, AsSet(f.ids), me)))
  }

  lemma PassLevel(element: OpId -> Element, me: string, f: ServerFrame, doc: Doc, refused: bool,
                  doc': Doc, refused': bool, frames: seq<ServerFrame>, v: StateVector)
    requires Passes(element, me, f, doc, refused, doc', refused') && forall id | Brings(f, id) :: Covers(v, id)
    ensures Level(element, me, doc', refused', frames, v) <= Level(element, me, doc, refused, [f] + frames, v)
  {
    forall id | Lingers(doc', frames, me, v, id) ensures Lingers(doc, [f] + frames, me, v, id) && doc'[id] == doc[id] {
      assert id in doc && doc[id] == doc'[id];
    }
    LevelFalls(element, me, doc, refused, [f] + frames, v, doc', refused', frames, v);
  }

  /** The asks behind f weigh no more once f has been handled. */
  lemma {:induction false} PassAsks(element: OpId -> Element, me: string, doc: Doc, refused: bool,
                                    doc': Doc, refused': bool, down: seq<ServerFrame>, n: nat)
    requires n < |down| && Passes(element, me, down[0], doc, refused, doc', refused')
    requires forall k: nat | k < |down| :: AskOk(down, k)
    ensures AskWeight(element, me, doc', refused', down[1..], n)
            + (if down[0].Ask? then Level(element, me, doc, refused, [], down[0].vector) else 0)
            <= AskWeight(element, me, doc, refused, down, n + 1)
  {
    if n == 0 {
      assert down[..0] == [];
    } else {
      PassAsks(element, me, doc, refused, doc', refused', down, n - 1);
      if down[n].Ask? { PassOne(element, me, doc, refused, doc', refused', down, n); }
    }
  }

  lemma PassOne(element: OpId -> Element, me: string, doc: Doc, refused: bool,
                doc': Doc, refused': bool, down: seq<ServerFrame>, n: nat)
    requires 0 < n < |down| && Passes(element, me, down[0], doc, refused, doc', refused')
    requires AskOk(down, n) && down[n].Ask?
    ensures Level(element, me, doc', refused', down[1..][..n - 1], down[n].vector)
            <= Level(element, me, doc, refused, down[..n], down[n].vector)
  {
    assert down[..n] == [down[0]] + down[1..][..n - 1];
    assert down[0] in down[..n];
    PassLevel(element, me, down[0], doc, refused, doc', refused', down[1..][..n - 1], down[n].vector);
  }

  lemma {:induction false} AsksAppend(element: OpId -> Element, me: string, doc: Doc, refused: bool,
                                      down: seq<ServerFrame>, more: seq<ServerFrame>, n: nat)
    requires n <= |down|
    ensures AskWeight(element, me, doc, refused, down + more, n) == AskWeight(element, me, doc, refused, down, n)
  {
    if n > 0 {
      AsksAppend(element, me, doc, refused, down, more, n - 1);
      assert (down + more)[..n - 1] == down[..n - 1];
    }
  }

  lemma AsksSnoc(element: OpId -> Element, me: string, doc: Doc, refused: bool, down: seq<ServerFrame>, f: ServerFrame)
    ensures AskWeight(element, me, doc, refused, down + [f], |down| + 1)
            == AskWeight(element, me, doc, refused, down, |down|)
               + if f.Ask? then Level(element, me, doc, refused, down, f.vector) else 0
  {
    AsksAppend(element, me, doc, refused, down, [f], |down|);
    assert (down + [f])[..|down|] == down;
  }

  /** A document with no new offending element makes no ask heavier. */
  predicate NoWorse(doc: Doc, doc': Doc)
  {
    forall id | id in doc' && doc'[id].Live? && !CleanElement(doc'[id].element) :: id in doc && doc[id] == doc'[id]
  }

  lemma {:induction false} AsksFall(element: OpId -> Element, me: string, doc: Doc, doc': Doc, refused: bool,
                                    down: seq<ServerFrame>, n: nat)
    requires n <= |down| && NoWorse(doc, doc')
    ensures AskWeight(element, me, doc', refused, down, n) <= AskWeight(element, me, doc, refused, down, n)
  {
    if n > 0 {
      AsksFall(element, me, doc, doc', refused, down, n - 1);
      if down[n - 1].Ask? {
        LevelFalls(element, me, doc, refused, down[..n - 1], down[n - 1].vector,
                   doc', refused, down[..n - 1], down[n - 1].vector);
      }
    }
  }

  // ---------------------------------------------------------------- weights

  lemma {:induction false} UpSnoc(sent: seq<Outgoing>, from: nat, f: Outgoing)
    requires from <= |sent|
    ensures UpWeight(sent + [f], from) == UpWeight(sent, from) + Weight(f)
    decreases |sent| - from
  {
    if from < |sent| { UpSnoc(sent, from + 1, f); }
  }

  lemma {:induction false} FlushWeighs(c: Client, updates: seq<Delta>, from: nat)
    requires c.open && from <= |c.sent|
    ensures Flushed(c, updates).open && c.sent <= Flushed(c, updates).sent
    ensures UpWeight(Flushed(c, updates).sent, from) == UpWeight(c.sent, from) + QueueWeight(updates)
    ensures forall i | |c.sent| <= i < |Flushed(c, updates).sent| ::
              Flushed(c, updates).sent[i].SendUpdate? && Flushed(c, updates).sent[i].x in updates
  {
    if updates != [] {
      var front, last := updates[..|updates| - 1], updates[|updates| - 1];
      FlushWeighs(c, front, from);
      UpSnoc(Flushed(c, front).sent, from, SendUpdate(last));
      assert updates == front + [last];
    }
  }

  /** An answer weighs what the ask it answers weighed. */
  lemma AnswerWeight(element: OpId -> Element, me: string, doc: Doc, v: StateVector)
    ensures Weight(SendAnswer(Diff(doc, v))) == Level(element, me, doc, false, [], v)
  {
    var x := Diff(doc, v);
    forall id ensures Bad(x, id) <==> Lingers(doc, [], me, v, id) {}
    CleanMeansNoBad(x);
    forall id | Lingers(doc, [], me, v, id) && HasField(doc[id].element, "id")
      ensures Field(doc[id].element, "id") in Named(x)
    {
      assert BadWithId(x, id) && NamedId(x.cells[id]) == Field(doc[id].element, "id");
    }
    if Named(x) != {} {
      var name :| name in Named(x);
      var id :| id in x.cells && BadWithId(x, id) && NamedId(x.cells[id]) == name;
      assert Lingers(doc, [], me, v, id) && HasField(doc[id].element, "id");
    }
  }

  /** What an answer's rejection leaves to linger is lighter than the answer was. */
  lemma RefusedAnswerWeighs(w: World, g: Setting, element: OpId -> Element, x: Delta, ids: seq<string>)
    requires Inv(w, g.me, element) && Sane(element, g.me) && !CleanDelta(x) && AsSet(ids) == Named(x)
    requires SentOk(w, SendAnswer(x), element)
    ensures Level(element, g.me, w.client.store.doc, w.client.stateRefused,
                  w.down + [Rejected(g.keyId, ids)], Vector(w.server)) < Weight(SendAnswer(x))
  {
    var doc, rejected := w.client.store.doc, Rejected(g.keyId, ids);
    var frames := w.down + [rejected];
    assert rejected in frames;
    NoneNamed(ids);
    if Named(x) == {} {
      assert Dooms(element, g.me, rejected);
    } else if !Doomed(element, g.me, w.client.stateRefused, frames) {
      forall id | Lingers(doc, frames, g.me, Vector(w.server), id) ensures !HasField(doc[id].element, "id") {
        VectorCoversExactly(w.server, id);
        assert Loose(w, id);
        if HasField(doc[id].element, "id") { NamedIsTakenBack(element, g.me, x, ids, doc, id); }
      }
    }
  }

  lemma NoneNamed(ids: seq<string>)
    ensures AsSet(ids) == {} <==> ids == []
  {
    if ids != [] { assert ids[0] in AsSet(ids); }
  }

  lemma NamedIsTakenBack(element: OpId -> Element, me: string, x: Delta, ids: seq<string>, doc: Doc, id: OpId)
    requires Sane(element, me) && Honest(doc, element) && Honest(x.cells, element) && AsSet(ids) == Named(x)
    requires id in doc && doc[id].Live? && !CleanElement(doc[id].element) && HasField(doc[id].element, "id")
    requires id in x.cells && x.cells[id].Live? && forall name | name in ids :: OwnName(element, me, name)
    ensures Retracts(doc[id].element, AsSet(ids), me)
  {
    assert x.cells[id].element == doc[id].element == element(id);
    assert BadWithId(x, id) && NamedId(x.cells[id]) in Named(x);
    assert Field(doc[id].element, "id") in ids;
  }
}
