/**
 The replicated room document, in place of the Yjs library: a map from operation ids to cells, one
 cell per array element.  A tombstone wins over a live cell; a state vector is the length of the
 gap-free prefix known of each client; a struct behind a gap is dropped, and the next full answer to
 a state vector carries it again.
 */
module Replica {
  import opened JsonText

  datatype OpId = OpId(client: nat, clock: nat)

  datatype Element = Plain(value: Json) | NonValue

  datatype Cell = Live(element: Element) | Deleted

  type Doc = map<OpId, Cell>

  /** The content of an update: structs, and the ids it deletes. */
  datatype Delta = Delta(cells: Doc, deletes: set<OpId>)

  /** All operations before a given one of the same client are known. */
  predicate Fits(d: Doc, cells: Doc, id: OpId)
  {
    forall k: nat | k < id.clock :: OpId(id.client, k) in d || OpId(id.client, k) in cells
  }

  predicate Dense(d: Doc) { forall id | id in d :: Fits(d, map[], id) }

  /** Applying an update: gap-free structs are integrated, deletions of known ids take effect. */
  function Absorb(d: Doc, x: Delta): Doc
  {
    map id | id in d.Keys + x.cells.Keys && (id in d || Fits(d, x.cells, id)) ::
      if id in x.deletes || (id in d && d[id].Deleted?) || (id in x.cells && x.cells[id].Deleted?) then Deleted
      else if id in d then d[id]
      else x.cells[id]
  }

  function AbsorbAll(d: Doc, xs: seq<Delta>): Doc
    decreases |xs|
  {
    if xs == [] then d else AbsorbAll(Absorb(d, xs[0]), xs[1..])
  }

  /** What an absorbing document newly learned: the update it announces to its peers. */
  function Changes(d: Doc, after: Doc): Delta
  {
    Delta(map id | id in after && id !in d :: after[id],
          set id | id in after && id in d && d[id].Live? && after[id].Deleted?)
  }

  predicate IsEmpty(x: Delta) { x.cells == map[] && x.deletes == {} }

  /** d never had more than e: no id is lost and no cell changes except into a tombstone. */
  predicate Below(d: Doc, e: Doc)
  {
    forall id | id in d :: id in e && (e[id] == d[id] || e[id].Deleted?)
  }

  /** An operation id names one element: the live cells of all documents are drawn from `element`. */
  ghost predicate Honest(d: Doc, element: OpId -> Element)
  {
    forall id | id in d && d[id].Live? :: d[id].element == element(id)
  }

  function Join(d: Doc, e: Doc): Doc
  {
    map id | id in d.Keys + e.Keys ::
      if (id in d && d[id].Deleted?) || (id in e && e[id].Deleted?) then Deleted
      else if id in d then d[id] else e[id]
  }

  // ---------------------------------------------------------------- one id at a time

  datatype Slot = Absent | Present(cell: Cell)

  function At(d: Doc, id: OpId): Slot { if id in d then Present(d[id]) else Absent }

  function JoinSlots(a: Slot, b: Slot): Slot
  {
    if a.Absent? then b
    else if b.Absent? then a
    else if b.cell.Deleted? then b else a
  }

  function Kill(a: Slot, killed: bool): Slot { if a.Present? && killed then Present(Deleted) else a }

  lemma Extensional(d: Doc, e: Doc)
    requires forall id :: At(d, id) == At(e, id)
    ensures d == e
  {
    assert forall id :: id in d <==> At(d, id).Present?;
    assert forall id :: id in e <==> At(e, id).Present?;
    assert d.Keys == e.Keys;
    assert forall id | id in d :: At(d, id).cell == At(e, id).cell;
  }

  // ---------------------------------------------------------------- state vectors

  type StateVector = map<nat, nat>

  /** How many operations of a client, counted from `from`, are known without a gap. */
  function PrefixLength(d: Doc, client: nat, from: nat): nat
    decreases |d.Keys|
  {
    var id := OpId(client, from);
    if id in d then
      assert (d - {id}).Keys == d.Keys - {id};
      1 + PrefixLength(d - {id}, client, from + 1)
    else 0
  }

  function Vector(d: Doc): StateVector
  {
    map c | c in (set id | id in d :: id.client) :: PrefixLength(d, c, 0)
  }

  predicate Covers(v: StateVector, id: OpId) { id.client in v && id.clock < v[id.client] }

  /** The answer to a state vector: every struct past it, and all deletions. */
  function Diff(d: Doc, v: StateVector): Delta
  {
    Delta(map id | id in d && !Covers(v, id) :: d[id], set id | id in d && d[id].Deleted?)
  }

  lemma {:induction false} PrefixIsKnown(d: Doc, client: nat, from: nat, k: nat)
    requires from <= k
    ensures k < from + PrefixLength(d, client, from) ==> OpId(client, k) in d
    ensures k == from + PrefixLength(d, client, from) ==> OpId(client, k) !in d
    decreases |d.Keys|
  {
    var id := OpId(client, from);
    if id in d {
      assert (d - {id}).Keys == d.Keys - {id};
      if k > from {
        PrefixIsKnown(d - {id}, client, from + 1, k);
      }
    }
  }

  /** On a gap-free document the vector covers exactly the known ids. */
  lemma VectorCoversExactly(d: Doc, id: OpId)
    requires Dense(d)
    ensures Covers(Vector(d), id) <==> id in d
  {
    var n := PrefixLength(d, id.client, 0);
    PrefixIsKnown(d, id.client, 0, id.clock);
    PrefixIsKnown(d, id.client, 0, n);
    if id in d {
      assert Fits(d, map[], id);
    }
    if id in d {
      assert id.client in (set i | i in d :: i.client);
    }
  }

  // ---------------------------------------------------------------- absorbing

  lemma AbsorbIsBelow(d: Doc, x: Delta)
    ensures Below(d, Absorb(d, x))
  {
  }

  lemma AbsorbNothing(d: Doc)
    ensures Absorb(d, Delta(map[], {})) == d && IsEmpty(Changes(d, d))
  {
  }

  lemma AbsorbIsDense(d: Doc, x: Delta)
    requires Dense(d)
    ensures Dense(Absorb(d, x)) && Below(d, Absorb(d, x))
  {
    var e := Absorb(d, x);
    forall id | id in e ensures Fits(e, map[], id) {
      forall k: nat | k < id.clock ensures OpId(id.client, k) in e {
        var lower := OpId(id.client, k);
        if id in d {
          assert Fits(d, map[], id);
        } else {
          assert Fits(d, x.cells, id);
          assert Fits(d, x.cells, lower);
        }
      }
    }
  }

  lemma AbsorbIsHonest(d: Doc, x: Delta, element: OpId -> Element)
    requires Honest(d, element) && Honest(x.cells, element)
    ensures Honest(Absorb(d, x), element)
  {
  }

  /** Nothing in the update would be dropped. */
  predicate Complete(d: Doc, x: Delta)
  {
    && (forall id | id in x.cells :: Fits(d, x.cells, id))
    && x.deletes <= d.Keys + x.cells.Keys
  }

  lemma CompleteIsMonotone(d: Doc, e: Doc, x: Delta)
    requires Complete(d, x) && Below(d, e)
    ensures Complete(e, x)
  {
    forall id | id in x.cells ensures Fits(e, x.cells, id) {
      assert Fits(d, x.cells, id);
    }
  }

  /** What a document announces is complete for it and takes it exactly to where it went. */
  lemma ChangesReplay(d: Doc, after: Doc)
    requires Dense(after) && Below(d, after)
    ensures Complete(d, Changes(d, after)) && Absorb(d, Changes(d, after)) == after
  {
    var x := Changes(d, after);
    forall id | id in x.cells ensures Fits(d, x.cells, id) {
      assert Fits(after, map[], id);
    }
    var e := Absorb(d, x);
    assert e.Keys == after.Keys;
    forall id | id in after ensures e[id] == after[id] {
    }
  }

  /** A complete update acts on every id by itself. */
  lemma AbsorbAt(d: Doc, x: Delta, id: OpId)
    requires Complete(d, x)
    ensures At(Absorb(d, x), id) == Kill(JoinSlots(At(d, id), At(x.cells, id)), id in x.deletes)
  {
    if id in x.cells {
      assert Fits(d, x.cells, id);
    }
  }

  lemma AbsorbCommutesAt(d: Doc, x: Delta, y: Delta, element: OpId -> Element, id: OpId)
    requires Complete(d, x) && Complete(d, y)
    requires Honest(d, element) && Honest(x.cells, element) && Honest(y.cells, element)
    ensures At(Absorb(Absorb(d, x), y), id) == At(Absorb(Absorb(d, y), x), id)
  {
    AbsorbIsBelow(d, x);
    AbsorbIsBelow(d, y);
    CompleteIsMonotone(d, Absorb(d, x), y);
    CompleteIsMonotone(d, Absorb(d, y), x);
    AbsorbAt(d, x, id);
    AbsorbAt(d, y, id);
    AbsorbAt(Absorb(d, x), y, id);
    AbsorbAt(Absorb(d, y), x, id);
    assert x.deletes <= d.Keys + x.cells.Keys && y.deletes <= d.Keys + y.cells.Keys;
  }

  /** Complete updates commute. */
  lemma AbsorbCommutes(d: Doc, x: Delta, y: Delta, element: OpId -> Element)
    requires Complete(d, x) && Complete(d, y)
    requires Honest(d, element) && Honest(x.cells, element) && Honest(y.cells, element)
    ensures Absorb(Absorb(d, x), y) == Absorb(Absorb(d, y), x)
  {
    forall id ensures At(Absorb(Absorb(d, x), y), id) == At(Absorb(Absorb(d, y), x), id) {
      AbsorbCommutesAt(d, x, y, element, id);
    }
    Extensional(Absorb(Absorb(d, x), y), Absorb(Absorb(d, y), x));
  }

  // ---------------------------------------------------------------- synchronising two replicas

  /** Answering a peer's state vector brings the peer to the join of the two documents. */
  lemma DiffCompletes(peer: Doc, d: Doc)
    requires Dense(peer) && Dense(d)
    ensures Absorb(peer, Diff(d, Vector(peer))) == Join(peer, d)
    ensures Complete(peer, Diff(d, Vector(peer)))
  {
    var x := Diff(d, Vector(peer));
    forall id | id in d ensures id in x.cells <==> id !in peer {
      VectorCoversExactly(peer, id);
    }
    forall id | id in x.cells ensures Fits(peer, x.cells, id) {
      assert Fits(d, map[], id);
    }
    var e, j := Absorb(peer, x), Join(peer, d);
    assert e.Keys == j.Keys;
    forall id | id in j ensures e[id] == j[id] {
    }
  }

  lemma JoinAt(d: Doc, e: Doc, id: OpId)
    ensures At(Join(d, e), id) == JoinSlots(At(d, id), At(e, id))
  {
  }

  /** Join is commutative, idempotent and associative on honest documents. */
  lemma JoinIsSemilattice(a: Doc, b: Doc, c: Doc, element: OpId -> Element)
    requires Honest(a, element) && Honest(b, element) && Honest(c, element)
    ensures Join(a, b) == Join(b, a)
    ensures Join(a, a) == a
    ensures Join(a, Join(b, c)) == Join(Join(a, b), c)
  {
    forall id
      ensures At(Join(a, b), id) == At(Join(b, a), id) && At(Join(a, a), id) == At(a, id)
      ensures At(Join(a, Join(b, c)), id) == At(Join(Join(a, b), c), id)
    {
      JoinAt(a, b, id);
      JoinAt(b, a, id);
      JoinAt(b, c, id);
      JoinAt(a, a, id);
      JoinAt(a, Join(b, c), id);
      JoinAt(Join(a, b), c, id);
    }
    Extensional(Join(a, b), Join(b, a));
    Extensional(Join(a, a), a);
    Extensional(Join(a, Join(b, c)), Join(Join(a, b), c));
  }

  /** One exchange of state vectors and answers, in both directions, makes two replicas equal. */
  lemma ExchangeConverges(client: Doc, server: Doc, element: OpId -> Element)
    requires Dense(client) && Dense(server) && Honest(client, element) && Honest(server, element)
    ensures var server' := Absorb(server, Diff(client, Vector(server)));
            Absorb(client, Diff(server', Vector(client))) == server'
  {
    var server' := Absorb(server, Diff(client, Vector(server)));
    DiffCompletes(server, client);
    AbsorbIsDense(server, Diff(client, Vector(server)));
    DiffCompletes(client, server');
    forall id ensures At(Join(client, server'), id) == At(server', id) {
      JoinAt(client, server', id);
      JoinAt(server, client, id);
    }
    Extensional(Join(client, server'), server');
  }
}
