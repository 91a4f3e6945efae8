/** Updates as they travel, the gate's view of them, and the frames of the sync socket. */
module Wire {
  import opened JsonText
  import opened Replica
  import opened EnvelopeGate

  datatype Struct = Struct(id: OpId, cell: Cell)

  /** A client's update: its structs in encoded order and the ids it deletes, or bytes that do not decode. */
  datatype Update = Undecodable | Update(structs: seq<Struct>, deletes: set<OpId>)

  datatype ClientFrame =
    | AskState(vector: StateVector)      // sync step1
    | Answer(answer: Update)             // sync step2
    | Push(push: Update)                 // sync update
    | Presence
    | Garbage                            // anything the decoder throws on

  datatype ServerFrame =
    | Ask(vector: StateVector)
    | State(state: Delta)
    | Fanout(delta: Delta)
    | Rejected(keyId: nat, ids: seq<string>)
    | RoomEpoch(keyId: nat)

  function WireOf(cell: Cell): WireStruct
  {
    match cell
    case Deleted => Gone
    case Live(Plain(v)) => Item(Values([v]))
    case Live(NonValue) => Item(Foreign)
  }

  function WireOfAll(structs: seq<Struct>): (ws: seq<WireStruct>)
    ensures |ws| == |structs| && forall i | 0 <= i < |ws| :: ws[i] == WireOf(structs[i].cell)
  {
    seq(|structs|, i requires 0 <= i < |structs| => WireOf(structs[i].cell))
  }

  /** The cells of a struct list; a repeated id keeps its first cell. */
  function Cells(structs: seq<Struct>): Doc
  {
    if structs == [] then map[]
    else
      var m := Cells(structs[..|structs| - 1]);
      var last := structs[|structs| - 1];
      if last.id in m then m else m[last.id := last.cell]
  }

  function DeltaOf(u: Update): Delta
    requires u.Update?
  {
    Delta(Cells(u.structs), u.deletes)
  }

  predicate CleanElement(e: Element) { e.Plain? && IsEnvelopedMessage(e.value) }

  predicate CleanCell(cell: Cell) { cell.Live? ==> CleanElement(cell.element) }

  predicate CleanDelta(x: Delta) { forall id | id in x.cells :: CleanCell(x.cells[id]) }

  /** The gate's verdict on an update. */
  predicate GateAccepts(u: Update) { u.Update? && AllClean(WireOfAll(u.structs)) }

  /** u is an encoding of x: its structs list the cells of x, each once. */
  ghost predicate Encodes(u: Update, x: Delta)
  {
    && u.Update?
    && u.deletes == x.deletes
    && (forall i, j | 0 <= i < j < |u.structs| :: u.structs[i].id != u.structs[j].id)
    && (forall i | 0 <= i < |u.structs| :: u.structs[i].id in x.cells && u.structs[i].cell == x.cells[u.structs[i].id])
    && (forall id | id in x.cells :: exists i :: 0 <= i < |u.structs| && u.structs[i].id == id)
  }

  function NamedId(cell: Cell): string
    requires !CleanCell(cell) && cell.element.Plain? && HasId(cell.element.value)
  {
    cell.element.value.fields["id"].s
  }

  predicate Bad(x: Delta, id: OpId) { id in x.cells && !CleanCell(x.cells[id]) }

  predicate BadWithId(x: Delta, id: OpId)
  {
    Bad(x, id) && x.cells[id].element.Plain? && HasId(x.cells[id].element.value)
  }

  /** The message ids a rejection of x names. */
  function Named(x: Delta): set<string>
  {
    set id | id in x.cells && BadWithId(x, id) :: NamedId(x.cells[id])
  }

  lemma {:induction false} CellsAreListed(structs: seq<Struct>, id: OpId)
    ensures id in Cells(structs) <==> exists i :: 0 <= i < |structs| && structs[i].id == id
    ensures id in Cells(structs) ==> exists i :: 0 <= i < |structs| && structs[i] == Struct(id, Cells(structs)[id])
  {
    if structs != [] {
      var front, last := structs[..|structs| - 1], structs[|structs| - 1];
      CellsAreListed(front, id);
      if id in Cells(front) {
        var i :| 0 <= i < |front| && front[i] == Struct(id, Cells(front)[id]);
        assert structs[i] == front[i];
      } else if last.id == id {
        assert structs[|structs| - 1] == Struct(id, Cells(structs)[id]);
      } else {
        forall i | 0 <= i < |structs| ensures structs[i].id != id {
          assert i < |front| ==> structs[i] == front[i];
        }
      }
    }
  }

  lemma WireIsClean(cell: Cell)
    ensures CleanStruct(WireOf(cell)) <==> CleanCell(cell)
  {
    if cell.Live? && cell.element.Plain? {
      var values := [cell.element.value];
      assert cell.element.value in values;
      assert forall v | v in values :: v == cell.element.value;
    }
  }

  /** Whatever the gate lets through decodes to enveloped messages only. */
  lemma AcceptedIsClean(u: Update)
    requires GateAccepts(u)
    ensures CleanDelta(DeltaOf(u))
  {
    var cells := Cells(u.structs);
    forall id | id in cells ensures CleanCell(cells[id]) {
      CellsAreListed(u.structs, id);
      var i :| 0 <= i < |u.structs| && u.structs[i] == Struct(id, cells[id]);
      assert WireOfAll(u.structs)[i] in WireOfAll(u.structs);
      WireIsClean(cells[id]);
    }
  }

  /** On an encoding of x, the gate decides whether x is clean. */
  lemma GateDecides(u: Update, x: Delta)
    requires Encodes(u, x)
    ensures DeltaOf(u) == x
    ensures GateAccepts(u) <==> CleanDelta(x)
  {
    var cells := Cells(u.structs);
    forall id ensures At(cells, id) == At(x.cells, id) {
      CellsAreListed(u.structs, id);
      if id in cells {
        var i :| 0 <= i < |u.structs| && u.structs[i] == Struct(id, cells[id]);
      }
    }
    Extensional(cells, x.cells);
    if GateAccepts(u) {
      AcceptedIsClean(u);
    }
    if CleanDelta(x) {
      var ws := WireOfAll(u.structs);
      forall w | w in ws ensures CleanStruct(w) {
        var i :| 0 <= i < |ws| && ws[i] == w;
        WireIsClean(u.structs[i].cell);
      }
    }
  }

  predicate SomeNames(structs: seq<Struct>, s: string)
  {
    exists i :: 0 <= i < |structs| && NamesIt(structs[i].cell, s)
  }

  lemma SomeNamesSplits(structs: seq<Struct>, s: string)
    requires structs != []
    ensures SomeNames(structs, s)
       <==> SomeNames(structs[..|structs| - 1], s) || NamesIt(structs[|structs| - 1].cell, s)
  {
    var front := structs[..|structs| - 1];
    assert forall i | 0 <= i < |front| :: front[i] == structs[i];
  }

  lemma {:induction false} NamedIdsListed(structs: seq<Struct>, s: string)
    ensures s in NamedIds(WireOfAll(structs)) <==> SomeNames(structs, s)
  {
    var ws := WireOfAll(structs);
    if structs != [] {
      var front := structs[..|structs| - 1];
      NamedIdsListed(front, s);
      assert ws[..|ws| - 1] == WireOfAll(front);
      OffendingOfOne(structs[|structs| - 1].cell, s);
      SomeNamesSplits(structs, s);
    }
  }

  predicate NamesIt(cell: Cell, s: string)
  {
    !CleanCell(cell) && cell.element.Plain? && HasId(cell.element.value) && NamedId(cell) == s
  }

  lemma OffendingOfOne(cell: Cell, s: string)
    ensures s in StructIds(WireOf(cell)) <==> NamesIt(cell, s)
  {
    if cell.Live? && cell.element.Plain? {
      var v := cell.element.value;
      assert [v][..0] == [];
      assert OffendingIds([]) == [];
    }
  }

  /** The ids a rejection carries are exactly the named ones. */
  lemma RejectionNames(u: Update, x: Delta, s: string)
    requires Encodes(u, x)
    ensures s in NamedIds(WireOfAll(u.structs)) <==> s in Named(x)
  {
    NamedIdsListed(u.structs, s);
    if i :| 0 <= i < |u.structs| && NamesIt(u.structs[i].cell, s) {
      assert BadWithId(x, u.structs[i].id);
    }
    if id :| id in x.cells && BadWithId(x, id) && NamedId(x.cells[id]) == s {
      var i :| 0 <= i < |u.structs| && u.structs[i].id == id;
      assert NamesIt(u.structs[i].cell, s);
    }
  }
}
