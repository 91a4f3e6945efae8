/** The client's document and its message array: packages/sync-engine/src/SyncEngine.ts. */
module Engine {
  import opened JsonText
  import opened Replica

  /** A document with the order of its live array elements. */
  datatype Store = Store(doc: Doc, order: seq<OpId>)
  {
    ghost predicate Ok() { Dense(doc) && Arranges(order, doc) }
  }

  predicate IsNull(e: Element) { e.Plain? && e.value.Null? }

  predicate HasField(e: Element, name: string)
  {
    e.Plain? && e.value.Obj? && name in e.value.fields && e.value.fields[name].Str?
  }

  function Field(e: Element, name: string): string
    requires HasField(e, name)
  {
    e.value.fields[name].s
  }

  /** An element that retracting `wanted` deletes: one of the user's own, with a wanted id. */
  predicate Retracts(e: Element, wanted: set<string>, me: string)
  {
    HasField(e, "id") && Field(e, "id") in wanted && HasField(e, "userId") && Field(e, "userId") == me
  }

  predicate AllLive(doc: Doc, ids: seq<OpId>) { forall id | id in ids :: id in doc && doc[id].Live? }

  predicate HasNull(s: Store)
    requires AllLive(s.doc, s.order)
  {
    exists id :: id in s.order && IsNull(s.doc[id].element)
  }

  /** The outcome of the backward scan: what stays, what goes, and whether a null element stopped it. */
  datatype Scan = Scan(kept: seq<OpId>, removed: seq<OpId>, threw: bool)

  function Scanned(doc: Doc, all: seq<OpId>, wanted: set<string>, me: string): (r: Scan)
    requires AllLive(doc, all)
  {
    if all == [] then Scan([], [], false)
    else
      var last := all[|all| - 1];
      if IsNull(doc[last].element) then Scan(all, [], true)
      else
        var r := Scanned(doc, all[..|all| - 1], wanted, me);
        if Retracts(doc[last].element, wanted, me) then Scan(r.kept, r.removed + [last], r.threw)
        else Scan(r.kept + [last], r.removed, r.threw)
  }

  /** The document with some of its cells turned into tombstones. */
  function Entomb(doc: Doc, ids: set<OpId>): Doc { map id | id in doc :: if id in ids then Deleted else doc[id] }

  function Elements(ids: seq<OpId>): set<OpId> { set id | id in ids }

  /** The store after a retraction. */
  function Retracted(s: Store, wanted: set<string>, me: string): Store
    requires AllLive(s.doc, s.order)
  {
    var r := Scanned(s.doc, s.order, wanted, me);
    Store(Entomb(s.doc, Elements(r.removed)), r.kept)
  }

  lemma {:induction false} ScanPartitions(doc: Doc, all: seq<OpId>, wanted: set<string>, me: string)
    requires AllLive(doc, all)
    ensures var r := Scanned(doc, all, wanted, me);
            && |r.kept| + |r.removed| == |all|
            && (forall id :: id in all <==> id in r.kept || id in r.removed)
            && (forall id | id in r.removed :: Retracts(doc[id].element, wanted, me))
  {
    if all != [] {
      var front := all[..|all| - 1];
      ScanPartitions(doc, front, wanted, me);
      assert all == front + [all[|all| - 1]];
    }
  }

  /** Without a null element the scan reaches everything: it removes exactly what Retracts asks for. */
  lemma {:induction false} ScanIsExact(doc: Doc, all: seq<OpId>, wanted: set<string>, me: string)
    requires AllLive(doc, all)
    ensures var r := Scanned(doc, all, wanted, me);
            && (r.threw <==> exists id :: id in all && IsNull(doc[id].element))
            && (!r.threw ==> forall id | id in all :: id in r.removed <==> Retracts(doc[id].element, wanted, me))
            && (!r.threw ==> forall id | id in all :: id in r.kept <==> !Retracts(doc[id].element, wanted, me))
  {
    if all != [] {
      var front, last := all[..|all| - 1], all[|all| - 1];
      assert all == front + [last];
      if IsNull(doc[last].element) {
        assert last in all;
      } else {
        ScanIsExact(doc, front, wanted, me);
        ScanPartitions(doc, front, wanted, me);
      }
    }
  }

  predicate DistinctIds(ids: seq<OpId>) { forall i, j | 0 <= i < j < |ids| :: ids[i] != ids[j] }

  lemma {:induction false} ScanKeepsDistinct(doc: Doc, all: seq<OpId>, wanted: set<string>, me: string)
    requires AllLive(doc, all) && DistinctIds(all)
    ensures var r := Scanned(doc, all, wanted, me);
            DistinctIds(r.kept) && forall id | id in r.kept :: id !in r.removed
  {
    if all != [] {
      var front, last := all[..|all| - 1], all[|all| - 1];
      assert last !in front;
      ScanPartitions(doc, front, wanted, me);
      ScanKeepsDistinct(doc, front, wanted, me);
    }
  }

  lemma RetractedIsOk(s: Store, wanted: set<string>, me: string)
    requires s.Ok()
    ensures Retracted(s, wanted, me).Ok() && Below(s.doc, Retracted(s, wanted, me).doc)
  {
    ScanPartitions(s.doc, s.order, wanted, me);
    ScanKeepsDistinct(s.doc, s.order, wanted, me);
    var t := Retracted(s, wanted, me);
    forall id | id in t.doc ensures Fits(t.doc, map[], id) {
      assert Fits(s.doc, map[], id);
    }
  }

  // ---------------------------------------------------------------- appending

  function NextId(doc: Doc, client: nat): OpId { OpId(client, PrefixLength(doc, client, 0)) }

  /** The store after pushing values at the end of the array under the local client's next ids. */
  function Appended(s: Store, client: nat, values: seq<Json>): Store
  {
    if values == [] then s
    else
      var t := Appended(s, client, values[..|values| - 1]);
      var id := NextId(t.doc, client);
      Store(t.doc[id := Live(Plain(values[|values| - 1]))], t.order + [id])
  }

  lemma {:induction false} AppendedIsOk(s: Store, client: nat, values: seq<Json>)
    requires s.Ok()
    ensures var t := Appended(s, client, values);
            && t.Ok() && Below(s.doc, t.doc)
            && |t.order| == |s.order| + |values| && t.order[..|s.order|] == s.order
            && (forall i | 0 <= i < |values| :: t.order[|s.order| + i] in t.doc
                                                && t.doc[t.order[|s.order| + i]] == Live(Plain(values[i])))
            && (forall id | id in s.doc :: t.doc[id] == s.doc[id])
  {
    if values != [] {
      var front := values[..|values| - 1];
      AppendedIsOk(s, client, front);
      AppendOne(Appended(s, client, front), client, values[|values| - 1]);
      assert forall i | 0 <= i < |front| :: front[i] == values[i];
    }
  }

  lemma AppendOne(s: Store, client: nat, value: Json)
    requires s.Ok()
    ensures NextId(s.doc, client) !in s.doc
    ensures Store(s.doc[NextId(s.doc, client) := Live(Plain(value))], s.order + [NextId(s.doc, client)]).Ok()
  {
    var id := NextId(s.doc, client);
    PrefixIsKnown(s.doc, client, 0, id.clock);
    var d := s.doc[id := Live(Plain(value))];
    forall j | j in d ensures Fits(d, map[], j) {
      forall k: nat | k < j.clock ensures OpId(j.client, k) in d {
        if j == id {
          PrefixIsKnown(s.doc, client, 0, k);
        } else {
          assert Fits(s.doc, map[], j);
        }
      }
    }
  }

  // ---------------------------------------------------------------- reinserting

  /** The ids of the messages in the array. */
  function PresentIds(s: Store): set<string>
    requires AllLive(s.doc, s.order)
  {
    set id | id in s.order && HasField(s.doc[id].element, "id") :: Field(s.doc[id].element, "id")
  }

  function IdOf(m: Json): string { if m.Obj? && "id" in m.fields && m.fields["id"].Str? then m.fields["id"].s else "" }

  /** The messages whose id the array lacks; a batch is filtered against the array as it was before. */
  function Missing(messages: seq<Json>, present: set<string>): seq<Json>
  {
    if messages == [] then []
    else
      var last := messages[|messages| - 1];
      Missing(messages[..|messages| - 1], present) + (if IdOf(last) in present then [] else [last])
  }

  lemma {:induction false} MissingIsExact(messages: seq<Json>, present: set<string>, m: Json)
    ensures m in Missing(messages, present) <==> m in messages && IdOf(m) !in present
  {
    if messages != [] {
      MissingIsExact(messages[..|messages| - 1], present, m);
      assert messages == messages[..|messages| - 1] + [messages[|messages| - 1]];
    }
  }

  // ---------------------------------------------------------------- the engine object

  /** ids lists the live elements of doc, each once. */
  predicate Arranges(ids: seq<OpId>, doc: Doc)
  {
    && DistinctIds(ids)
    && AllLive(doc, ids)
    && forall id | id in doc && doc[id].Live? :: id in ids
  }

  class SyncEngine {
    const userId: string
    const clientId: nat
    var doc: Doc
    var order: seq<OpId>

    constructor (userId: string, clientId: nat)
      ensures View().Ok() && View() == Store(map[], []) && this.userId == userId && this.clientId == clientId
    {
      this.userId := userId;
      this.clientId := clientId;
      doc, order := map[], [];
    }

    function View(): Store
      reads this
    {
      Store(doc, order)
    }

    /**
     Deletes this user's messages with these ids, walking the array backwards, and returns what was
     deleted in array order.  An array holding null makes the walk throw at that element.
     */
    method RetractMessages(ids: set<string>) returns (retracted: seq<OpId>, threw: bool)
      requires View().Ok()
      modifies this
      ensures View().Ok() && View() == Retracted(old(View()), ids, userId)
      ensures var r := Scanned(old(doc), old(order), ids, userId); retracted == r.removed && threw == r.threw
    {
      RetractedIsOk(View(), ids, userId);
      retracted, threw := DeleteBackwards(ids);
    }

    /** Pushes values at the end of the array. */
    method Push(values: seq<Json>)
      requires View().Ok()
      modifies this
      ensures View().Ok() && View() == Appended(old(View()), clientId, values)
    {
      AppendedIsOk(View(), clientId, values);
      var t := Appended(View(), clientId, values);
      doc, order := t.doc, t.order;
    }

    /**
     Appends, as they are, those of the messages whose id the array does not hold, and returns them.
     Reading the id of a null element throws before anything is appended.
     */
    method ReinsertMessages(messages: seq<Json>) returns (missing: seq<Json>, threw: bool)
      requires View().Ok()
      modifies this
      ensures View().Ok() && threw == HasNull(old(View()))
      ensures missing == if threw then [] else Missing(messages, PresentIds(old(View())))
      ensures View() == Appended(old(View()), clientId, missing)
    {
      if HasNull(View()) {
        return [], true;
      }
      missing, threw := Missing(messages, PresentIds(View())), false;
      if missing != [] {
        Push(missing);
      }
    }

    /** An update arrived; `arranged` is the array order that the document library settles on. */
    method Apply(x: Delta, arranged: seq<OpId>)
      requires View().Ok() && Arranges(arranged, Absorb(doc, x))
      modifies this
      ensures View().Ok() && View() == Store(Absorb(old(doc), x), arranged)
    {
      AbsorbIsDense(doc, x);
      doc := Absorb(doc, x);
      order := arranged;
    }

    /** The loop of the transaction. */
    method DeleteBackwards(ids: set<string>) returns (retracted: seq<OpId>, threw: bool)
      requires AllLive(doc, order)
      modifies this
      ensures var r := Scanned(old(doc), old(order), ids, userId);
              && retracted == r.removed && threw == r.threw && order == r.kept
              && doc == Entomb(old(doc), Elements(r.removed))
    {
      var was, all := View(), order;
      var i := |all|;
      retracted, threw := [], false;
      assert all[..i] == all && order[i..] == [] && Entomb(doc, {}) == doc;
      while i > 0
        invariant Reached(was.doc, all, ids, userId, i, order, retracted)
        invariant doc == Entomb(was.doc, Elements(retracted))
      {
        i := i - 1;
        ReachedStep(was.doc, all, ids, userId, i, order, retracted);
        var element := was.doc[all[i]].element;
        if IsNull(element) {
          threw := true;
          return;
        }
        if !Retracts(element, ids, userId) {
          continue;
        }
        EntombOne(was.doc, all[i], retracted);
        retracted := [all[i]] + retracted;
        DeleteAt(i, all[i]);
      }
      ReachedEnd(was.doc, all, ids, userId, order, retracted);
    }

    /** Deletes the array element at i, whose operation is id. */
    method DeleteAt(i: nat, id: OpId)
      requires i < |order|
      modifies this
      ensures doc == Entomb(old(doc), {id}) && order == old(order[..i] + order[i + 1..])
    {
      doc := Entomb(doc, {id});
      order := order[..i] + order[i + 1..];
    }
  }

  /** The backward loop with i elements to go: the array is the unvisited prefix and the kept suffix. */
  ghost predicate Reached(doc: Doc, all: seq<OpId>, wanted: set<string>, me: string,
                          i: nat, order: seq<OpId>, retracted: seq<OpId>)
  {
    && AllLive(doc, all)
    && i <= |all| && i <= |order| && order[..i] == all[..i]
    && AllLive(doc, all[..i])
    && var r := Scanned(doc, all[..i], wanted, me);
       Scanned(doc, all, wanted, me) == Scan(r.kept + order[i..], r.removed + retracted, r.threw)
  }

  lemma ReachedStep(doc: Doc, all: seq<OpId>, wanted: set<string>, me: string,
                    i: nat, order: seq<OpId>, retracted: seq<OpId>)
    requires Reached(doc, all, wanted, me, i + 1, order, retracted)
    ensures all[i] in doc && doc[all[i]].Live?
    ensures var element := doc[all[i]].element;
            if IsNull(element) then Scanned(doc, all, wanted, me) == Scan(order, retracted, true)
            else if Retracts(element, wanted, me)
            then Reached(doc, all, wanted, me, i, order[..i] + order[i + 1..], [all[i]] + retracted)
            else Reached(doc, all, wanted, me, i, order, retracted)
  {
    assert all[..i + 1][..i] == all[..i] && all[i] in all;
    assert order[i] == order[..i + 1][i] == all[..i + 1][i] == all[i];
    assert order[..i] == order[..i + 1][..i] == all[..i];
    var r := Scanned(doc, all[..i], wanted, me);
    var element := doc[all[i]].element;
    if IsNull(element) {
      assert all[..i + 1] + order[i + 1..] == order;
    } else if Retracts(element, wanted, me) {
      var order' := order[..i] + order[i + 1..];
      assert order'[..i] == all[..i] && order'[i..] == order[i + 1..];
      assert (r.removed + [all[i]]) + retracted == r.removed + ([all[i]] + retracted);
    } else {
      assert (r.kept + [all[i]]) + order[i + 1..] == r.kept + order[i..];
    }
  }

  lemma ReachedEnd(doc: Doc, all: seq<OpId>, wanted: set<string>, me: string, order: seq<OpId>, retracted: seq<OpId>)
    requires Reached(doc, all, wanted, me, 0, order, retracted)
    ensures Scanned(doc, all, wanted, me) == Scan(order, retracted, false)
  {
  }

  lemma EntombOne(doc: Doc, id: OpId, removed: seq<OpId>)
    ensures Entomb(Entomb(doc, Elements(removed)), {id}) == Entomb(doc, Elements([id] + removed))
  {
    assert Elements([id] + removed) == {id} + Elements(removed);
  }
}
