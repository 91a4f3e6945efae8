/**
 Who can put a key into a room: apps/server/src/rooms/room-keys.service.ts.  The checks of one request are made
 at moments of their own, so what they give is stated over the run: somebody with the right asked, for people
 who were all members at a later moment.
 */
module RoomAuthority {
  import opened Common
  import opened RoomKeys

  /** The i-th event is this request, from somebody who is a member at that moment, or even an admin. */
  ghost predicate AskedBy(w: World, fp: string -> string, es: seq<Event>, i: nat, r: Request, admin: bool)
  {
    && i < |es| && es[i] == Ask(r)
    && var members := Run(w, fp, es[..i]).db.members;
       r.room in members && r.actor in members[r.room] && (admin ==> members[r.room][r.actor])
  }

  /** After j events every recipient is a member. */
  ghost predicate Admitted(w: World, fp: string -> string, es: seq<Event>, j: nat, r: Request)
  {
    && j <= |es|
    && var members := Run(w, fp, es[..j]).db.members;
       forall g | g in r.items :: r.room in members && g.user in members[r.room]
  }

  /** The request came from a member, a claim from an admin, and its recipients were all members later. */
  ghost predicate Authorized(w: World, fp: string -> string, es: seq<Event>, r: Request)
  {
    exists i, j :: i < j && AskedBy(w, fp, es, i, r, r.expected.Some?) && Admitted(w, fp, es, j, r)
  }

  /** An authorized request brought this row. */
  ghost predicate Brought(w: World, fp: string -> string, es: seq<Event>, room: string, item: Item)
  {
    exists r: Request :: r.room == room && item in r.items && Authorized(w, fp, es, r)
  }

  /** An authorized claim of this epoch by this member, with grants for no other epoch. */
  ghost predicate Claims(w: World, fp: string -> string, es: seq<Event>, r: Request, c: Commit)
  {
    && r.room == c.room && r.actor == c.actor && r.expected.Some? && r.expected.value + 1 == c.keyId
    && (forall g | g in r.items :: g.keyId == c.keyId)
    && Authorized(w, fp, es, r)
  }

  ghost predicate Accounted(w: World, fp: string -> string, es: seq<Event>)
  {
    var v := Run(w, fp, es);
    && (forall a | a in v.asked :: exists i :: AskedBy(w, fp, es, i, a.request, a.admin))
    && (forall r | r in v.cleared :: Authorized(w, fp, es, r))
    && (forall r | r in v.claiming ::
          Authorized(w, fp, es, r) && r.expected.Some? && forall g | g in r.items :: g.keyId == r.expected.value + 1)
    && (forall row | row in v.writing :: Brought(w, fp, es, row.room, row.item))
    && (forall k | k in v.db.grants :: Brought(w, fp, es, k.room, RowItem(v, k)))
    && (forall c | c in v.commits :: exists r :: Claims(w, fp, es, r, c))
  }

  // ---------------------------------------------------------------- more events change none of it

  lemma AskedStays(w: World, fp: string -> string, es: seq<Event>, e: Event, i: nat, r: Request, admin: bool)
    requires AskedBy(w, fp, es, i, r, admin)
    ensures AskedBy(w, fp, es + [e], i, r, admin)
  {
    assert (es + [e])[..i] == es[..i];
  }

  lemma AuthorizedStays(w: World, fp: string -> string, es: seq<Event>, e: Event, r: Request)
    requires Authorized(w, fp, es, r)
    ensures Authorized(w, fp, es + [e], r)
  {
    var i, j :| i < j && AskedBy(w, fp, es, i, r, r.expected.Some?) && Admitted(w, fp, es, j, r);
    AskedStays(w, fp, es, e, i, r, r.expected.Some?);
    assert (es + [e])[..j] == es[..j];
    assert Admitted(w, fp, es + [e], j, r);
  }

  lemma BroughtStays(w: World, fp: string -> string, es: seq<Event>, e: Event, room: string, item: Item)
    requires Brought(w, fp, es, room, item)
    ensures Brought(w, fp, es + [e], room, item)
  {
    var r: Request :| r.room == room && item in r.items && Authorized(w, fp, es, r);
    AuthorizedStays(w, fp, es, e, r);
  }

  lemma ClaimedStays(w: World, fp: string -> string, es: seq<Event>, e: Event, c: Commit)
    requires exists r :: Claims(w, fp, es, r, c)
    ensures exists r :: Claims(w, fp, es + [e], r, c)
  {
    var r :| Claims(w, fp, es, r, c);
    AuthorizedStays(w, fp, es, e, r);
    assert Claims(w, fp, es + [e], r, c);
  }

  // ---------------------------------------------------------------- one event

  lemma AskedAccounted(w: World, fp: string -> string, es: seq<Event>, e: Event, a: Asked)
    requires Accounted(w, fp, es) && a in Run(w, fp, es + [e]).asked
    ensures exists i :: AskedBy(w, fp, es + [e], i, a.request, a.admin)
  {
    RunSnoc(w, fp, es, e);
    if a in Run(w, fp, es).asked {
      var i :| AskedBy(w, fp, es, i, a.request, a.admin);
      AskedStays(w, fp, es, e, i, a.request, a.admin);
    } else {
      JustAsked(w, fp, es, e, a);
    }
  }

  lemma JustAsked(w: World, fp: string -> string, es: seq<Event>, e: Event, a: Asked)
    requires a !in Run(w, fp, es).asked && a in Next(Run(w, fp, es), fp, e).asked
    ensures AskedBy(w, fp, es + [e], |es|, a.request, a.admin)
  {
    assert (es + [e])[..|es|] == es;
    NewAsked(Run(w, fp, es), fp, e, a);
  }

  lemma NewAsked(v: World, fp: string -> string, e: Event, a: Asked)
    requires a !in v.asked && a in Next(v, fp, e).asked
    ensures e == Ask(a.request) && IsMember(v.db, a.request.room, a.request.actor)
    ensures a.admin ==> v.db.members[a.request.room][a.request.actor]
  {}

  lemma ClearedIsAuthorized(w: World, fp: string -> string, es: seq<Event>, a: Asked)
    requires Accounted(w, fp, es) && a in Run(w, fp, es).asked && (a.request.expected.Some? ==> a.admin)
    requires AllMembers(Run(w, fp, es).db, a.request.room, a.request.items)
    ensures Authorized(w, fp, es + [Clear(a)], a.request)
  {
    var i :| AskedBy(w, fp, es, i, a.request, a.admin);
    assert AskedBy(w, fp, es, i, a.request, a.request.expected.Some?);
    assert es[..|es|] == es;
    assert Admitted(w, fp, es, |es|, a.request);
    AuthorizedStays(w, fp, es, Clear(a), a.request);
  }

  lemma RequestsAccounted(w: World, fp: string -> string, es: seq<Event>, e: Event, r: Request)
    requires Accounted(w, fp, es) && (r in Run(w, fp, es + [e]).cleared || r in Run(w, fp, es + [e]).claiming)
    ensures Authorized(w, fp, es + [e], r)
    ensures r in Run(w, fp, es + [e]).claiming ==> r.expected.Some? && forall g | g in r.items :: g.keyId == r.expected.value + 1
  {
    RunSnoc(w, fp, es, e);
    var v := Run(w, fp, es);
    NewRequests(v, fp, e, r);
    if r in v.cleared || r in v.claiming { AuthorizedStays(w, fp, es, e, r); } else { ClearedIsAuthorized(w, fp, es, e.asked); }
  }

  lemma NewRequests(v: World, fp: string -> string, e: Event, r: Request)
    requires r in Next(v, fp, e).cleared || r in Next(v, fp, e).claiming
    ensures r in v.cleared || r in v.claiming
            || (e.Clear? && e.asked in v.asked && r == e.asked.request && AllMembers(v.db, r.room, r.items)
                && (r.expected.Some? ==> e.asked.admin))
    ensures r in Next(v, fp, e).claiming && r !in v.claiming ==> r.expected.Some? && AllOf(r.items, r.expected.value + 1)
  {}

  lemma WritingAccounted(w: World, fp: string -> string, es: seq<Event>, e: Event, row: Writing)
    requires Accounted(w, fp, es) && row in Run(w, fp, es + [e]).writing
    ensures Brought(w, fp, es + [e], row.room, row.item)
  {
    RunSnoc(w, fp, es, e);
    if row in Run(w, fp, es).writing {
      BroughtStays(w, fp, es, e, row.room, row.item);
    } else {
      AuthorizedStays(w, fp, es, e, e.request);
    }
  }

  /** A row of the tables, as the item that would write it. */
  function RowItem(v: World, k: GrantKey): Item
    requires k in v.db.grants
  {
    Item(k.user, k.keyId, v.db.grants[k].sealedTo, v.db.grants[k].fp)
  }

  lemma GrantAccounted(w: World, fp: string -> string, es: seq<Event>, e: Event, k: GrantKey)
    requires Accounted(w, fp, es) && k in Run(w, fp, es + [e]).db.grants
    ensures Brought(w, fp, es + [e], k.room, RowItem(Run(w, fp, es + [e]), k))
  {
    RunSnoc(w, fp, es, e);
    var v := Run(w, fp, es);
    RowChanges(v, fp, e, k);
    if k in v.db.grants && Next(v, fp, e).db.grants[k] == v.db.grants[k] {
      BroughtStays(w, fp, es, e, k.room, RowItem(v, k));
    } else if e.Transact? {
      AuthorizedStays(w, fp, es, e, e.request);
    } else {
      BroughtStays(w, fp, es, e, e.w.room, e.w.item);
    }
  }

  /** A row changes only by a transaction or a write that brings it. */
  lemma RowChanges(v: World, fp: string -> string, e: Event, k: GrantKey)
    requires k in Next(v, fp, e).db.grants
    ensures || (k in v.db.grants && Next(v, fp, e).db.grants[k] == v.db.grants[k])
            || (e.Transact? && e.request in v.claiming && e.request.room == k.room
                && RowItem(Next(v, fp, e), k) in e.request.items)
            || (e.Write? && e.w in v.writing && e.w == Writing(k.room, RowItem(Next(v, fp, e), k)))
  {
    match e {
      case Transact(r) => RowFrom(v.db.grants, r.room, r.items, k);
      case _ =>
    }
  }

  lemma {:induction false} RowFrom(grants: map<GrantKey, Grant>, room: string, items: seq<Item>, k: GrantKey)
    ensures Row(UpsertAll(grants, room, items), k) == Row(grants, k)
            || (k.room == room && k in UpsertAll(grants, room, items)
                && var g := UpsertAll(grants, room, items)[k]; Item(k.user, k.keyId, g.sealedTo, g.fp) in items)
  {
    if items != [] {
      var front, last := items[..|items| - 1], items[|items| - 1];
      RowFrom(grants, room, front, k);
      assert last in items && forall g | g in front :: g in items;
    }
  }

  lemma CommitAccounted(w: World, fp: string -> string, es: seq<Event>, e: Event, c: Commit)
    requires Accounted(w, fp, es) && c in Run(w, fp, es + [e]).commits
    ensures exists r :: Claims(w, fp, es + [e], r, c)
  {
    RunSnoc(w, fp, es, e);
    if c in Run(w, fp, es).commits {
      ClaimedStays(w, fp, es, e, c);
    } else {
      AuthorizedStays(w, fp, es, e, e.request);
      assert Claims(w, fp, es + [e], e.request, c);
    }
  }

  lemma StepAccounted(w: World, fp: string -> string, es: seq<Event>, e: Event)
    requires Accounted(w, fp, es)
    ensures Accounted(w, fp, es + [e])
  {
    var v := Run(w, fp, es + [e]);
    forall a | a in v.asked ensures exists i :: AskedBy(w, fp, es + [e], i, a.request, a.admin) {
      AskedAccounted(w, fp, es, e, a);
    }
    forall r | r in v.cleared || r in v.claiming ensures Authorized(w, fp, es + [e], r) { RequestsAccounted(w, fp, es, e, r); }
    forall r | r in v.claiming ensures r.expected.Some? && forall g | g in r.items :: g.keyId == r.expected.value + 1 {
      RequestsAccounted(w, fp, es, e, r);
    }
    forall row | row in v.writing ensures Brought(w, fp, es + [e], row.room, row.item) { WritingAccounted(w, fp, es, e, row); }
    forall k | k in v.db.grants ensures Brought(w, fp, es + [e], k.room, RowItem(v, k)) { GrantAccounted(w, fp, es, e, k); }
    forall c | c in v.commits ensures exists r :: Claims(w, fp, es + [e], r, c) { CommitAccounted(w, fp, es, e, c); }
  }

  lemma {:induction false} RunAccounted(w: World, fp: string -> string, es: seq<Event>)
    requires Fresh(w)
    ensures Accounted(w, fp, es)
  {
    if es != [] {
      var front, last := es[..|es| - 1], es[|es| - 1];
      RunAccounted(w, fp, front);
      StepAccounted(w, fp, front, last);
      assert es == front + [last];
    }
  }

  // ---------------------------------------------------------------- the main results

  /**
   In every run each row of the grant table was brought by a request that came from a member, and from an admin
   if it was a claim, and whose recipients were all members at a later moment.
   */
  lemma EveryGrantIsAuthorized(w: World, fp: string -> string, es: seq<Event>, k: GrantKey, g: Grant)
    requires Fresh(w) && k in Run(w, fp, es).db.grants && Run(w, fp, es).db.grants[k] == g
    ensures exists i: nat, j, r: Request ::
              && i < j && AskedBy(w, fp, es, i, r, r.expected.Some?) && Admitted(w, fp, es, j, r)
              && r.room == k.room && Item(k.user, k.keyId, g.sealedTo, g.fp) in r.items
  {
    RunAccounted(w, fp, es);
    assert Brought(w, fp, es, k.room, Item(k.user, k.keyId, g.sealedTo, g.fp));
  }

  /** And each epoch was claimed by somebody who was an admin of the room when the claim came. */
  lemma EveryEpochIsClaimedByAnAdmin(w: World, fp: string -> string, es: seq<Event>, c: Commit)
    requires Fresh(w) && c in Run(w, fp, es).commits
    ensures exists i, r: Request ::
              && AskedBy(w, fp, es, i, r, true)
              && r.room == c.room && r.actor == c.actor && r.expected == Some(c.keyId - 1)
              && (forall g | g in r.items :: g.keyId == c.keyId)
  {
    RunAccounted(w, fp, es);
    var r :| Claims(w, fp, es, r, c);
    AdminAsked(w, fp, es, r, c);
  }

  lemma AdminAsked(w: World, fp: string -> string, es: seq<Event>, r: Request, c: Commit)
    requires Claims(w, fp, es, r, c)
    ensures exists i :: AskedBy(w, fp, es, i, r, true)
    ensures r.room == c.room && r.actor == c.actor && r.expected == Some(c.keyId - 1)
    ensures forall g | g in r.items :: g.keyId == c.keyId
  {
    AskerOf(w, fp, es, r);
  }

  lemma AskerOf(w: World, fp: string -> string, es: seq<Event>, r: Request)
    requires Authorized(w, fp, es, r)
    ensures exists i :: AskedBy(w, fp, es, i, r, r.expected.Some?)
  {}

  // ---------------------------------------------------------------- and nobody with the right is turned away

  /** A plain upload whose checks follow at once has all its rows on their way exactly when it may. */
  lemma UploadGoesThrough(w: World, fp: string -> string, r: Request, admin: bool)
    requires ValidItems(r.items) && r.expected.None? && r !in w.cleared && (forall a | a in w.asked :: a.request != r)
    ensures var v := Run(w, fp, [Ask(r), Clear(Asked(r, admin)), Reach(r)]);
            v.writing == if && r.room in w.db.members && r.actor in w.db.members[r.room]
                            && (admin <==> w.db.members[r.room][r.actor])
                            && (forall g | g in r.items :: g.user in w.db.members[r.room])
                            && r.room in w.db.epochs && (forall g | g in r.items :: g.keyId <= w.db.epochs[r.room])
                         then w.writing + set g | g in r.items :: Writing(r.room, g) else w.writing
  {
    RunThree(w, fp, Ask(r), Clear(Asked(r, admin)), Reach(r));
  }

  /** So with a claim, whose transaction commits exactly if the room is still at the expected epoch. */
  lemma ClaimGoesThrough(w: World, fp: string -> string, r: Request, admin: bool)
    requires ValidItems(r.items) && r.expected.Some? && r !in w.claiming && (forall a | a in w.asked :: a.request != r)
    ensures var v := Run(w, fp, [Ask(r), Clear(Asked(r, admin)), Transact(r)]);
            v.commits == if && r.room in w.db.members && r.actor in w.db.members[r.room]
                            && admin && w.db.members[r.room][r.actor]
                            && (forall g | g in r.items :: g.user in w.db.members[r.room])
                            && (forall g | g in r.items :: g.keyId == r.expected.value + 1)
                            && r.room in w.db.epochs && w.db.epochs[r.room] == r.expected.value
                         then w.commits + [Commit(r.room, r.expected.value + 1, r.actor)] else w.commits
  {
    RunThree(w, fp, Ask(r), Clear(Asked(r, admin)), Transact(r));
    ClaimIsCleared(w, fp, r, admin);
  }

  lemma ClaimIsCleared(w: World, fp: string -> string, r: Request, admin: bool)
    requires ValidItems(r.items) && r.expected.Some? && r !in w.claiming && (forall a | a in w.asked :: a.request != r)
    ensures var v := Next(Next(w, fp, Ask(r)), fp, Clear(Asked(r, admin)));
            && v.db == w.db && v.commits == w.commits
            && (r in v.claiming <==> && r.room in w.db.members && r.actor in w.db.members[r.room]
                                     && admin && w.db.members[r.room][r.actor]
                                     && (forall g | g in r.items :: g.user in w.db.members[r.room])
                                     && (forall g | g in r.items :: g.keyId == r.expected.value + 1))
  {}

  lemma RunThree(w: World, fp: string -> string, a: Event, b: Event, c: Event)
    ensures Run(w, fp, [a, b, c]) == Next(Next(Next(w, fp, a), fp, b), fp, c)
  {
    RunSnoc(w, fp, [], a);
    RunSnoc(w, fp, [a], b);
    RunSnoc(w, fp, [a, b], c);
    assert [] + [a] == [a] && [a] + [b] == [a, b] && [a, b] + [c] == [a, b, c];
  }
}
