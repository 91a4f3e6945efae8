/**
 Key epochs and wrapped-key grants: apps/server/src/rooms/room-keys.service.ts and
 apps/server/src/users/users.service.ts.  A grant's ciphertext is shown by the public key it was
 sealed to; a fingerprint is any collision-free, never empty function of a public key.
 */
module RoomKeys {
  import opened Common

  datatype GrantKey = GrantKey(room: string, user: string, keyId: nat)

  datatype Grant = Grant(sealedTo: string, fp: string)

  datatype Item = Item(user: string, keyId: nat, sealedTo: string, fp: string)

  /** A user's published key and its fingerprint; "" stands for none. */
  datatype User = User(publicKey: string, fp: string)

  datatype Db = Db(
    epochs: map<string, nat>,                    // room -> currentKeyId
    members: map<string, map<string, bool>>,     // room -> user -> is admin
    users: map<string, User>,
    grants: map<GrantKey, Grant>)

  datatype Error = NotFound | NotAMember | TargetNotAMember | FutureEpoch | NotAdmin | WrongEpoch | Conflict

  datatype Outcome<T> = Ok(value: T) | Refused(error: Error)

  // ---------------------------------------------------------------- the tables

  predicate IsMember(db: Db, room: string, user: string) { room in db.members && user in db.members[room] }

  predicate IsAdmin(db: Db, room: string, user: string) { IsMember(db, room, user) && db.members[room][user] }

  function Epoch(db: Db, room: string): nat { if room in db.epochs then db.epochs[room] else 0 }

  predicate HasKey(db: Db, user: string)
  {
    user in db.users && db.users[user].publicKey != "" && db.users[user].fp != ""
  }

  function Upsert(grants: map<GrantKey, Grant>, room: string, item: Item): map<GrantKey, Grant>
  {
    grants[GrantKey(room, item.user, item.keyId) := Grant(item.sealedTo, item.fp)]
  }

  function UpsertAll(grants: map<GrantKey, Grant>, room: string, items: seq<Item>): map<GrantKey, Grant>
  {
    if items == [] then grants
    else Upsert(UpsertAll(grants, room, items[..|items| - 1]), room, items[|items| - 1])
  }

  /** No later item is for the same user and epoch. */
  ghost predicate LastFor(items: seq<Item>, i: nat)
    requires i < |items|
  {
    forall j | i < j < |items| :: !(items[j].user == items[i].user && items[j].keyId == items[i].keyId)
  }

  ghost predicate Names(items: seq<Item>, room: string, k: GrantKey)
  {
    k.room == room && exists g :: g in items && g.user == k.user && g.keyId == k.keyId
  }

  /** Each item has its row, the last one for a row wins, whatever was there; rows that no item names stay. */
  ghost predicate Served(before: map<GrantKey, Grant>, after: map<GrantKey, Grant>, room: string, items: seq<Item>)
  {
    && (forall i | 0 <= i < |items| && LastFor(items, i) ::
          Row(after, GrantKey(room, items[i].user, items[i].keyId)) == Some(Grant(items[i].sealedTo, items[i].fp)))
    && (forall k | !Names(items, room, k) :: Row(after, k) == Row(before, k))
  }

  function Row(grants: map<GrantKey, Grant>, k: GrantKey): Option<Grant> { if k in grants then Some(grants[k]) else None }

  lemma {:induction false} LastItemWins(grants: map<GrantKey, Grant>, room: string, items: seq<Item>, i: nat)
    requires i < |items| && LastFor(items, i)
    ensures Row(UpsertAll(grants, room, items), GrantKey(room, items[i].user, items[i].keyId))
         == Some(Grant(items[i].sealedTo, items[i].fp))
  {
    var front, last := items[..|items| - 1], items[|items| - 1];
    if i < |front| {
      assert LastFor(front, i) && !(last.user == items[i].user && last.keyId == items[i].keyId);
      LastItemWins(grants, room, front, i);
    }
  }

  lemma {:induction false} OtherRowsStay(grants: map<GrantKey, Grant>, room: string, items: seq<Item>, k: GrantKey)
    requires !Names(items, room, k)
    ensures Row(UpsertAll(grants, room, items), k) == Row(grants, k)
  {
    if items != [] {
      assert items[|items| - 1] in items && !Names(items[..|items| - 1], room, k);
      OtherRowsStay(grants, room, items[..|items| - 1], k);
    }
  }

  lemma UpsertAllServes(grants: map<GrantKey, Grant>, room: string, items: seq<Item>)
    ensures Served(grants, UpsertAll(grants, room, items), room, items)
  {
    forall i | 0 <= i < |items| && LastFor(items, i)
      ensures Row(UpsertAll(grants, room, items), GrantKey(room, items[i].user, items[i].keyId))
           == Some(Grant(items[i].sealedTo, items[i].fp))
    {
      LastItemWins(grants, room, items, i);
    }
    forall k | !Names(items, room, k) ensures Row(UpsertAll(grants, room, items), k) == Row(grants, k) {
      OtherRowsStay(grants, room, items, k);
    }
  }

  /** The claim transaction: the conditional increment and the grants, or nothing at all. */
  function Claimed(db: Db, room: string, expected: nat, items: seq<Item>): Outcome<Db>
  {
    if room in db.epochs && db.epochs[room] == expected
    then Ok(db.(epochs := db.epochs[room := expected + 1], grants := UpsertAll(db.grants, room, items)))
    else Refused(Conflict)
  }

  // The checks read the database at different moments: the uploader's membership and role first, then
  // the members, then, for a plain upload, the room.

  predicate AllMembers(db: Db, room: string, items: seq<Item>) { forall g | g in items :: IsMember(db, room, g.user) }

  predicate AllOf(items: seq<Item>, keyId: nat) { forall g | g in items :: g.keyId == keyId }

  predicate NoneAbove(items: seq<Item>, keyId: nat) { forall g | g in items :: g.keyId <= keyId }

  /** Checks in front of every upload. */
  function UploadCheck(asked: Db, joined: Db, room: string, actor: string, items: seq<Item>): Outcome<bool>
  {
    if !IsMember(asked, room, actor) then Refused(NotAMember)
    else if !AllMembers(joined, room, items) then Refused(TargetNotAMember)
    else Ok(true)
  }

  function ClaimCheck(asked: Db, joined: Db, room: string, actor: string, expected: nat, items: seq<Item>): Outcome<bool>
  {
    var c := UploadCheck(asked, joined, room, actor, items);
    if c.Refused? then c
    else if !IsAdmin(asked, room, actor) then Refused(NotAdmin)
    else if !AllOf(items, expected + 1) then Refused(WrongEpoch)
    else Ok(true)
  }

  function PlainCheck(asked: Db, joined: Db, found: Db, room: string, actor: string, items: seq<Item>): Outcome<bool>
  {
    var c := UploadCheck(asked, joined, room, actor, items);
    if c.Refused? then c
    else if room !in found.epochs then Refused(NotFound)
    else if !NoneAbove(items, found.epochs[room]) then Refused(FutureEpoch)
    else Ok(true)
  }

  /** setPublicKey: the old grants go and the new key comes in one transaction. */
  function KeySet(db: Db, user: string, publicKey: string, fp: string): Db
  {
    if user !in db.users then db
    else db.(grants := map k | k in db.grants && k.user != user :: db.grants[k],
             users := db.users[user := User(publicKey, fp)])
  }

  // ---------------------------------------------------------------- what is pending

  /** A member with a published key and a reached epoch, without a grant sealed to that key. */
  predicate IsPending(db: Db, room: string, upTo: nat, user: string, keyId: nat)
  {
    && IsMember(db, room, user) && HasKey(db, user)
    && 1 <= keyId <= upTo
    && !HasCurrentGrant(db, room, user, keyId)
  }

  predicate HasCurrentGrant(db: Db, room: string, user: string, keyId: nat)
    requires user in db.users
  {
    var k := GrantKey(room, user, keyId);
    k in db.grants && db.grants[k].fp == db.users[user].fp
  }

  // ---------------------------------------------------------------- concurrent uploads

  /** A row that a checked upload still has to write. */
  datatype Writing = Writing(room: string, item: Item)

  /** A POST of grants: plain, or a claim of the epoch after the expected one. */
  datatype Request = Request(room: string, actor: string, expected: Option<nat>, items: seq<Item>)

  /** A request whose uploader was a member when it came, and perhaps an admin. */
  datatype Asked = Asked(request: Request, admin: bool)

  datatype Commit = Commit(room: string, keyId: nat, actor: string)

  /** The database, the requests between their checks, and the committed claims in order. */
  datatype World = World(
    db: Db,
    asked: set<Asked>,            // the recipients are still to be checked
    cleared: set<Request>,        // plain ones: the room is still to be read
    writing: set<Writing>,
    claiming: set<Request>,       // claims whose transaction is still to come
    commits: seq<Commit>)

  datatype Event =
    | Ask(request: Request)                  // is the uploader a member?
    | Clear(asked: Asked)                    // are the recipients?
    | Reach(request: Request)                // has the room reached these epochs?
    | Write(w: Writing)                      // one row of an upload, any time later
    | Transact(request: Request)             // a claim's transaction, any time later
    | SetKey(user: string, publicKey: string)
    | Join(room: string, user: string, admin: bool)
    | Leave(room: string, user: string)

  /** The request validation: key ids are at least 1. */
  predicate ValidItems(items: seq<Item>) { forall g | g in items :: g.keyId >= 1 }

  function Cleared(w: World, a: Asked): World
  {
    var r := a.request;
    var tried := w.(asked := w.asked - {a});
    if !AllMembers(w.db, r.room, r.items) then tried
    else if r.expected.None? then tried.(cleared := w.cleared + {r})
    else if a.admin && AllOf(r.items, r.expected.value + 1) then tried.(claiming := w.claiming + {r})
    else tried
  }

  function Reached(w: World, r: Request): World
  {
    var tried := w.(cleared := w.cleared - {r});
    if r.room in w.db.epochs && NoneAbove(r.items, w.db.epochs[r.room])
    then tried.(writing := w.writing + set g | g in r.items :: Writing(r.room, g)) else tried
  }

  /** The transaction commits and is remembered, or rolls back. */
  function Transacted(w: World, r: Request): World
    requires r.expected.Some?
  {
    var tried := w.(claiming := w.claiming - {r});
    var next := Claimed(w.db, r.room, r.expected.value, r.items);
    if next.Ok?
    then tried.(db := next.value, commits := w.commits + [Commit(r.room, r.expected.value + 1, r.actor)]) else tried
  }

  function Next(w: World, fp: string -> string, e: Event): World
  {
    match e
    case Ask(r) =>
      if ValidItems(r.items) && IsMember(w.db, r.room, r.actor)
      then w.(asked := w.asked + {Asked(r, IsAdmin(w.db, r.room, r.actor))}) else w
    case Clear(a) => if a in w.asked then Cleared(w, a) else w
    case Reach(r) => if r in w.cleared then Reached(w, r) else w
    case Write(row) =>
      if row in w.writing
      then w.(db := w.db.(grants := Upsert(w.db.grants, row.room, row.item)), writing := w.writing - {row}) else w
    case Transact(r) => if r in w.claiming && r.expected.Some? then Transacted(w, r) else w
    case SetKey(user, publicKey) => if publicKey == "" then w else w.(db := KeySet(w.db, user, publicKey, fp(publicKey)))
    case Join(room, user, admin) =>
      if room !in w.db.epochs then w
      else
        var was := if room in w.db.members then w.db.members[room] else map[];
        w.(db := w.db.(members := w.db.members[room := was[user := admin]]))
    case Leave(room, user) =>
      if IsMember(w.db, room, user)
      then w.(db := w.db.(members := w.db.members[room := w.db.members[room] - {user}])) else w
  }

  function Run(w: World, fp: string -> string, es: seq<Event>): World
  {
    if es == [] then w else Next(Run(w, fp, es[..|es| - 1]), fp, es[|es| - 1])
  }

  /** A new room database: rooms at epoch 0, no grants. */
  predicate Fresh(w: World)
  {
    && (forall room | room in w.db.epochs :: w.db.epochs[room] == 0)
    && w.db.grants == map[] && w.asked == {} && w.cleared == {} && w.writing == {} && w.claiming == {}
    && w.commits == []
  }

  // ---------------------------------------------------------------- claims linearize

  function CommitsOf(commits: seq<Commit>, room: string): seq<Commit>
  {
    if commits == [] then []
    else
      CommitsOf(commits[..|commits| - 1], room)
      + (if commits[|commits| - 1].room == room then [commits[|commits| - 1]] else [])
  }

  /** The claims of a room are numbered 1, 2, 3, ... without a gap, up to its current epoch. */
  predicate Numbered(w: World, room: string)
  {
    var mine := CommitsOf(w.commits, room);
    |mine| == Epoch(w.db, room) && forall i | 0 <= i < |mine| :: mine[i].keyId == i + 1
  }

  lemma NextKeepsNumbered(w: World, fp: string -> string, e: Event, room: string)
    requires Numbered(w, room)
    ensures Numbered(Next(w, fp, e), room)
  {
    if e.Transact? && e.request in w.claiming && e.request.expected.Some? {
      TransactedKeepsNumbered(w, e.request, room);
    } else {
      OthersKeepCommits(w, fp, e, room);
    }
  }

  lemma OthersKeepCommits(w: World, fp: string -> string, e: Event, room: string)
    requires e.Transact? ==> !(e.request in w.claiming && e.request.expected.Some?)
    ensures Next(w, fp, e).commits == w.commits && Epoch(Next(w, fp, e).db, room) == Epoch(w.db, room)
  {}

  lemma TransactedKeepsNumbered(w: World, r: Request, room: string)
    requires Numbered(w, room) && r.expected.Some?
    ensures Numbered(Transacted(w, r), room)
  {
    var w' := Transacted(w, r);
    if w'.commits != w.commits {
      assert w'.commits[..|w'.commits| - 1] == w.commits;
    }
  }

  /**
   Over every interleaving of uploads, each epoch of a room has exactly one winning claim: the
   committed claims are 1, 2, 3, ... in order, and there are as many as the current epoch.
   */
  lemma {:induction false} ClaimsLinearize(w: World, fp: string -> string, es: seq<Event>, room: string)
    requires Fresh(w)
    ensures Numbered(Run(w, fp, es), room)
  {
    if es != [] {
      ClaimsLinearize(w, fp, es[..|es| - 1], room);
      NextKeepsNumbered(Run(w, fp, es[..|es| - 1]), fp, es[|es| - 1], room);
    }
  }

  /** The i-th event is a transaction that commits. */
  ghost predicate Wins(w: World, fp: string -> string, es: seq<Event>, i: nat)
    requires i < |es|
  {
    Run(w, fp, es[..i + 1]).commits != Run(w, fp, es[..i]).commits
  }

  lemma {:induction false} EpochsRise(w: World, fp: string -> string, es: seq<Event>, more: seq<Event>, room: string)
    ensures Epoch(Run(w, fp, es).db, room) <= Epoch(Run(w, fp, es + more).db, room)
    decreases |more|
  {
    if more == [] {
      assert es + more == es;
    } else {
      var front, last := more[..|more| - 1], more[|more| - 1];
      EpochsRise(w, fp, es, front, room);
      NextRaises(Run(w, fp, es + front), fp, last, room);
      RunSnoc(w, fp, es + front, last);
      assert es + more == es + front + [last];
    }
  }

  lemma RunSnoc(w: World, fp: string -> string, es: seq<Event>, e: Event)
    ensures Run(w, fp, es + [e]) == Next(Run(w, fp, es), fp, e)
  {
    assert (es + [e])[..|es|] == es;
  }

  lemma NextRaises(w: World, fp: string -> string, e: Event, room: string)
    ensures Epoch(w.db, room) <= Epoch(Next(w, fp, e).db, room)
  {}

  lemma StepOfRun(w: World, fp: string -> string, es: seq<Event>, i: nat)
    requires i < |es|
    ensures Run(w, fp, es[..i + 1]) == Next(Run(w, fp, es[..i]), fp, es[i])
  {
    assert es[..i + 1][..i] == es[..i];
  }

  /**
   Of two transactions of a run that expect the same epoch of a room at most one commits, wherever in the
   run they are, and one that does not commit leaves the tables alone.
   */
  lemma OneWinnerPerEpoch(w: World, fp: string -> string, es: seq<Event>, i: nat, j: nat)
    requires i < j < |es| && es[i].Transact? && es[j].Transact?
    requires es[i].request.room == es[j].request.room && es[i].request.expected == es[j].request.expected
    ensures !(Wins(w, fp, es, i) && Wins(w, fp, es, j))
    ensures !Wins(w, fp, es, i) ==> Run(w, fp, es[..i + 1]).db == Run(w, fp, es[..i]).db
  {
    StepOfRun(w, fp, es, i);
    StepOfRun(w, fp, es, j);
    WinnerIs(Run(w, fp, es[..i]), fp, es[i]);
    WinnerIs(Run(w, fp, es[..j]), fp, es[j]);
    RisesBetween(w, fp, es, i + 1, j, es[i].request.room);
  }

  lemma RisesBetween(w: World, fp: string -> string, es: seq<Event>, i: nat, j: nat, room: string)
    requires i <= j <= |es|
    ensures Epoch(Run(w, fp, es[..i]).db, room) <= Epoch(Run(w, fp, es[..j]).db, room)
  {
    assert es[..i] + es[i..j] == es[..j];
    EpochsRise(w, fp, es[..i], es[i..j], room);
  }

  lemma WinnerIs(w: World, fp: string -> string, e: Event)
    requires e.Transact?
    ensures var w' := Next(w, fp, e);
            var room := e.request.room;
            if w'.commits == w.commits then w'.db == w.db
            else e.request.expected == Some(Epoch(w.db, room)) && Epoch(w'.db, room) == Epoch(w.db, room) + 1
  {}

  /** What a committed claim leaves in the tables. */
  lemma CommitServes(w: World, fp: string -> string, r: Request)
    requires Next(w, fp, Transact(r)).commits != w.commits
    ensures var w' := Next(w, fp, Transact(r));
            && r in w.claiming && r.room in w.db.epochs && r.expected == Some(w.db.epochs[r.room])
            && w'.commits == w.commits + [Commit(r.room, w.db.epochs[r.room] + 1, r.actor)]
            && w'.db.epochs == w.db.epochs[r.room := w.db.epochs[r.room] + 1]
            && w'.db.members == w.db.members && w'.db.users == w.db.users
            && Served(w.db.grants, w'.db.grants, r.room, r.items)
  {
    UpsertAllServes(w.db.grants, r.room, r.items);
  }

  /** Rows exist, and are being written, only for epochs that were claimed. */
  predicate GrantsInRange(w: World)
  {
    && (forall k | k in w.db.grants :: 1 <= k.keyId <= Epoch(w.db, k.room))
    && (forall row | row in w.writing :: 1 <= row.item.keyId <= Epoch(w.db, row.room))
    && (forall a | a in w.asked :: ValidItems(a.request.items))
    && (forall r | r in w.cleared :: ValidItems(r.items))
    && (forall r | r in w.claiming :: r.expected.Some? && AllOf(r.items, r.expected.value + 1))
  }

  lemma {:induction false} UpsertAllKeys(grants: map<GrantKey, Grant>, room: string, items: seq<Item>, k: GrantKey)
    requires k in UpsertAll(grants, room, items)
    ensures k in grants || (k.room == room && exists g :: g in items && k == GrantKey(room, g.user, g.keyId))
  {
    if items != [] {
      var front, last := items[..|items| - 1], items[|items| - 1];
      assert last in items;
      if k != GrantKey(room, last.user, last.keyId) {
        UpsertAllKeys(grants, room, front, k);
        if k !in grants {
          var g :| g in front && k == GrantKey(room, g.user, g.keyId);
          assert g in items;
        }
      }
    }
  }

  lemma NextKeepsRange(w: World, fp: string -> string, e: Event)
    requires GrantsInRange(w)
    ensures GrantsInRange(Next(w, fp, e))
  {
    if e.Transact? && e.request in w.claiming { TransactedKeepsRange(w, e.request); }
  }

  lemma TransactedKeepsRange(w: World, r: Request)
    requires GrantsInRange(w) && r in w.claiming
    ensures GrantsInRange(Transacted(w, r))
  {
    if Claimed(w.db, r.room, r.expected.value, r.items).Ok? {
      forall k | k in UpsertAll(w.db.grants, r.room, r.items) ensures 1 <= k.keyId <= Epoch(Transacted(w, r).db, k.room) {
        UpsertAllKeys(w.db.grants, r.room, r.items, k);
      }
    }
  }

  /**
   In every reachable state each grant row is for an epoch between 1 and the current one, although a
   plain upload, or a claim, makes each of its checks and writes at a moment of its own.
   */
  lemma {:induction false} GrantsStayInRange(w: World, fp: string -> string, es: seq<Event>)
    requires Fresh(w)
    ensures GrantsInRange(Run(w, fp, es))
  {
    if es != [] {
      GrantsStayInRange(w, fp, es[..|es| - 1]);
      NextKeepsRange(Run(w, fp, es[..|es| - 1]), fp, es[|es| - 1]);
    }
  }

  // ---------------------------------------------------------------- pending is safe under races

  /** Fingerprints tell public keys apart. */
  ghost predicate CollisionFree(fp: string -> string) { forall a, b :: fp(a) == fp(b) ==> a == b }

  predicate HonestItem(fp: string -> string, g: Item) { g.fp == fp(g.sealedTo) }

  /** Every fingerprint in the tables, or on its way there, is that of the key beside it. */
  predicate Faithful(w: World, fp: string -> string)
  {
    && (forall u | u in w.db.users && w.db.users[u].publicKey != "" :: w.db.users[u].fp == fp(w.db.users[u].publicKey))
    && FaithfulGrants(w.db.grants, fp)
    && (forall row | row in w.writing :: HonestItem(fp, row.item))
    && (forall a | a in w.asked :: HonestItems(fp, a.request.items))
    && (forall r | r in w.cleared + w.claiming :: HonestItems(fp, r.items))
  }

  predicate FaithfulGrants(grants: map<GrantKey, Grant>, fp: string -> string)
  {
    forall k | k in grants :: grants[k].fp == fp(grants[k].sealedTo)
  }

  predicate HonestItems(fp: string -> string, items: seq<Item>) { forall g | g in items :: HonestItem(fp, g) }

  predicate HonestEvent(fp: string -> string, e: Event)
  {
    e.Ask? ==> HonestItems(fp, e.request.items)
  }

  lemma {:induction false} UpsertAllFaithful(fp: string -> string, grants: map<GrantKey, Grant>, room: string, items: seq<Item>)
    requires FaithfulGrants(grants, fp) && HonestItems(fp, items)
    ensures FaithfulGrants(UpsertAll(grants, room, items), fp)
  {
    if items != [] {
      var front, last := items[..|items| - 1], items[|items| - 1];
      assert last in items && forall g | g in front :: g in items;
      UpsertAllFaithful(fp, grants, room, front);
      assert HonestItem(fp, last);
    }
  }

  lemma NextIsFaithful(w: World, fp: string -> string, e: Event)
    requires Faithful(w, fp) && HonestEvent(fp, e)
    ensures Faithful(Next(w, fp, e), fp)
  {
    match e {
      case Transact(r) => if r in w.claiming { UpsertAllFaithful(fp, w.db.grants, r.room, r.items); }
      case _ =>
    }
  }

  lemma {:induction false} RunIsFaithful(w: World, fp: string -> string, es: seq<Event>)
    requires Faithful(w, fp) && forall e | e in es :: HonestEvent(fp, e)
    ensures Faithful(Run(w, fp, es), fp)
  {
    if es != [] {
      var front, last := es[..|es| - 1], es[|es| - 1];
      assert last in es && forall e | e in front :: e in es;
      RunIsFaithful(w, fp, front);
      NextIsFaithful(Run(w, fp, front), fp, last);
    }
  }

  /** The member can open its grant for this epoch: it is sealed to the key the member publishes now. */
  predicate CanOpen(db: Db, room: string, user: string, keyId: nat)
  {
    var k := GrantKey(room, user, keyId);
    user in db.users && k in db.grants && db.grants[k].sealedTo == db.users[user].publicKey
  }

  /** The grant for this epoch is sealed to this key. */
  predicate OpensWith(db: Db, room: string, user: string, keyId: nat, publicKey: string)
  {
    var k := GrantKey(room, user, keyId);
    k in db.grants && db.grants[k].sealedTo == publicKey
  }

  /** What a reader knows who has read members and users at one moment and grants at another. */
  function Seen(members: Db, grants: Db): Db { members.(grants := grants.grants) }

  lemma SeenMeansCannotOpen(m: World, g: World, fp: string -> string, room: string, upTo: nat, user: string, keyId: nat)
    requires CollisionFree(fp) && Faithful(m, fp) && Faithful(g, fp)
    requires IsMember(m.db, room, user) && HasKey(m.db, user) && 1 <= keyId <= upTo
    ensures IsPending(Seen(m.db, g.db), room, upTo, user, keyId)
       <==> !OpensWith(g.db, room, user, keyId, m.db.users[user].publicKey)
  {
    var k := GrantKey(room, user, keyId);
    if k in g.db.grants && g.db.grants[k].fp == m.db.users[user].fp {
      assert fp(g.db.grants[k].sealedTo) == fp(m.db.users[user].publicKey);
    }
  }

  /** By the tables: a member with this key and a fingerprint, and an epoch that the room has reached. */
  ghost predicate Needs(m: Db, room: string, upTo: nat, user: string, keyId: nat, key: string)
  {
    && room in m.members && user in m.members[room]
    && user in m.users && m.users[user].publicKey == key && key != "" && m.users[user].fp != ""
    && 1 <= keyId <= upTo
  }

  /** And no grant sealed to that key. */
  ghost predicate LacksGrant(m: Db, g: Db, room: string, upTo: nat, user: string, keyId: nat, key: string)
  {
    && Needs(m, room, upTo, user, keyId, key)
    && !(GrantKey(room, user, keyId) in g.grants && g.grants[GrantKey(room, user, keyId)].sealedTo == key)
  }

  /**
   A pending list whose members and grants were read at two moments of a run, in either order, with key
   replacements and late uploads sealed to an old key anywhere: a key is on it for an epoch of a member
   exactly when it is the key that was read and no grant that was read is sealed to it.  If the key was the
   same at both moments that is exactly when the member could not open the epoch as the grants were read.
   */
  lemma PendingMeansCannotOpen(w: World, fp: string -> string, es: seq<Event>, more: seq<Event>, membersFirst: bool,
                               ps: seq<Pending>, room: string, upTo: nat, user: string, keyId: nat, key: string)
    requires CollisionFree(fp) && Faithful(w, fp) && forall e | e in es + more :: HonestEvent(fp, e)
    requires var m := if membersFirst then Run(w, fp, es).db else Run(w, fp, es + more).db;
             var g := if membersFirst then Run(w, fp, es + more).db else Run(w, fp, es).db;
             ExactList(ps, Seen(m, g), room, upTo)
    ensures var m := if membersFirst then Run(w, fp, es).db else Run(w, fp, es + more).db;
            var g := if membersFirst then Run(w, fp, es + more).db else Run(w, fp, es).db;
            && (Pending(user, keyId, key) in ps <==> LacksGrant(m, g, room, upTo, user, keyId, key))
            && (Needs(m, room, upTo, user, keyId, key) && user in g.users && g.users[user].publicKey == key ==>
                  (Pending(user, keyId, key) in ps <==> !CanOpen(g, room, user, keyId)))
  {
    forall e | e in es ensures HonestEvent(fp, e) { assert e in es + more; }
    RunIsFaithful(w, fp, es);
    RunIsFaithful(w, fp, es + more);
    var early, late := Run(w, fp, es), Run(w, fp, es + more);
    var m, g := if membersFirst then early else late, if membersFirst then late else early;
    if IsMember(m.db, room, user) && HasKey(m.db, user) && 1 <= keyId <= upTo {
      SeenMeansCannotOpen(m, g, fp, room, upTo, user, keyId);
    }
  }

  /** With the key replaced between the two reads the list can carry a key that is no longer anyone's. */
  lemma StaleKeyIsListed(w: World, fp: string -> string, room: string, upTo: nat, ps: seq<Pending>,
                         user: string, newKey: string, keyId: nat)
    requires IsMember(w.db, room, user) && HasKey(w.db, user) && 1 <= keyId <= upTo
    requires newKey != "" && newKey != w.db.users[user].publicKey
    requires ExactList(ps, Seen(w.db, Next(w, fp, SetKey(user, newKey)).db), room, upTo)
    ensures Pending(user, keyId, w.db.users[user].publicKey) in ps
    ensures Next(w, fp, SetKey(user, newKey)).db.users[user].publicKey == newKey
  {
    assert IsPending(Seen(w.db, Next(w, fp, SetKey(user, newKey)).db), room, upTo, user, keyId);
  }

  /** A grant sealed to it leaves the epoch pending: the next list asks for it again. */
  lemma StaleGrantStaysPending(db: Db, room: string, upTo: nat, item: Item)
    requires IsPending(db, room, upTo, item.user, item.keyId) && item.fp != db.users[item.user].fp
    ensures IsPending(db.(grants := Upsert(db.grants, room, item)), room, upTo, item.user, item.keyId)
  {}

  /** Serving one pending pair a grant sealed to the current key removes that pair, and adds none. */
  lemma ServingShrinks(db: Db, room: string, upTo: nat, item: Item, user: string, keyId: nat)
    requires IsPending(db, room, upTo, item.user, item.keyId) && item.fp == db.users[item.user].fp
    ensures IsPending(db.(grants := Upsert(db.grants, room, item)), room, upTo, user, keyId)
       <==> IsPending(db, room, upTo, user, keyId) && !(user == item.user && keyId == item.keyId)
  {
  }

  /**
   Serving a whole list, each of its pairs a grant sealed to the listed key, leaves nothing of the room pending,
   whatever stale rows were there before.
   */
  lemma ServingAll(db: Db, room: string, upTo: nat, ps: seq<Pending>, items: seq<Item>, after: map<GrantKey, Grant>,
                   user: string, keyId: nat)
    requires ExactList(ps, db, room, upTo) && |items| == |ps|
    requires forall i | 0 <= i < |ps| :: items[i].user == ps[i].user && items[i].keyId == ps[i].keyId
    requires forall i | 0 <= i < |ps| && ps[i].user in db.users :: items[i].fp == db.users[ps[i].user].fp
    requires Served(db.grants, after, room, items)
    ensures !IsPending(db.(grants := after), room, upTo, user, keyId)
  {
    var k := GrantKey(room, user, keyId);
    if IsPending(db, room, upTo, user, keyId) {
      var i :| 0 <= i < |ps| && ps[i] == Pending(user, keyId, db.users[user].publicKey);
      assert LastFor(items, i) by {
        forall j | i < j < |items| ensures !(items[j].user == items[i].user && items[j].keyId == items[i].keyId) {
          assert ps[j] != ps[i] && ps[j] in ps;
        }
      }
    } else if Names(items, room, k) {
      var g :| g in items && g.user == user && g.keyId == keyId;
      var i :| 0 <= i < |items| && items[i] == g;
      assert ps[i] in ps;
    } else {
      assert Row(after, k) == Row(db.grants, k);
    }
  }

  /** Replacing a key makes every reached epoch of that member pending again, and no one else's. */
  lemma NewKeyReopensAll(db: Db, room: string, upTo: nat, user: string, publicKey: string, fp: string,
                         other: string, keyId: nat)
    requires user in db.users && publicKey != "" && fp != ""
    ensures IsPending(KeySet(db, user, publicKey, fp), room, upTo, other, keyId)
       <==> if other == user then IsMember(db, room, user) && 1 <= keyId <= upTo else IsPending(db, room, upTo, other, keyId)
  {
  }

  // ---------------------------------------------------------------- the service

  datatype Pending = Pending(user: string, keyId: nat, publicKey: string)

  /** The database that the services share. */
  class Database {
    var db: Db

    constructor (db: Db)
      ensures this.db == db
    {
      this.db := db;
    }
  }

  class UsersService {
    const database: Database

    constructor (database: Database)
      ensures this.database == database
    {
      this.database := database;
    }

    /** One transaction: the user's grants of every room go, and the new key is published. */
    method SetPublicKey(user: string, publicKey: string, fp: string -> string) returns (found: bool)
      modifies database
      ensures database.db == KeySet(old(database.db), user, publicKey, fp(publicKey))
      ensures found <==> user in old(database.db).users
      ensures found ==> database.db.users == old(database.db).users[user := User(publicKey, fp(publicKey))]
      ensures found ==> forall k :: Row(database.db.grants, k) == if k.user == user then None else Row(old(database.db).grants, k)
      ensures !found ==> database.db == old(database.db)
      ensures database.db.epochs == old(database.db).epochs && database.db.members == old(database.db).members
    {
      if user !in database.db.users {
        return false;
      }
      var rest := database.db.grants;
      database.db := database.db.(grants := map k | k in rest && k.user != user :: rest[k]);
      database.db := database.db.(users := database.db.users[user := User(publicKey, fp(publicKey))]);
      found := true;
    }
  }

  class RoomKeysService {
    const database: Database
    var advanced: seq<(string, nat)>     // epoch events emitted

    constructor (database: Database)
      ensures this.database == database && advanced == []
    {
      this.database := database;
      advanced := [];
    }

    /** The membership checks in front of both paths; the loop stops at the first stranger. */
    static method Authorize(asked: Db, joined: Db, room: string, actor: string, items: seq<Item>) returns (r: Outcome<bool>)
      ensures r == UploadCheck(asked, joined, room, actor, items)
      ensures r == if !(room in asked.members && actor in asked.members[room]) then Refused(NotAMember)
                   else if exists g :: g in items && !(room in joined.members && g.user in joined.members[room])
                        then Refused(TargetNotAMember)
                   else Ok(true)
    {
      if !IsMember(asked, room, actor) {
        return Refused(NotAMember);
      }
      for i := 0 to |items|
        invariant AllMembers(joined, room, items[..i])
      {
        if !IsMember(joined, room, items[i].user) {
          return Refused(TargetNotAMember);
        }
        assert items[..i + 1] == items[..i] + [items[i]];
      }
      assert items[..|items|] == items;
      return Ok(true);
    }

    /** A plain upload: each check on the database as it was then, and the rows. */
    method UploadGrants(asked: Db, joined: Db, found: Db, room: string, actor: string, items: seq<Item>)
      returns (r: Outcome<nat>)
      modifies database
      ensures r.Ok? <==> PlainCheck(asked, joined, found, room, actor, items).Ok?
      ensures r.Ok? ==> r.value == Epoch(found, room) && database.db ==
                          old(database.db).(grants := UpsertAll(old(database.db).grants, room, items))
      ensures r.Refused? ==> database.db == old(database.db)
                             && r.error == PlainCheck(asked, joined, found, room, actor, items).error
      ensures r.Ok? <==>
              && room in asked.members && actor in asked.members[room]
              && (forall g | g in items :: room in joined.members && g.user in joined.members[room])
              && room in found.epochs && (forall g | g in items :: g.keyId <= found.epochs[room])
      ensures r.Refused? ==> (r.error ==
              if !(room in asked.members && actor in asked.members[room]) then NotAMember
              else if !(forall g | g in items :: room in joined.members && g.user in joined.members[room]) then TargetNotAMember
              else if room !in found.epochs then NotFound else FutureEpoch)
      ensures r.Ok? ==> Served(old(database.db).grants, database.db.grants, room, items)
                        && database.db == old(database.db).(grants := database.db.grants)
    {
      var authorized := Authorize(asked, joined, room, actor, items);
      if authorized.Refused? {
        return Refused(authorized.error);
      }
      if room !in found.epochs {
        return Refused(NotFound);
      }
      for i := 0 to |items|
        invariant NoneAbove(items[..i], found.epochs[room])
        modifies {}
      {
        if items[i].keyId > found.epochs[room] {
          return Refused(FutureEpoch);
        }
        assert items[..i + 1] == items[..i] + [items[i]];
      }
      assert items[..|items|] == items;
      UpsertGrants(room, items);
      r := Ok(found.epochs[room]);
    }

    /**
     The pending list.  Its queries run one after another, the last two in either order, and each is
     answered from the database as it is then: `found`, `checked`, `joined`, `granted`.  `listed` is the
     order in which the members come.
     */
    static method GetPending(found: Db, checked: Db, joined: Db, granted: Db, room: string, requester: string,
                             listed: seq<string>) returns (r: Outcome<seq<Pending>>)
      requires forall u | u in listed :: u in joined.users
      requires forall u :: u in listed <==> IsMember(joined, room, u)
      requires forall i, j | 0 <= i < j < |listed| :: listed[i] != listed[j]
      ensures r == Refused(NotFound) <==> room !in found.epochs
      ensures r == Refused(NotAMember) <==> room in found.epochs && !IsMember(checked, room, requester)
      ensures r.Ok? <==> room in found.epochs && IsMember(checked, room, requester)
      ensures r.Ok? ==> ExactList(r.value, Seen(joined, granted), room, found.epochs[room])
    {
      if room !in found.epochs {
        return Refused(NotFound);
      }
      if !IsMember(checked, room, requester) {
        return Refused(NotAMember);
      }
      if found.epochs[room] == 0 {
        return Ok([]);
      }
      var pending := ListPending(Seen(joined, granted), room, found.epochs[room], listed);
      return Ok(pending);
    }

    /** The epoch claim: checks first, each at its own moment, then the transaction, then the event. */
    method ClaimEpoch(asked: Db, joined: Db, room: string, actor: string, expected: nat, items: seq<Item>)
      returns (r: Outcome<nat>)
      modifies this, database
      ensures r.Ok? <==> ClaimCheck(asked, joined, room, actor, expected, items).Ok?
                         && Claimed(old(database.db), room, expected, items).Ok?
      ensures r.Ok? ==> r.value == expected + 1 && database.db == Claimed(old(database.db), room, expected, items).value
                        && advanced == old(advanced) + [(room, expected + 1)]
      ensures r.Refused? ==> database.db == old(database.db) && advanced == old(advanced)
      ensures r.Refused? ==> r.error == if ClaimCheck(asked, joined, room, actor, expected, items).Refused?
                                        then ClaimCheck(asked, joined, room, actor, expected, items).error else Conflict
      ensures r.Ok? <==>
              && room in asked.members && actor in asked.members[room] && asked.members[room][actor]
              && (forall g | g in items :: room in joined.members && g.user in joined.members[room])
              && (forall g | g in items :: g.keyId == expected + 1)
              && room in old(database.db).epochs && old(database.db).epochs[room] == expected
      ensures r.Refused? ==> (r.error ==
              if !(room in asked.members && actor in asked.members[room]) then NotAMember
              else if !(forall g | g in items :: room in joined.members && g.user in joined.members[room]) then TargetNotAMember
              else if !asked.members[room][actor] then NotAdmin
              else if !(forall g | g in items :: g.keyId == expected + 1) then WrongEpoch else Conflict)
      ensures r.Ok? ==> Served(old(database.db).grants, database.db.grants, room, items)
                        && database.db.epochs == old(database.db).epochs[room := expected + 1]
                        && database.db.members == old(database.db).members && database.db.users == old(database.db).users
    {
      var authorized := Authorize(asked, joined, room, actor, items);
      if authorized.Refused? {
        return Refused(authorized.error);
      }
      if !IsAdmin(asked, room, actor) {
        return Refused(NotAdmin);
      }
      for i := 0 to |items|
        invariant AllOf(items[..i], expected + 1)
        modifies {}
      {
        if items[i].keyId != expected + 1 {
          return Refused(WrongEpoch);
        }
        assert items[..i + 1] == items[..i] + [items[i]];
      }
      assert items[..|items|] == items;
      if !(room in database.db.epochs && database.db.epochs[room] == expected) {
        return Refused(Conflict);
      }
      database.db := database.db.(epochs := database.db.epochs[room := database.db.epochs[room] + 1]);
      UpsertGrants(room, items);
      advanced := advanced + [(room, expected + 1)];
      r := Ok(expected + 1);
    }

    method UpsertGrants(room: string, items: seq<Item>)
      modifies database
      ensures database.db == old(database.db).(grants := UpsertAll(old(database.db).grants, room, items))
      ensures Served(old(database.db).grants, database.db.grants, room, items)
    {
      for i := 0 to |items|
        invariant database.db == old(database.db).(grants := UpsertAll(old(database.db).grants, room, items[..i]))
      {
        assert items[..i + 1][..i] == items[..i];
        database.db := database.db.(grants := Upsert(database.db.grants, room, items[i]));
      }
      assert items[..|items|] == items;
      UpsertAllServes(old(database.db).grants, room, items);
    }
  }

  /** The list holds exactly the pending pairs, each once, with the member's current key. */
  ghost predicate ExactList(ps: seq<Pending>, db: Db, room: string, upTo: nat)
  {
    && (forall p | p in ps :: IsPending(db, room, upTo, p.user, p.keyId) && p.publicKey == db.users[p.user].publicKey)
    && (forall user, keyId: nat | IsPending(db, room, upTo, user, keyId) ::
          Pending(user, keyId, db.users[user].publicKey) in ps)
    && (forall i, j | 0 <= i < j < |ps| :: ps[i] != ps[j])
  }

  /** The pairs of the first m members, and of member m up to epoch k. */
  ghost predicate Collected(ps: seq<Pending>, db: Db, room: string, upTo: nat, listed: seq<string>, m: nat, k: nat)
    requires m <= |listed|
  {
    && (forall p | p in ps :: IsPending(db, room, upTo, p.user, p.keyId) && p.publicKey == db.users[p.user].publicKey
          && (p.user in listed[..m] || (m < |listed| && p.user == listed[m] && p.keyId <= k)))
    && (forall user, keyId: nat | IsPending(db, room, upTo, user, keyId)
          && (user in listed[..m] || (m < |listed| && user == listed[m] && keyId <= k)) ::
          Pending(user, keyId, db.users[user].publicKey) in ps)
    && (forall i, j | 0 <= i < j < |ps| :: ps[i] != ps[j])
  }

  /** The nested loops over members and epochs. */
  method ListPending(db: Db, room: string, currentKeyId: nat, listed: seq<string>) returns (pending: seq<Pending>)
    requires forall u | u in listed :: u in db.users
    requires forall u :: u in listed <==> IsMember(db, room, u)
    requires forall i, j | 0 <= i < j < |listed| :: listed[i] != listed[j]
    ensures ExactList(pending, db, room, currentKeyId)
  {
    pending := [];
    for m := 0 to |listed|
      invariant Collected(pending, db, room, currentKeyId, listed, m, 0)
    {
      var member := listed[m];
      if !HasKey(db, member) {
        MemberDone(pending, db, room, currentKeyId, listed, m);
        continue;
      }
      for keyId := 1 to currentKeyId + 1
        invariant Collected(pending, db, room, currentKeyId, listed, m, keyId - 1)
      {
        if !HasCurrentGrant(db, room, member, keyId) {
          pending := pending + [Pending(member, keyId, db.users[member].publicKey)];
        }
      }
      MemberDone(pending, db, room, currentKeyId, listed, m);
    }
    assert listed[..|listed|] == listed;
  }

  lemma MemberDone(ps: seq<Pending>, db: Db, room: string, upTo: nat, listed: seq<string>, m: nat)
    requires m < |listed|
    requires exists k: nat :: k <= upTo && (HasKey(db, listed[m]) ==> k == upTo) && Collected(ps, db, room, upTo, listed, m, k)
    ensures Collected(ps, db, room, upTo, listed, m + 1, 0)
  {
    assert listed[..m + 1] == listed[..m] + [listed[m]];
  }
}
