/**
 Epoch events racing with the load of a room copy: apps/server/src/sync/sync.gateway.ts, raiseEpoch
 and loadRoomState, for one room on one instance.  Claims commit in the database at any moment, their
 events reach the instance later and in any order, and the load reads the row and continues later.
 */
module EpochLoad {
  import opened Common

  datatype Phase = Waiting | Read(keyId: nat) | Loaded

  /** `events` are the claims whose event has not reached the instance; `heard` is epochByDbId's entry. */
  datatype World = World(db: nat, events: set<nat>, heard: nat, phase: Phase, epoch: nat)

  datatype Event = Claim | Hear(keyId: nat) | ReadRow | Continue

  /** raiseEpoch: the entry is raised always, the copy only once its row id is known. */
  function Raise(w: World, keyId: nat): World
  {
    w.(heard := Max(w.heard, keyId), epoch := if w.phase.Loaded? then Max(w.epoch, keyId) else w.epoch)
  }

  function Next(w: World, e: Event): World
  {
    match e
    case Claim => w.(db := w.db + 1, events := w.events + {w.db + 1})
    case Hear(k) => if k in w.events then Raise(w.(events := w.events - {k}), k) else w
    case ReadRow => if w.phase.Waiting? then w.(phase := Read(w.db)) else w
    case Continue =>
      if w.phase.Read? then w.(phase := Loaded, epoch := Max(Max(w.epoch, w.phase.keyId), w.heard)) else w
  }

  /** An instance that starts with the room at epoch `db` and has not heard of it. */
  function Start(db: nat): World { World(db, {}, 0, Waiting, 0) }

  function Run(db: nat, es: seq<Event>): World
  {
    if es == [] then Start(db) else Next(Run(db, es[..|es| - 1]), es[|es| - 1])
  }

  /** Every epoch claimed after the load's read is still to come or has been heard. */
  predicate Ok(w: World)
  {
    && w.heard <= w.db && w.epoch <= w.db
    && (forall k | k in w.events :: k <= w.db)
    && (w.phase.Waiting? ==> w.epoch == 0)
    && (w.phase.Read? ==> w.phase.keyId <= w.db && (w.phase.keyId == w.db || w.db in w.events || w.heard == w.db))
    && (w.phase.Loaded? ==> w.heard <= w.epoch && (w.epoch == w.db || w.db in w.events))
  }

  lemma {:induction false} RunIsOk(db: nat, es: seq<Event>)
    ensures Ok(Run(db, es))
  {
    if es != [] {
      RunIsOk(db, es[..|es| - 1]);
    }
  }

  /** A loaded copy is never ahead of the database and never behind an event that was handled. */
  lemma LoadedIsNeverBehind(db: nat, es: seq<Event>)
    requires Run(db, es).phase.Loaded?
    ensures Run(db, es).heard <= Run(db, es).epoch <= Run(db, es).db
    ensures Run(db, es).events == {} ==> Run(db, es).epoch == Run(db, es).db
  {
    RunIsOk(db, es);
  }

  /** Handling an event puts the copy at that epoch, before or after its load finishes. */
  lemma {:induction false} HeardEventsArrive(db: nat, before: seq<Event>, after: seq<Event>, keyId: nat)
    requires keyId in Run(db, before).events && Run(db, before + [Hear(keyId)] + after).phase.Loaded?
    ensures keyId <= Run(db, before + [Hear(keyId)] + after).epoch
  {
    HeardGrows(db, before + [Hear(keyId)], after);
    var es := before + [Hear(keyId)];
    assert es[..|es| - 1] == before;
    assert Run(db, es) == Next(Run(db, before), Hear(keyId));
    RunIsOk(db, es + after);
  }

  lemma {:induction false} HeardGrows(db: nat, es: seq<Event>, more: seq<Event>)
    ensures Run(db, es).heard <= Run(db, es + more).heard && Run(db, es).epoch <= Run(db, es + more).epoch
  {
    if more == [] {
      assert es + more == es;
    } else {
      HeardGrows(db, es, more[..|more| - 1]);
      assert (es + more)[..|es + more| - 1] == es + more[..|more| - 1];
    }
  }
}
