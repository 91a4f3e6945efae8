/**
 SQLitePersistence as an object, each handler proved to take the step of module Persistence that
 bears its name (packages/sync-engine/src/SQLitePersistence.ts:66-173).
 */
module LocalPersistence {
  import opened Common
  import opened Replica
  import opened Persistence

  /** The storage adapter: operations settle in the order they were started. */
  class AsyncStorage {
    var stored: Option<Doc>
    var legacy: Option<Doc>
    var started: nat
    var queue: seq<Op>

    ghost function Contents(): Storage
      reads this
    {
      Storage(stored, legacy, started, queue)
    }

    constructor (stored: Option<Doc>, legacy: Option<Doc>)
      ensures Contents() == Storage(stored, legacy, 0, [])
    {
      this.stored, this.legacy, started, queue := stored, legacy, 0, [];
    }

    method Call(request: Request) returns (ticket: nat)
      modifies this
      ensures Contents() == Begin(old(Contents()), request) && ticket == started
    {
      started := started + 1;
      queue := queue + [Op(started, request)];
      ticket := started;
    }

    /** The oldest operation settles. */
    method Settle(success: bool) returns (o: Op)
      requires queue != []
      modifies this
      ensures o == old(queue[0])
      ensures var popped := old(Contents()).(queue := old(queue[1..]));
              Contents() == if success then Effect(popped, o.request) else popped
    {
      o := queue[0];
      queue := queue[1..];
      if success {
        match o.request
        case Adopt(doc) => stored := Some(doc);
        case Write(doc) => stored := Some(doc);
        case Remove => stored := None;
        case RemoveLegacy(_) => legacy := None;
        case _ =>
      }
    }
  }

  class SQLitePersistence {
    const storage: AsyncStorage
    const scoped: bool
    var doc: Doc                 // the engine's document, which encodeState() reads
    var subscribed: bool
    var persistTimer: bool
    var destroyed: bool
    var phase: Phase             // where the load is suspended
    var loaded: bool
    var pendingWrite: nat
    var discarding: Discarding   // where discard() is suspended
    ghost var written: Option<Doc>
    ghost var lastFailed: bool
    ghost var before: Doc
    ghost var read: Option<Doc>
    ghost var destroying: Option<(nat, Doc)>
    ghost var removeFailed: bool

    ghost function State(): Persistence
      reads this, storage
    {
      Persistence(doc, scoped, subscribed, persistTimer, destroyed, phase, loaded, pendingWrite,
                  storage.Contents(), written, lastFailed, before, read, destroying, discarding, removeFailed)
    }

    constructor (storage: AsyncStorage, scoped: bool)
      requires storage.started == 0 && storage.queue == []
      ensures this.storage == storage && State() == Start(scoped, storage.stored, storage.legacy)
    {
      this.storage, this.scoped, doc := storage, scoped, map[];
      subscribed, persistTimer, destroyed, phase, loaded, pendingWrite := false, false, false, Idle, false, 0;
      discarding, written, lastFailed, before, read, destroying, removeFailed := Kept, None, false, map[], None, None, false;
    }

    /** The document changes; the handler, while subscribed, (re)starts the timer. */
    method DocUpdate(changed: Doc)
      modifies this
      ensures State() == Next(old(State()), Change(changed))
    {
      doc := changed;
      if subscribed {
        persistTimer := true;
      }
    }

    method Persist()
      modifies this, storage
      ensures State() == Persisted(old(State()))
    {
      if destroyed { return; }
      var state := doc;
      pendingWrite := storage.Call(Write(state));
      written, lastFailed := Some(state), false;
    }

    method OnTimer()
      requires persistTimer
      modifies this, storage
      ensures State() == Next(old(State()), TimerFires)
    {
      persistTimer := false;
      Persist();
    }

    /** load() up to its first await. */
    method Load()
      modifies this, storage
      ensures State() == Next(old(State()), Event.Load)
    {
      if !phase.Idle? { return; }
      Await(Get);
    }

    /** The load starts its next operation and waits for it. */
    method Await(request: Request)
      modifies this, storage
      ensures State() == Stepping(old(State()), request)
    {
      var ticket := storage.Call(request);
      phase := Running(ticket);
    }

    /** The end of load(), with what was read. */
    method Hydrate(raw: Option<Doc>)
      modifies this
      ensures State() == LoadFinished(old(State()), raw)
    {
      phase := Over;
      if destroyed { return; }
      before, read := doc, raw;
      if raw.Some? {
        doc := Join(doc, raw.value);
      }
      subscribed := true;
      loaded := true;
    }

    /** An operation settles and whoever awaited it goes on; `adopts` is the policy's answer when it is asked. */
    method OnSettled(success: bool, adopts: bool)
      requires storage.queue != []
      modifies this, storage
      ensures State() == Next(old(State()), Complete(success, adopts))
    {
      var o := storage.Settle(success);
      if OfLoad(o.request) {
        LoadGoesOn(o, success, adopts);
      } else if !success {
        if o.request.Remove? {
          removeFailed := true;
        } else if o.ticket == pendingWrite {
          lastFailed := true;
        }
      }
    }

    /** load() after the await of this step; a failed step rejects it. */
    method LoadGoesOn(o: Op, success: bool, adopts: bool)
      requires OfLoad(o.request)
      modifies this, storage
      ensures State() == Continue(old(State()), o, success, adopts)
    {
      if !success {
        phase := Over;
        return;
      }
      match o.request
      case Get =>
        if storage.stored.None? && scoped { Await(GetLegacy); } else { Hydrate(storage.stored); }
      case GetLegacy =>
        if storage.legacy.None? {
          Hydrate(None);
        } else if adopts {
          Await(Adopt(storage.legacy.value));
        } else {
          Await(RemoveLegacy(None));
        }
      case Adopt(legacy) => Await(RemoveLegacy(Some(legacy)));
      case RemoveLegacy(raw) => Hydrate(raw);
    }

    /** destroy() up to its await. */
    method Destroy()
      modifies this, storage
      ensures State() == Next(old(State()), Event.Destroy)
    {
      subscribed := false;
      if persistTimer {
        persistTimer := false;
        Persist();
      }
      destroyed := true;
      destroying := if destroying.None? then Some((pendingWrite, doc)) else destroying;
    }

    /** discard() up to its first await. */
    method Discard()
      modifies this
      ensures State() == Next(old(State()), Event.Discard)
    {
      subscribed := false;
      if persistTimer {
        persistTimer := false;
      }
      destroyed := true;
      if discarding.Kept? {
        discarding := Awaiting(pendingWrite);
      }
    }

    /** discard() goes on once the last write has settled. */
    method OnWriteSettled()
      requires discarding.Awaiting? && Settled(storage.Contents(), discarding.ticket)
      modifies this, storage
      ensures State() == Next(old(State()), Resume)
    {
      var ticket := storage.Call(Remove);
      discarding := Removing(ticket);
    }
  }
}
