/**
 The debounced writer of the local document: packages/sync-engine/src/SQLitePersistence.ts.

 Storage completes operations in the order they were started; each carries a ticket, and a promise is
 settled when its ticket is no longer in flight.  A load is a chain of operations, each started when
 the one before has completed.
 */
module Persistence {
  import opened Common
  import opened Replica

  datatype Request =
    | Get | GetLegacy | Adopt(doc: Doc) | RemoveLegacy(raw: Option<Doc>)   // the steps of a load
    | Write(doc: Doc)
    | Remove

  datatype Op = Op(ticket: nat, request: Request)

  datatype Phase = Idle | Running(ticket: nat) | Over   // of the one load; which step is in flight

  datatype Discarding = Kept | Awaiting(ticket: nat) | Removing(ticket: nat)

  datatype Storage = Storage(stored: Option<Doc>, legacy: Option<Doc>, started: nat, queue: seq<Op>)

  datatype Persistence = Persistence(
    doc: Doc,                            // the engine's document
    scoped: bool,                        // the key has an account in it, so an older key may be adopted
    subscribed: bool, timer: bool, destroyed: bool, phase: Phase, loaded: bool,
    pendingWrite: nat,                   // the last write's ticket, 0 for the promise it starts with
    storage: Storage,
    // history
    written: Option<Doc>, lastFailed: bool,   // what the last write holds; whether it failed
    before: Doc, read: Option<Doc>,           // the document before hydration, and what hydrated it
    destroying: Option<(nat, Doc)>,           // what destroy() awaits, and the document it was called on
    discarding: Discarding, removeFailed: bool)

  datatype Event =
    | Load
    | Change(doc: Doc)
    | TimerFires
    | Destroy
    | Discard
    | Resume                                  // discard() goes on after its first await
    | Complete(success: bool, adopts: bool)   // the oldest operation settles; the adoption policy's answer

  /** A promise for this ticket has settled. */
  predicate Settled(s: Storage, ticket: nat) { forall o | o in s.queue :: o.ticket != ticket }

  function Begin(s: Storage, request: Request): Storage
  {
    s.(started := s.started + 1, queue := s.queue + [Op(s.started + 1, request)])
  }

  function Starting(p: Persistence, request: Request): Persistence { p.(storage := Begin(p.storage, request)) }

  /** The load moves on to its next step. */
  function Stepping(p: Persistence, request: Request): Persistence
  {
    Starting(p, request).(phase := Running(p.storage.started + 1))
  }

  function Persisted(p: Persistence): Persistence
  {
    if p.destroyed then p
    else
      Starting(p, Write(p.doc)).(
        pendingWrite := p.storage.started + 1, written := Some(p.doc), lastFailed := false)
  }

  function Hydrated(doc: Doc, raw: Option<Doc>): Doc { if raw.Some? then Join(doc, raw.value) else doc }

  /** The end of a load: nothing if the component went away meanwhile, else hydrate and subscribe. */
  function LoadFinished(p: Persistence, raw: Option<Doc>): Persistence
  {
    if p.destroyed then p.(phase := Over)
    else
      p.(doc := Hydrated(p.doc, raw), before := p.doc, read := raw, subscribed := true, loaded := true, phase := Over)
  }

  /** What storage holds once this request has succeeded. */
  function Effect(s: Storage, request: Request): Storage
  {
    match request
    case Adopt(doc) => s.(stored := Some(doc))
    case Write(doc) => s.(stored := Some(doc))
    case Remove => s.(stored := None)
    case RemoveLegacy(_) => s.(legacy := None)
    case _ => s
  }

  /** How a load goes on: with another operation, or to its end. */
  datatype Move = Step(request: Request) | Finish(raw: Option<Doc>)

  /** After this step of a load has succeeded; `s` already shows what it did. */
  function NextMove(s: Storage, scoped: bool, done: Request, adopts: bool): Move
    requires OfLoad(done)
  {
    match done
    case Get => if s.stored.None? && scoped then Step(GetLegacy) else Finish(s.stored)
    case GetLegacy =>
      if s.legacy.None? then Finish(None)
      else if adopts then Step(Adopt(s.legacy.value))
      else Step(RemoveLegacy(None))
    case Adopt(doc) => Step(RemoveLegacy(Some(doc)))
    case RemoveLegacy(raw) => Finish(raw)
  }

  function Moving(p: Persistence, move: Move): Persistence
  {
    match move case Step(r) => Stepping(p, r) case Finish(raw) => LoadFinished(p, raw)
  }

  /** The code after an await: `p.storage` already shows what the request did. */
  function Continue(p: Persistence, o: Op, success: bool, adopts: bool): Persistence
  {
    match o.request
    case Write(_) => if success || o.ticket != p.pendingWrite then p else p.(lastFailed := true)
    case Remove => if success then p else p.(removeFailed := true)
    case step => if !success then p.(phase := Over) else Moving(p, NextMove(p.storage, p.scoped, step, adopts))
  }

  /** The oldest operation has left the queue, and has had its effect if it succeeded. */
  function Gone(p: Persistence, success: bool): Persistence
    requires p.storage.queue != []
  {
    var popped := p.storage.(queue := p.storage.queue[1..]);
    p.(storage := if success then Effect(popped, p.storage.queue[0].request) else popped)
  }

  function AfterComplete(p: Persistence, success: bool, adopts: bool): Persistence
    requires p.storage.queue != []
  {
    Continue(Gone(p, success), p.storage.queue[0], success, adopts)
  }

  function AfterDestroy(p: Persistence): Persistence
  {
    var quiet := p.(subscribed := false, timer := false);
    var flushed := if p.timer then Persisted(quiet) else quiet;
    flushed.(
      destroyed := true,
      destroying := if p.destroying.None? then Some((flushed.pendingWrite, p.doc)) else p.destroying)
  }

  function AfterDiscard(p: Persistence): Persistence
  {
    p.(subscribed := false, timer := false, destroyed := true,
       discarding := if p.discarding.Kept? then Awaiting(p.pendingWrite) else p.discarding)
  }

  function Next(p: Persistence, e: Event): Persistence
  {
    match e
    case Load => if p.phase.Idle? then Stepping(p, Get) else p
    case Change(doc) => p.(doc := doc, timer := p.timer || p.subscribed)
    case TimerFires => if p.timer then Persisted(p.(timer := false)) else p
    case Destroy => AfterDestroy(p)
    case Discard => AfterDiscard(p)
    case Resume =>
      if p.discarding.Awaiting? && Settled(p.storage, p.discarding.ticket)
      then Starting(p, Remove).(discarding := Removing(p.storage.started + 1))
      else p
    case Complete(success, adopts) => if p.storage.queue == [] then p else AfterComplete(p, success, adopts)
  }

  function Start(scoped: bool, stored: Option<Doc>, legacy: Option<Doc>): Persistence
  {
    Persistence(map[], scoped, false, false, false, Idle, false, 0, Storage(stored, legacy, 0, []),
                None, false, map[], None, None, Kept, false)
  }

  function From(p: Persistence, es: seq<Event>): Persistence
    decreases |es|
  {
    if es == [] then p else Next(From(p, es[..|es| - 1]), es[|es| - 1])
  }

  // ---------------------------------------------------------------- what every run keeps

  predicate OfLoad(r: Request) { r.Get? || r.GetLegacy? || r.Adopt? || r.RemoveLegacy? }

  /** Tickets are handed out in order, and the only load step in flight is the one the load waits for. */
  predicate QueueOk(s: Storage, phase: Phase)
  {
    && (forall o | o in s.queue :: 0 < o.ticket <= s.started)
    && (forall i, j | 0 <= i < j < |s.queue| :: s.queue[i].ticket < s.queue[j].ticket)
    && (forall o | o in s.queue && OfLoad(o.request) :: phase == Running(o.ticket))
  }

  predicate FlagsOk(p: Persistence)
  {
    && (p.timer ==> p.subscribed) && (p.subscribed ==> p.loaded && !p.destroyed)
    && (p.loaded ==> p.phase.Over?) && (p.written.Some? ==> p.loaded) && (p.loaded && !p.destroyed ==> p.subscribed)
    && (p.pendingWrite == 0 <==> p.written.None?) && p.pendingWrite <= p.storage.started
    && (p.destroyed <==> p.destroying.Some? || !p.discarding.Kept?)
    && (p.removeFailed ==> p.discarding.Removing?)
    && (p.destroying.Some? && p.discarding.Kept? ==> p.destroying.value.0 == p.pendingWrite)
  }

  /** Writes in flight are no younger than the last, and the removal follows every write. */
  predicate WritesOk(p: Persistence)
  {
    && (forall o | o in p.storage.queue && o.request.Write? ::
          o.ticket <= p.pendingWrite && (o.ticket == p.pendingWrite ==> Some(o.request.doc) == p.written))
    && (forall o | o in p.storage.queue && o.ticket == p.pendingWrite :: o.request.Write?)
    && (Settled(p.storage, p.pendingWrite) ==> forall o | o in p.storage.queue :: !o.request.Write?)
    && (forall o | o in p.storage.queue && o.request.Remove? :: p.discarding == Removing(o.ticket))
    && (p.discarding.Awaiting? ==> p.discarding.ticket == p.pendingWrite)
    && (p.discarding.Removing? ==>
          && p.pendingWrite < p.discarding.ticket <= p.storage.started
          && Settled(p.storage, p.pendingWrite)
          && (forall o | o in p.storage.queue && o.ticket == p.discarding.ticket :: o.request.Remove?))
  }

  /** Once the last write has landed storage holds it; before any write it holds what was read. */
  predicate StoredOk(p: Persistence)
  {
    p.loaded && !p.discarding.Removing? ==>
      if p.written.None? then p.storage.stored == p.read
      else Settled(p.storage, p.pendingWrite) && !p.lastFailed ==> p.storage.stored == p.written
  }

  /** The document as the last started write, or the hydration, left it. */
  function Saved(p: Persistence): Doc { if p.written.Some? then p.written.value else Hydrated(p.before, p.read) }

  /** While subscribed, a change that no started write covers has its timer running. */
  predicate CoveredOk(p: Persistence)
  {
    && (p.subscribed && !p.timer ==> p.doc == Saved(p))
    && (p.loaded && p.destroying.Some? && p.discarding.Kept? ==> p.destroying.value.1 == Saved(p))
  }

  /** Between the steps of a load the key holds what the next step takes it to hold. */
  predicate LoadOk(p: Persistence)
  {
    forall o | o in p.storage.queue && !p.destroyed ::
      && (o.request.GetLegacy? || o.request.Adopt? ==> p.storage.stored.None?)
      && (o.request.RemoveLegacy? ==> p.storage.stored == o.request.raw)
  }

  predicate Ok(p: Persistence) {
    && QueueOk(p.storage, p.phase) && FlagsOk(p) && WritesOk(p) && StoredOk(p) && CoveredOk(p) && LoadOk(p)
  }

  lemma Pushed(s: Storage, r: Request)
    ensures forall o :: o in Begin(s, r).queue <==> o in s.queue || o == Op(s.started + 1, r)
  {}

  lemma Popped(s: Storage, phase: Phase)
    requires QueueOk(s, phase) && s.queue != []
    ensures forall o :: o in s.queue[1..] <==> o in s.queue && o != s.queue[0]
    ensures forall o | o in s.queue[1..] :: o.ticket > s.queue[0].ticket
    ensures forall o | o in s.queue && o.ticket == s.queue[0].ticket :: o == s.queue[0]
  {
    assert s.queue == [s.queue[0]] + s.queue[1..];
  }

  lemma PersistIsOk(p: Persistence)
    requires Ok(p) && p.loaded && !p.destroyed
    ensures Ok(Persisted(p.(timer := false)))
  {
    Pushed(p.storage, Write(p.doc));
  }

  lemma LoadIsOk(p: Persistence)
    requires Ok(p) && p.phase.Idle?
    ensures Ok(Stepping(p, Get))
  {
    Pushed(p.storage, Get);
  }

  lemma ResumeIsOk(p: Persistence)
    requires Ok(p)
    ensures Ok(Next(p, Resume))
  {
    if p.discarding.Awaiting? && Settled(p.storage, p.discarding.ticket) { RemovingIsOk(p); }
  }

  lemma RemovingIsOk(p: Persistence)
    requires Ok(p) && p.discarding.Awaiting? && Settled(p.storage, p.discarding.ticket)
    ensures Ok(Starting(p, Remove).(discarding := Removing(p.storage.started + 1)))
  {
    Pushed(p.storage, Remove);
  }

  lemma DestroyIsOk(p: Persistence)
    requires Ok(p)
    ensures Ok(AfterDestroy(p))
  {
    if p.timer { PersistIsOk(p); }
  }

  lemma LastWriteDoneIsOk(p: Persistence, success: bool, adopts: bool)
    requires Ok(p) && p.storage.queue != [] && p.storage.queue[0].request.Write?
    requires p.storage.queue[0].ticket == p.pendingWrite
    ensures Ok(AfterComplete(p, success, adopts))
  {
    Popped(p.storage, p.phase);
    assert p.storage.queue[0] in p.storage.queue;
  }

  /** The last write is behind the one that leaves the queue. */
  lemma EarlierWriteGone(p: Persistence, success: bool)
    requires Ok(p) && p.storage.queue != [] && p.storage.queue[0].request.Write?
    requires p.storage.queue[0].ticket != p.pendingWrite
    ensures WritesOk(Gone(p, success)) && !Settled(Gone(p, success).storage, p.pendingWrite) && p.loaded
  {
    Popped(p.storage, p.phase);
    assert p.storage.queue[0] in p.storage.queue;
    var last :| last in p.storage.queue && last.ticket == p.pendingWrite;
    assert last in Gone(p, success).storage.queue;
  }

  lemma EarlierWriteDoneIsOk(p: Persistence, success: bool, adopts: bool)
    requires Ok(p) && p.storage.queue != [] && p.storage.queue[0].request.Write?
    requires p.storage.queue[0].ticket != p.pendingWrite
    ensures Ok(AfterComplete(p, success, adopts))
  {
    Popped(p.storage, p.phase);
    EarlierWriteGone(p, success);
    assert AfterComplete(p, success, adopts) == Gone(p, success);
  }

  lemma RemoveDoneIsOk(p: Persistence, success: bool, adopts: bool)
    requires Ok(p) && p.storage.queue != [] && p.storage.queue[0].request.Remove?
    ensures Ok(AfterComplete(p, success, adopts))
  {
    Popped(p.storage, p.phase);
    assert p.storage.queue[0] in p.storage.queue;
  }

  /** The last step of a load has settled: hydrate with what the key holds. */
  lemma FinishIsOk(p: Persistence, raw: Option<Doc>)
    requires Ok(p) && !p.loaded && (forall o | o in p.storage.queue :: !OfLoad(o.request))
    requires !p.destroyed ==> p.storage.stored == raw
    ensures Ok(LoadFinished(p, raw))
  {}

  lemma SteppingIsOk(p: Persistence, r: Request)
    requires Ok(p) && !p.loaded && (forall o | o in p.storage.queue :: !OfLoad(o.request)) && OfLoad(r)
    requires !p.destroyed ==>
               && (r.GetLegacy? || r.Adopt? ==> p.storage.stored.None?)
               && (r.RemoveLegacy? ==> p.storage.stored == r.raw)
    ensures Ok(Stepping(p, r))
  {
    Pushed(p.storage, r);
  }

  lemma StepGoneIsOk(p: Persistence, success: bool)
    requires Ok(p) && p.storage.queue != [] && OfLoad(p.storage.queue[0].request)
    ensures Ok(Gone(p, success)) && Ok(Gone(p, success).(phase := Over))
    ensures !p.loaded && forall o | o in Gone(p, success).storage.queue :: !OfLoad(o.request)
  {
    Popped(p.storage, p.phase);
    assert p.storage.queue[0] in p.storage.queue;
    assert QueueOk(Gone(p, success).storage, Over);
  }

  /** The move is one that the key's content justifies. */
  predicate Justified(p: Persistence, move: Move)
  {
    match move
    case Step(r) =>
      && OfLoad(r)
      && (!p.destroyed ==>
            && (r.GetLegacy? || r.Adopt? ==> p.storage.stored.None?)
            && (r.RemoveLegacy? ==> p.storage.stored == r.raw))
    case Finish(raw) => !p.destroyed ==> p.storage.stored == raw
  }

  lemma MovingIsOk(p: Persistence, move: Move)
    requires Ok(p) && !p.loaded && (forall o | o in p.storage.queue :: !OfLoad(o.request)) && Justified(p, move)
    ensures Ok(Moving(p, move))
  {
    match move
    case Step(r) => SteppingIsOk(p, r);
    case Finish(raw) => FinishIsOk(p, raw);
  }

  lemma MoveIsJustified(p: Persistence, adopts: bool)
    requires Ok(p) && p.storage.queue != [] && OfLoad(p.storage.queue[0].request)
    ensures var now := Gone(p, true);
            Justified(now, NextMove(now.storage, p.scoped, p.storage.queue[0].request, adopts))
  {
    assert p.storage.queue[0] in p.storage.queue && LoadOk(p);
  }

  lemma LoadStepIsOk(p: Persistence, success: bool, adopts: bool)
    requires Ok(p) && p.storage.queue != [] && OfLoad(p.storage.queue[0].request)
    ensures Ok(AfterComplete(p, success, adopts))
  {
    StepGoneIsOk(p, success);
    if success {
      var now := Gone(p, true);
      MoveIsJustified(p, adopts);
      MovingIsOk(now, NextMove(now.storage, p.scoped, p.storage.queue[0].request, adopts));
    }
  }

  lemma NextIsOk(p: Persistence, e: Event)
    requires Ok(p)
    ensures Ok(Next(p, e))
  {
    match e
    case Load => if p.phase.Idle? { LoadIsOk(p); }
    case Change(_) =>
    case TimerFires => if p.timer { PersistIsOk(p); }
    case Destroy => DestroyIsOk(p);
    case Discard =>
    case Resume => ResumeIsOk(p);
    case Complete(success, adopts) =>
      if p.storage.queue != [] {
        match p.storage.queue[0].request
        case Write(_) =>
          if p.storage.queue[0].ticket == p.pendingWrite { LastWriteDoneIsOk(p, success, adopts); }
          else { EarlierWriteDoneIsOk(p, success, adopts); }
        case Remove => RemoveDoneIsOk(p, success, adopts);
        case _ => LoadStepIsOk(p, success, adopts);
      }
  }

  lemma {:induction false} RunIsOk(p: Persistence, es: seq<Event>)
    requires Ok(p)
    ensures Ok(From(p, es))
  {
    if es != [] {
      RunIsOk(p, es[..|es| - 1]);
      NextIsOk(From(p, es[..|es| - 1]), es[|es| - 1]);
    }
  }

  // ---------------------------------------------------------------- destroy() saves the document

  /** No local change came before the load had finished. */
  ghost predicate Patient(p: Persistence, es: seq<Event>)
  {
    forall i | 0 <= i < |es| && es[i].Change? :: From(p, es[..i]).loaded
  }

  /** What a fresh document becomes when it is hydrated from the key. */
  function Restored(p: Persistence): Doc { Hydrated(map[], p.storage.stored) }

  /** In every reachable state, a change no started write covers has its timer running. */
  lemma NoChangeIsForgotten(scoped: bool, stored: Option<Doc>, legacy: Option<Doc>, es: seq<Event>)
    ensures var p := From(Start(scoped, stored, legacy), es);
            p.loaded && !p.destroyed && p.doc != Saved(p) ==> p.timer
  {
    RunIsOk(Start(scoped, stored, legacy), es);
  }

  /** destroy() has resolved, the last write did not fail, and nothing is being discarded. */
  predicate Resolved(p: Persistence)
  {
    !p.lastFailed && p.discarding.Kept? && p.destroying.Some? && Settled(p.storage, p.destroying.value.0)
  }

  /** All that the document held when destroy() was called comes back from storage. */
  predicate Lossless(p: Persistence)
    requires p.destroying.Some?
  {
    Below(p.destroying.value.1, Restored(p))
  }

  /** Nothing was written: storage holds what it held, or has adopted the older key's document. */
  predicate Untouched(s: Storage, scoped: bool, stored: Option<Doc>, legacy: Option<Doc>)
  {
    s.stored == stored || (scoped && stored.None? && s.stored == legacy)
  }

  /** The document is in what the key held when the app started, or in the older key's document if that was adopted. */
  predicate WasStored(doc: Doc, now: Storage, scoped: bool, stored: Option<Doc>, legacy: Option<Doc>)
  {
    if scoped && stored.None? then doc == map[] || (now.stored == legacy && Below(doc, Hydrated(map[], legacy)))
    else Below(doc, Hydrated(map[], stored))
  }

  /**
   When destroy() has resolved and the last write did not fail.  If the load had finished, nothing the
   document held is lost exactly when something was written or what the app had put into it before it was
   hydrated was in storage anyway, and storage then holds the document itself.  If not, nothing is lost
   exactly when all of it had been stored before the app started.
   */
  lemma DestroySavesExactlyWhen(scoped: bool, stored: Option<Doc>, legacy: Option<Doc>, es: seq<Event>)
    ensures var p := From(Start(scoped, stored, legacy), es);
            Resolved(p) ==>
              && (p.written.None? ==> Untouched(p.storage, scoped, stored, legacy))
              && (p.loaded ==>
                    && (Lossless(p) <==> p.written.Some? || Below(p.before, Restored(p)))
                    && (Lossless(p) <==> Restored(p) == p.destroying.value.1))
              && (!p.loaded ==> (Lossless(p) <==> WasStored(p.destroying.value.1, p.storage, scoped, stored, legacy)))
  {
    RunIsOk(Start(scoped, stored, legacy), es);
    StorageComesFrom(scoped, stored, legacy, es);
    var p := From(Start(scoped, stored, legacy), es);
    if Resolved(p) && p.loaded { LoadedSaves(p); }
    if Resolved(p) && !p.loaded { UnloadedSaves(p.destroying.value.1, p.storage, scoped, stored, legacy); }
  }

  lemma UnloadedSaves(doc: Doc, now: Storage, scoped: bool, stored: Option<Doc>, legacy: Option<Doc>)
    requires Untouched(now, scoped, stored, legacy)
    ensures Below(doc, Hydrated(map[], now.stored)) <==> WasStored(doc, now, scoped, stored, legacy)
  {
    if Below(doc, map[]) { assert doc.Keys == {}; }
  }

  lemma LoadedSaves(p: Persistence)
    requires Ok(p) && Resolved(p) && p.loaded
    ensures Lossless(p) <==> p.written.Some? || Below(p.before, Restored(p))
    ensures Lossless(p) <==> Restored(p) == p.destroying.value.1
  {
    if p.written.None? {
      assert Restored(p) == Hydrated(map[], p.read);
      EarlyDecides(p.before, p.read);
    } else {
      assert Join(map[], p.written.value) == p.written.value;
    }
  }

  lemma EarlyDecides(before: Doc, read: Option<Doc>)
    ensures var d, r := Hydrated(before, read), Hydrated(map[], read);
            (Below(d, r) <==> Below(before, r)) && (Below(d, r) <==> r == d)
  {
    if read.Some? {
      assert Join(map[], read.value) == read.value;
      JoinedBelow(before, read.value);
    } else if Below(before, map[]) {
      assert before.Keys == {};
    }
  }

  lemma JoinedBelow(a: Doc, b: Doc)
    ensures (Below(Join(a, b), b) <==> Below(a, b)) && (Below(Join(a, b), b) <==> b == Join(a, b))
  {
    var j := Join(a, b);
    if Below(a, b) {
      assert j.Keys == b.Keys;
      forall id | id in j ensures j[id] == b[id] {}
      assert j == b;
    }
    if Below(j, b) {
      forall id | id in a ensures id in b && (b[id] == a[id] || b[id].Deleted?) { assert id in j; }
    }
  }

  /** Of the operations in flight, a load's steps bring nothing but the older key's document. */
  predicate ComesFrom(p: Persistence, stored: Option<Doc>, legacy: Option<Doc>)
  {
    p.discarding.Removing? || p.written.Some? ||
      (&& Untouched(p.storage, p.scoped, stored, legacy)
       && (p.storage.legacy == legacy || p.storage.legacy.None?)
       && (forall o | o in p.storage.queue && o.request.GetLegacy? :: p.scoped && stored.None?)
       && (forall o | o in p.storage.queue && o.request.Adopt? ::
             p.scoped && stored.None? && Some(o.request.doc) == legacy))
  }

  lemma {:induction false} StorageComesFrom(scoped: bool, stored: Option<Doc>, legacy: Option<Doc>, es: seq<Event>)
    ensures var p := From(Start(scoped, stored, legacy), es); p.scoped == scoped && ComesFrom(p, stored, legacy)
  {
    if es != [] {
      var front := es[..|es| - 1];
      StorageComesFrom(scoped, stored, legacy, front);
      RunIsOk(Start(scoped, stored, legacy), front);
      NextComesFrom(From(Start(scoped, stored, legacy), front), es[|es| - 1], stored, legacy);
    }
  }

  lemma NextComesFrom(p: Persistence, e: Event, stored: Option<Doc>, legacy: Option<Doc>)
    requires Ok(p) && ComesFrom(p, stored, legacy)
    ensures Next(p, e).scoped == p.scoped && ComesFrom(Next(p, e), stored, legacy)
  {
    match e
    case Load => Pushed(p.storage, Get);
    case Complete(success, adopts) => if p.storage.queue != [] { CompleteComesFrom(p, success, adopts, stored, legacy); }
    case _ =>
  }

  lemma CompleteComesFrom(p: Persistence, success: bool, adopts: bool, stored: Option<Doc>, legacy: Option<Doc>)
    requires Ok(p) && p.storage.queue != [] && ComesFrom(p, stored, legacy)
    ensures var q := AfterComplete(p, success, adopts); q.scoped == p.scoped && ComesFrom(q, stored, legacy)
  {
    var o := p.storage.queue[0];
    assert o in p.storage.queue;
    Popped(p.storage, p.phase);
    if !p.discarding.Removing? && p.written.None? {
      GoneComesFrom(p, success, stored, legacy);
      ContinueComesFrom(Gone(p, success), o, success, adopts, stored, legacy);
    }
  }

  lemma GoneComesFrom(p: Persistence, success: bool, stored: Option<Doc>, legacy: Option<Doc>)
    requires Ok(p) && p.storage.queue != [] && !p.discarding.Removing? && p.written.None? && ComesFrom(p, stored, legacy)
    ensures ComesFrom(Gone(p, success), stored, legacy) && OfLoad(p.storage.queue[0].request)
  {
    Popped(p.storage, p.phase);
    assert p.storage.queue[0] in p.storage.queue;
    assert p.pendingWrite == 0;
  }

  lemma MovingComesFrom(p: Persistence, move: Move, stored: Option<Doc>, legacy: Option<Doc>)
    requires ComesFrom(p, stored, legacy) && !p.discarding.Removing? && p.written.None?
    requires move.Step? && move.request.GetLegacy? ==> p.scoped && stored.None?
    requires move.Step? && move.request.Adopt? ==> p.scoped && stored.None? && Some(move.request.doc) == legacy
    ensures Moving(p, move).scoped == p.scoped && ComesFrom(Moving(p, move), stored, legacy)
  {
    if move.Step? { Pushed(p.storage, move.request); }
  }

  lemma ContinueComesFrom(p: Persistence, o: Op, success: bool, adopts: bool, stored: Option<Doc>, legacy: Option<Doc>)
    requires ComesFrom(p, stored, legacy) && !p.discarding.Removing? && p.written.None? && OfLoad(o.request)
    requires o.request.GetLegacy? ==> p.scoped && stored.None?
    requires o.request.Adopt? ==> p.scoped && stored.None? && Some(o.request.doc) == legacy
    ensures var q := Continue(p, o, success, adopts); q.scoped == p.scoped && ComesFrom(q, stored, legacy)
  {
    if success { MovingComesFrom(p, NextMove(p.storage, p.scoped, o.request, adopts), stored, legacy); }
  }

  /** Nothing has been put into the document early. */
  predicate Clean(p: Persistence)
  {
    p.before == map[] && (!p.loaded ==> p.doc == map[] && (p.destroying.Some? ==> p.destroying.value.1 == map[]))
  }

  lemma CleanStep(p: Persistence, e: Event)
    requires Ok(p) && Clean(p) && (e.Change? ==> p.loaded)
    ensures Clean(Next(p, e))
  {
    if e.Complete? && p.storage.queue != [] { CleanComplete(p, e.success, e.adopts); }
  }

  lemma CleanComplete(p: Persistence, success: bool, adopts: bool)
    requires Ok(p) && Clean(p) && p.storage.queue != []
    ensures Clean(AfterComplete(p, success, adopts))
  {
    var now := Gone(p, success);
    assert p.storage.queue[0] in p.storage.queue && Clean(now);
    if OfLoad(p.storage.queue[0].request) {
      assert !p.loaded;
      CleanContinue(now, p.storage.queue[0], success, adopts);
    }
  }

  lemma CleanContinue(p: Persistence, o: Op, success: bool, adopts: bool)
    requires Clean(p) && !p.loaded && OfLoad(o.request)
    ensures Clean(Continue(p, o, success, adopts))
  {
    if success { CleanMoving(p, NextMove(p.storage, p.scoped, o.request, adopts)); }
  }

  lemma CleanMoving(p: Persistence, move: Move)
    requires Clean(p) && !p.loaded
    ensures Clean(Moving(p, move))
  {}

  lemma {:induction false} PatientMeansClean(p: Persistence, es: seq<Event>)
    requires Ok(p) && Clean(p) && Patient(p, es)
    ensures Clean(From(p, es))
  {
    if es != [] {
      var front := es[..|es| - 1];
      forall i | 0 <= i < |front| && front[i].Change? ensures From(p, front[..i]).loaded {
        assert front[..i] == es[..i] && es[i].Change?;
      }
      PatientMeansClean(p, front);
      RunIsOk(p, front);
      CleanStep(From(p, front), es[|es| - 1]);
    }
  }

  /** Hence no local update is lost by an app that changes the document only once it is loaded. */
  lemma DestroySaves(scoped: bool, stored: Option<Doc>, legacy: Option<Doc>, es: seq<Event>)
    requires Patient(Start(scoped, stored, legacy), es)
    ensures var p := From(Start(scoped, stored, legacy), es);
            Resolved(p) ==> Lossless(p) && (p.loaded ==> Restored(p) == p.destroying.value.1)
  {
    var p := From(Start(scoped, stored, legacy), es);
    DestroySavesExactlyWhen(scoped, stored, legacy, es);
    PatientMeansClean(Start(scoped, stored, legacy), es);
  }

  /** A message sent while the load was reading is not written when the app goes away after the load. */
  lemma EarlyChangeIsLost(doc: Doc)
    requires doc != map[]
    ensures var p := From(Start(false, None, None), [Load, Change(doc), Complete(true, false), Destroy]);
            p.loaded && Resolved(p) && p.destroying.value.1 == doc && Restored(p) == map[] && !Lossless(p)
  {
    var early := EarlyChange(doc);
    var es := [Load, Change(doc), Complete(true, false), Destroy];
    var loaded := Next(early, Complete(true, false));
    assert es[..3] == [Load, Change(doc), Complete(true, false)] && es[..3][..2] == [Load, Change(doc)];
    assert From(Start(false, None, None), es[..3]) == loaded;
    assert loaded.loaded && loaded.doc == doc && Next(loaded, Destroy).storage.stored.None?;
  }

  /** The load is under way, and the app has changed the document. */
  lemma EarlyChange(doc: Doc) returns (p: Persistence)
    ensures p == From(Start(false, None, None), [Load, Change(doc)])
    ensures p == Start(false, None, None).(doc := doc, phase := Running(1), storage := Storage(None, None, 1, [Op(1, Get)]))
  {
    var start := Start(false, None, None);
    assert [Load, Change(doc)][..1] == [Load] && [Load][..0] == [];
    assert From(start, [Load]) == Next(start, Load);
    p := Next(Next(start, Load), Change(doc));
  }

  /** Nor when it goes away before. */
  lemma UnloadedChangeIsLost(doc: Doc)
    requires doc != map[]
    ensures var p := From(Start(false, None, None), [Load, Change(doc), Destroy]);
            !p.loaded && Resolved(p) && p.destroying.value.1 == doc && Restored(p) == map[] && !Lossless(p)
  {
    var early := EarlyChange(doc);
    assert [Load, Change(doc), Destroy][..2] == [Load, Change(doc)];
    assert From(Start(false, None, None), [Load, Change(doc), Destroy]) == Next(early, Destroy);
  }

  // ---------------------------------------------------------------- discard() is final

  /** discard() has resolved: the removal has succeeded. */
  predicate Discarded(p: Persistence)
  {
    p.discarding.Removing? && Settled(p.storage, p.discarding.ticket) && !p.removeFailed
  }

  /** A load that has not finished can still find the older key and adopt it. */
  predicate MayAdopt(p: Persistence)
  {
    && p.storage.legacy.Some?
    && (|| (p.scoped && p.phase.Idle?)
        || (exists o :: o in p.storage.queue && o.request.GetLegacy?)
        || (p.scoped && p.storage.stored.None? && exists o :: o in p.storage.queue && o.request.Get?))
  }

  /** discard() was called while nothing could be adopted any more. */
  predicate Sealed(p: Persistence)
  {
    && p.destroyed && !p.discarding.Kept? && (Discarded(p) ==> p.storage.stored.None?)
    && (p.scoped && p.phase.Idle? ==> p.storage.legacy.None?)
    && (forall o | o in p.storage.queue && o.request.GetLegacy? :: p.storage.legacy.None?)
    && (forall o | o in p.storage.queue && o.request.Get? && p.scoped && p.storage.legacy.Some? ::
          p.storage.stored.Some? && o == p.storage.queue[0])
    && (forall o | o in p.storage.queue && o.request.Adopt? ::
          p.discarding.Removing? ==> o.ticket < p.discarding.ticket && !Settled(p.storage, p.discarding.ticket))
  }

  lemma SealedStarts(p: Persistence)
    requires Ok(p) && !p.destroyed && !MayAdopt(p)
    ensures Sealed(AfterDiscard(p))
  {
    forall o | o in p.storage.queue && o.request.Get? ensures o == p.storage.queue[0] {
      assert p.storage.queue[0] in p.storage.queue;
      assert Settled(p.storage, p.pendingWrite) by { assert p.pendingWrite == 0; }
    }
  }

  lemma SealedStays(p: Persistence, e: Event)
    requires Ok(p) && Sealed(p) && !e.Complete?
    ensures Sealed(Next(p, e))
  {
    Pushed(p.storage, Get);
    Pushed(p.storage, Remove);
  }

  lemma SealedWriteDone(p: Persistence, success: bool, adopts: bool)
    requires Ok(p) && Sealed(p) && p.storage.queue != [] && !OfLoad(p.storage.queue[0].request)
    ensures Sealed(AfterComplete(p, success, adopts))
  {
    Popped(p.storage, p.phase);
    assert p.storage.queue[0] in p.storage.queue;
  }

  /** A step of a load leaves the queue; what remains is no load step. */
  lemma SealedGone(p: Persistence, success: bool)
    requires Ok(p) && Sealed(p) && p.storage.queue != [] && OfLoad(p.storage.queue[0].request)
    ensures var now := Gone(p, success);
            && now.destroyed && !now.discarding.Kept? && (Discarded(now) ==> now.storage.stored.None?)
            && now.phase.Running? && (forall o | o in now.storage.queue :: !OfLoad(o.request))
  {
    Popped(p.storage, p.phase);
    assert p.storage.queue[0] in p.storage.queue;
  }

  lemma SealedMoving(p: Persistence, move: Move)
    requires p.destroyed && !p.discarding.Kept? && (Discarded(p) ==> p.storage.stored.None?) && p.phase.Running?
    requires forall o | o in p.storage.queue :: !OfLoad(o.request)
    requires move.Step? ==> OfLoad(move.request) && !move.request.Get? && !move.request.Adopt?
                            && (move.request.GetLegacy? ==> p.storage.legacy.None?)
    ensures Sealed(Moving(p, move))
  {
    if move.Step? { Pushed(p.storage, move.request); }
  }

  lemma SealedMove(p: Persistence, adopts: bool)
    requires Ok(p) && Sealed(p) && p.storage.queue != [] && OfLoad(p.storage.queue[0].request)
    ensures var now := Gone(p, true);
            var move := NextMove(now.storage, p.scoped, p.storage.queue[0].request, adopts);
            move.Step? ==> OfLoad(move.request) && !move.request.Get? && !move.request.Adopt?
                           && (move.request.GetLegacy? ==> now.storage.legacy.None?)
  {
    assert p.storage.queue[0] in p.storage.queue;
  }

  lemma SealedLoadStep(p: Persistence, success: bool, adopts: bool)
    requires Ok(p) && Sealed(p) && p.storage.queue != [] && OfLoad(p.storage.queue[0].request)
    ensures Sealed(AfterComplete(p, success, adopts))
  {
    var now := Gone(p, success);
    SealedGone(p, success);
    if success {
      SealedMove(p, adopts);
      SealedMoving(now, NextMove(now.storage, p.scoped, p.storage.queue[0].request, adopts));
    }
  }

  lemma {:induction false} SealedForGood(p: Persistence, es: seq<Event>)
    requires Ok(p) && Sealed(p)
    ensures Sealed(From(p, es))
  {
    if es != [] {
      SealedForGood(p, es[..|es| - 1]);
      RunIsOk(p, es[..|es| - 1]);
      var q, e := From(p, es[..|es| - 1]), es[|es| - 1];
      if !e.Complete? {
        SealedStays(q, e);
      } else if q.storage.queue != [] {
        if OfLoad(q.storage.queue[0].request) { SealedLoadStep(q, e.success, e.adopts); }
        else { SealedWriteDone(q, e.success, e.adopts); }
      }
    }
  }

  lemma {:induction false} FromCons(p: Persistence, e: Event, es: seq<Event>)
    ensures From(p, [e] + es) == From(Next(p, e), es)
    decreases |es|
  {
    if es == [] {
      assert [e] + es == [e] && [e][..0] == [];
      assert From(p, []) == p && From(p, [e]) == Next(p, e);
    } else {
      FromCons(p, e, es[..|es| - 1]);
      assert ([e] + es)[..|es|] == [e] + es[..|es| - 1];
    }
  }

  lemma Alone(p: Persistence, o: Op)
    requires Ok(p) && !p.loaded && !p.destroyed && o in p.storage.queue
    ensures p.storage.queue == [o] && OfLoad(o.request)
  {
    var q := p.storage.queue;
    assert p.pendingWrite == 0 && Settled(p.storage, 0);
    forall i | 0 <= i < |q| ensures OfLoad(q[i].request) && q[i].ticket == o.ticket {
      assert q[i] in q;
    }
    assert q[0].ticket == q[|q| - 1].ticket;
  }

  /** Some run ends with discard() resolved and a document under the key all the same. */
  ghost predicate Revives(p: Persistence)
  {
    exists es :: Discarded(From(p, es)) && From(p, es).storage.stored.Some?
  }

  lemma RevivesLater(p: Persistence, e: Event)
    requires Revives(Next(p, e))
    ensures Revives(p)
  {
    var es :| Discarded(From(Next(p, e), es)) && From(Next(p, e), es).storage.stored.Some?;
    FromCons(p, e, es);
  }

  lemma RevivesNow(p: Persistence)
    requires Discarded(p) && p.storage.stored.Some?
    ensures Revives(p)
  {
    assert From(p, []) == p;
  }

  lemma AdoptRevives(p: Persistence)
    requires Discarded(p) && |p.storage.queue| == 1 && p.storage.queue[0].request.Adopt?
    requires p.discarding.ticket <= p.storage.started
    ensures Revives(p)
  {
    var next := Next(p, Complete(true, true));
    Pushed(Gone(p, true).storage, RemoveLegacy(Some(p.storage.queue[0].request.doc)));
    RevivesNow(next);
    RevivesLater(p, Complete(true, true));
  }

  lemma GetLegacyRevives(p: Persistence)
    requires Discarded(p) && |p.storage.queue| == 1 && p.storage.queue[0].request.GetLegacy? && p.storage.legacy.Some?
    requires p.discarding.ticket <= p.storage.started
    ensures Revives(p)
  {
    AdoptRevives(Next(p, Complete(true, true)));
    RevivesLater(p, Complete(true, true));
  }

  lemma GetRevives(p: Persistence)
    requires Discarded(p) && |p.storage.queue| == 1 && p.storage.queue[0].request.Get? && p.storage.legacy.Some?
    requires p.discarding.ticket <= p.storage.started && p.scoped && p.storage.stored.None?
    ensures Revives(p)
  {
    GetLegacyRevives(Next(p, Complete(true, true)));
    RevivesLater(p, Complete(true, true));
  }

  /** The removal is at the head of the queue, a step of the load behind it. */
  lemma RemoveThenRevives(p: Persistence)
    requires |p.storage.queue| == 2 && p.storage.queue[0].request.Remove? && !p.removeFailed
    requires p.discarding == Removing(p.storage.queue[0].ticket)
    requires p.storage.queue[0].ticket < p.storage.queue[1].ticket <= p.storage.started
    requires p.storage.queue[1].request.Adopt? || (p.storage.queue[1].request.GetLegacy? && p.storage.legacy.Some?)
    ensures Revives(p)
  {
    var next := Next(p, Complete(true, true));
    assert next.storage.queue == [p.storage.queue[1]];
    if p.storage.queue[1].request.Adopt? { AdoptRevives(next); } else { GetLegacyRevives(next); }
    RevivesLater(p, Complete(true, true));
  }

  lemma LoadingRevives(p: Persistence, o: Op)
    requires Ok(p) && !p.destroyed && o in p.storage.queue && p.storage.legacy.Some?
    requires o.request.GetLegacy? || (o.request.Get? && p.scoped && p.storage.stored.None?)
    ensures Revives(AfterDiscard(p))
  {
    Alone(p, o);
    var a := AfterDiscard(p);
    var b := Next(a, Resume);
    assert Settled(p.storage, 0) && p.pendingWrite == 0;
    assert b.storage.queue == [o, Op(p.storage.started + 1, Remove)];
    var c := Next(b, Complete(true, true));
    assert c.storage.queue[0] == Op(p.storage.started + 1, Remove);
    RemoveThenRevives(c);
    RevivesLater(b, Complete(true, true));
    RevivesLater(a, Resume);
  }

  lemma IdleRevives(p: Persistence)
    requires Ok(p) && !p.destroyed && p.storage.legacy.Some? && p.scoped && p.phase.Idle?
    ensures Revives(AfterDiscard(p))
  {
    if p.storage.queue != [] { Alone(p, p.storage.queue[0]); }
    var a := AfterDiscard(p);
    var b := Next(a, Resume);
    assert b.storage.queue == [Op(p.storage.started + 1, Remove)];
    var c := Next(b, Complete(true, true));
    assert c.storage.queue == [];
    GetRevives(Next(c, Load));
    RevivesLater(c, Load);
    RevivesLater(b, Complete(true, true));
    RevivesLater(a, Resume);
  }

  /** A document can be under the key after discard() has resolved exactly when an unfinished load may still adopt one. */
  lemma DiscardIsFinalExactlyWhen(p: Persistence)
    requires Ok(p) && !p.destroyed
    ensures Revives(AfterDiscard(p)) <==> MayAdopt(p)
  {
    if !MayAdopt(p) {
      SealedStarts(p);
      forall es ensures Discarded(From(AfterDiscard(p), es)) ==> From(AfterDiscard(p), es).storage.stored.None? {
        SealedForGood(AfterDiscard(p), es);
      }
    } else if p.scoped && p.phase.Idle? {
      IdleRevives(p);
    } else {
      var o :| o in p.storage.queue && (o.request.GetLegacy? || (o.request.Get? && p.scoped && p.storage.stored.None?));
      LoadingRevives(p, o);
    }
  }

  /** So it is final for an app that calls it once the load has finished. */
  lemma DiscardIsFinal(scoped: bool, stored: Option<Doc>, legacy: Option<Doc>, es: seq<Event>, later: seq<Event>)
    requires var p := From(Start(scoped, stored, legacy), es); p.loaded && !p.destroyed
    ensures var q := From(AfterDiscard(From(Start(scoped, stored, legacy), es)), later);
            Discarded(q) ==> q.storage.stored.None?
  {
    var p := From(Start(scoped, stored, legacy), es);
    RunIsOk(Start(scoped, stored, legacy), es);
    DiscardIsFinalExactlyWhen(p);
  }

  // ---------------------------------------------------------------- what a load brings

  lemma FromSnoc(p: Persistence, es: seq<Event>, e: Event)
    ensures From(p, es + [e]) == Next(From(p, es), e)
  {
    assert (es + [e])[..|es|] == es;
  }

  /** n operations settle, one after the other, each with success. */
  function Settling(n: nat, adopts: bool): seq<Event> { seq(n, _ => Complete(true, adopts)) }

  lemma SettleOne(p: Persistence, n: nat, adopts: bool)
    ensures From(p, [Load] + Settling(n + 1, adopts)) == Next(From(p, [Load] + Settling(n, adopts)), Complete(true, adopts))
  {
    assert [Load] + Settling(n + 1, adopts) == ([Load] + Settling(n, adopts)) + [Complete(true, adopts)];
    FromSnoc(p, [Load] + Settling(n, adopts), Complete(true, adopts));
  }

  lemma JoinedNothing(d: Doc)
    ensures Join(map[], d) == d
  {}

  /** What a load has brought once it is done. */
  predicate Brought(p: Persistence, scoped: bool, stored: Option<Doc>, legacy: Option<Doc>, adopts: bool)
  {
    && p.loaded && p.subscribed && p.storage.queue == []
    && p.storage.stored == (if stored.Some? then stored else if scoped && adopts then legacy else None)
    && p.doc == (if p.storage.stored.Some? then p.storage.stored.value else map[])
    && p.storage.legacy == (if stored.Some? || !scoped then legacy else None)
  }

  /** A load that waits for its one operation. */
  predicate Waits(p: Persistence, scoped: bool, stored: Option<Doc>, legacy: Option<Doc>, request: Request)
  {
    && p.doc == map[] && p.scoped == scoped && !p.destroyed && OfLoad(request)
    && p.storage.stored == stored && p.storage.legacy == legacy
    && |p.storage.queue| == 1 && p.storage.queue[0].request == request
  }

  lemma SettledOne(p: Persistence, scoped: bool, stored: Option<Doc>, legacy: Option<Doc>, request: Request, adopts: bool)
    requires Waits(p, scoped, stored, legacy, request)
    ensures var after := Effect(Storage(stored, legacy, 0, []), request);
            var next := Next(p, Complete(true, adopts));
            match NextMove(after, scoped, request, adopts)
            case Step(r) => OfLoad(r) ==> Waits(next, scoped, after.stored, after.legacy, r)
            case Finish(raw) =>
              && next.loaded && next.subscribed && next.storage.queue == [] && next.doc == Hydrated(map[], raw)
              && next.storage.stored == after.stored && next.storage.legacy == after.legacy
  {
    var after := Effect(Storage(stored, legacy, 0, []), request);
    GoneOne(p, scoped, stored, legacy, request);
    MovingOne(Gone(p, true), NextMove(after, scoped, request, adopts));
    SameMove(Gone(p, true).storage, after, scoped, request, adopts);
    NextIsMoving(p, adopts);
  }

  lemma NextIsMoving(p: Persistence, adopts: bool)
    requires p.storage.queue != [] && OfLoad(p.storage.queue[0].request)
    ensures var q := Gone(p, true);
            Next(p, Complete(true, adopts)) == Moving(q, NextMove(q.storage, q.scoped, p.storage.queue[0].request, adopts))
  {}

  lemma GoneOne(p: Persistence, scoped: bool, stored: Option<Doc>, legacy: Option<Doc>, request: Request)
    requires Waits(p, scoped, stored, legacy, request)
    ensures var q := Gone(p, true);
            var after := Effect(Storage(stored, legacy, 0, []), request);
            && q.storage.queue == [] && q.storage.stored == after.stored && q.storage.legacy == after.legacy
            && q.doc == map[] && q.scoped == scoped && !q.destroyed
  {
    assert p.storage.queue[1..] == [];
  }

  lemma MovingOne(q: Persistence, move: Move)
    requires q.storage.queue == [] && !q.destroyed && q.doc == map[]
    ensures var next := Moving(q, move);
            && next.storage.stored == q.storage.stored && next.storage.legacy == q.storage.legacy
            && match move
               case Step(r) => OfLoad(r) ==> Waits(next, q.scoped, q.storage.stored, q.storage.legacy, r)
               case Finish(raw) => next.loaded && next.subscribed && next.storage.queue == [] && next.doc == Hydrated(map[], raw)
  {}

  lemma SameMove(a: Storage, b: Storage, scoped: bool, done: Request, adopts: bool)
    requires OfLoad(done) && a.stored == b.stored && a.legacy == b.legacy
    ensures NextMove(a, scoped, done, adopts) == NextMove(b, scoped, done, adopts)
  {}

  lemma DrainedStays(p: Persistence, adopts: bool)
    requires p.storage.queue == []
    ensures Next(p, Complete(true, adopts)) == p
  {}

  lemma KeyedLoadBrings(scoped: bool, stored: Option<Doc>, legacy: Option<Doc>, adopts: bool)
    requires stored.Some? || !scoped
    ensures Brought(Next(Next(Start(scoped, stored, legacy), Load), Complete(true, adopts)), scoped, stored, legacy, adopts)
  {
    SettledOne(Next(Start(scoped, stored, legacy), Load), scoped, stored, legacy, Get, adopts);
    if stored.Some? { JoinedNothing(stored.value); }
  }

  /** The steps of a migration, from the answer for the older key on. */
  lemma LegacyLoadBrings(p: Persistence, legacy: Option<Doc>, adopts: bool)
    requires Waits(p, true, None, legacy, GetLegacy)
    ensures var q := Next(p, Complete(true, adopts));
            var r := Next(q, Complete(true, adopts));
            Brought(Next(r, Complete(true, adopts)), true, None, legacy, adopts)
  {
    var q := Next(p, Complete(true, adopts));
    var r := Next(q, Complete(true, adopts));
    SettledOne(p, true, None, legacy, GetLegacy, adopts);
    if legacy.None? {
      DrainedStays(q, adopts);
      DrainedStays(r, adopts);
    } else if adopts {
      SettledOne(q, true, None, legacy, Adopt(legacy.value), adopts);
      SettledOne(r, true, legacy, legacy, RemoveLegacy(legacy), adopts);
      JoinedNothing(legacy.value);
    } else {
      SettledOne(q, true, None, legacy, RemoveLegacy(None), adopts);
      DrainedStays(r, adopts);
    }
  }

  /**
   A load that nothing disturbs brings what is stored; if nothing is, and the key has an account in it, the older
   key's document if the policy adopts it, which is then stored under the key; and that older key is gone for good,
   adopted or not.
   */
  lemma LoadBrings(scoped: bool, stored: Option<Doc>, legacy: Option<Doc>, adopts: bool)
    ensures var p := From(Start(scoped, stored, legacy), [Load] + Settling(4, adopts));
            && p.loaded && p.subscribed && p.storage.queue == []
            && p.storage.stored == (if stored.Some? then stored else if scoped && adopts then legacy else None)
            && p.doc == (if p.storage.stored.Some? then p.storage.stored.value else map[])
            && p.storage.legacy == (if stored.Some? || !scoped then legacy else None)
  {
    var start := Start(scoped, stored, legacy);
    var p0 := From(start, [Load] + Settling(0, adopts));
    assert p0 == Next(start, Load) by {
      FromSnoc(start, [], Load);
      assert [] + [Load] == [Load] && [Load] + Settling(0, adopts) == [Load];
    }
    var p1 := FromSettled(start, 0, adopts, p0);
    var p2 := FromSettled(start, 1, adopts, p1);
    var p3 := FromSettled(start, 2, adopts, p2);
    var p4 := FromSettled(start, 3, adopts, p3);
    if stored.Some? || !scoped {
      KeyedLoadBrings(scoped, stored, legacy, adopts);
      DrainedStays(p1, adopts);
    } else {
      SettledOne(p0, true, None, legacy, Get, adopts);
      LegacyLoadBrings(p1, legacy, adopts);
    }
  }

  lemma FromSettled(start: Persistence, n: nat, adopts: bool, p: Persistence) returns (q: Persistence)
    requires p == From(start, [Load] + Settling(n, adopts))
    ensures q == Next(p, Complete(true, adopts)) && q == From(start, [Load] + Settling(n + 1, adopts))
  {
    SettleOne(start, n, adopts);
    q := Next(p, Complete(true, adopts));
  }

  // ---------------------------------------------------------------- the debounce

  predicate Ended(es: seq<Event>) { exists e | e in es :: e.Destroy? || e.Discard? }

  /** A change has come while the object listens, and the timer has not fired since. */
  predicate Unwritten(p: Persistence, es: seq<Event>)
  {
    if es == [] then false
    else
      var front := es[..|es| - 1];
      match es[|es| - 1]
      case Change(_) => Unwritten(p, front) || (From(p, front).loaded && !Ended(front))
      case TimerFires => false
      case Destroy => false
      case Discard => false
      case _ => Unwritten(p, front)
  }

  lemma UnwrittenSnoc(p: Persistence, es: seq<Event>, e: Event)
    ensures Unwritten(p, es + [e]) == match e
              case Change(_) => Unwritten(p, es) || (From(p, es).loaded && !Ended(es))
              case TimerFires => false
              case Destroy => false
              case Discard => false
              case _ => Unwritten(p, es)
    ensures Ended(es + [e]) <==> Ended(es) || e.Destroy? || e.Discard?
  {
    assert (es + [e])[..|es|] == es && e in es + [e];
    if Ended(es) {
      var d :| d in es && (d.Destroy? || d.Discard?);
      assert d in es + [e];
    }
  }

  lemma {:induction false} TimerRunsExactlyWhen(scoped: bool, stored: Option<Doc>, legacy: Option<Doc>, es: seq<Event>)
    ensures var start := Start(scoped, stored, legacy);
            && From(start, es).timer == Unwritten(start, es) && From(start, es).destroyed == Ended(es)
  {
    if es != [] {
      var start := Start(scoped, stored, legacy);
      var front, last := es[..|es| - 1], es[|es| - 1];
      TimerRunsExactlyWhen(scoped, stored, legacy, front);
      RunIsOk(start, front);
      FromSnoc(start, front, last);
      UnwrittenSnoc(start, front, last);
      NextTimer(From(start, front), last);
      assert es == front + [last];
    }
  }

  lemma NextTimer(p: Persistence, e: Event)
    requires FlagsOk(p)
    ensures Next(p, e).timer == match e
              case Change(_) => p.timer || (p.loaded && !p.destroyed)
              case TimerFires => false
              case Destroy => false
              case Discard => false
              case _ => p.timer
    ensures Next(p, e).destroyed <==> p.destroyed || e.Destroy? || e.Discard?
  {
    if e.Complete? && p.storage.queue != [] { CompleteKeepsTimer(p, e.success, e.adopts); }
  }

  lemma CompleteKeepsTimer(p: Persistence, success: bool, adopts: bool)
    requires p.storage.queue != []
    ensures AfterComplete(p, success, adopts).timer == p.timer && AfterComplete(p, success, adopts).destroyed == p.destroyed
  {
    ContinueKeepsTimer(Gone(p, success), p.storage.queue[0], success, adopts);
  }

  lemma ContinueKeepsTimer(p: Persistence, o: Op, success: bool, adopts: bool)
    ensures Continue(p, o, success, adopts).timer == p.timer && Continue(p, o, success, adopts).destroyed == p.destroyed
  {
    if OfLoad(o.request) && success { MovingKeepsTimer(p, NextMove(p.storage, p.scoped, o.request, adopts)); }
  }

  lemma MovingKeepsTimer(p: Persistence, move: Move)
    ensures Moving(p, move).timer == p.timer && Moving(p, move).destroyed == p.destroyed
  {}

  /** A burst of changes is one write, of the document as it is when the timer fires. */
  lemma BurstIsWrittenOnce(scoped: bool, stored: Option<Doc>, legacy: Option<Doc>, es: seq<Event>)
    ensures var start := Start(scoped, stored, legacy);
            var p, after := From(start, es), From(start, es + [TimerFires]);
            if Unwritten(start, es)
            then after.storage == p.storage.(started := p.storage.started + 1,
                                             queue := p.storage.queue + [Op(p.storage.started + 1, Write(p.doc))])
                 && !after.timer && after.doc == p.doc
            else after == p
  {
    TimerRunsExactlyWhen(scoped, stored, legacy, es);
    RunIsOk(Start(scoped, stored, legacy), es);
    FromSnoc(Start(scoped, stored, legacy), es, TimerFires);
  }
}
