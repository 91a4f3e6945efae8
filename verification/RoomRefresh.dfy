/**
 How the client decides whether a room is encrypted: apps/mobile/src/crypto/roomRefresher.ts,
 roomE2eeState.ts and apps/mobile/src/store/rooms.store.ts, for one room other than the lobby.

 Asynchronous work is split at its awaits: a refresh reads the persisted flag, then asks for the
 rooms list, then continues with the reply.  Refreshes of other rooms and the rooms screen appear as
 list requests of their own.
 */
module RoomRefresh {
  import opened Common
  import Backoff

  datatype Socket = NoSocket | Connected | Connecting | Disconnected

  /** A settled GET /rooms: the list (with this room's epoch, if listed), an HTTP error, or no response. */
  datatype Reply = List(keyId: Option<nat>) | HttpError | NetworkError

  datatype Report = Pending | Ok(keyId: nat) | Offline | Error

  datatype E2eeState = Plaintext | E2ee | Unknown

  datatype Phase = ReadingFlag | Fetching(seq_: nat) | Replied(reply: Reply)

  datatype Task = Task(visit: nat, phase: Phase)

  datatype Timer = Timer(visit: nat, ms: nat)

  datatype Entry = Entry(inFlight: Option<nat>, retryTimer: Option<nat>, failures: nat)

  /** A visit's classified reply, with the socket as it was then. */
  datatype Outcome = Outcome(reply: Reply, socket: Socket)

  datatype Device = Device(
    current: Option<nat>,                  // the visit whose entry is in the map
    entries: map<nat, Entry>,              // every entry ever made, by visit
    tasks: map<nat, Task>,                 // running refreshes
    timers: map<nat, Timer>,               // live timers
    nextId: nat,
    cached: Option<nat>, report: Option<Report>, everE2ee: bool,    // the store, for this room
    started: nat, applied: nat,                                     // createLatestWins
    screens: set<nat>,                                              // list requests of the rooms screen
    socket: Socket,
    outcomes: map<nat, seq<Outcome>>)      // what each visit's refreshes came to

  datatype Event =
    | Refresh
    | Stop
    | FlagRead(task: nat, flag: bool, loggedIn: bool)
    | Settled(request: nat, reply: Reply)
    | Continue(task: nat)
    | Fire(timer: nat)
    | Frame(keyId: nat)
    | OpenScreen
    | Joined(keyId: nat)
    | SocketChange(socket: Socket)

  function Resolve(cachedKeyId: nat, report: Option<Report>, everE2ee: bool): E2eeState
  {
    if cachedKeyId > 0 || everE2ee then E2ee
    else if report.None? || report.value.Pending? then Unknown
    else if report.value.Ok? then (if report.value.keyId > 0 then E2ee else Plaintext)
    else if report.value.Offline? then Plaintext
    else Unknown
  }

  function StateOf(d: Device): E2eeState
  {
    Resolve(if d.cached.Some? then d.cached.value else 0, d.report, d.everE2ee)
  }

  function Classify(reply: Reply, socket: Socket): Report
  {
    match reply
    case List(keyId) => if keyId.Some? then Ok(keyId.value) else Error
    case NetworkError => if socket.Disconnected? then Offline else Error
    case HttpError => Error
  }

  // ---------------------------------------------------------------- steps

  function Refreshed(d: Device): Device
  {
    var v := if d.current.Some? then d.current.value else d.nextId;
    var d1 := if d.current.Some? then d
              else d.(current := Some(v), entries := d.entries[v := Entry(None, None, 0)],
                      outcomes := d.outcomes[v := []], nextId := d.nextId + 1);
    if v !in d1.entries || d1.entries[v].inFlight.Some? then d1
    else
      var e := d1.entries[v];
      var timers := if e.retryTimer.Some? then d1.timers - {e.retryTimer.value} else d1.timers;
      var task := d1.nextId;
      d1.(timers := timers, report := Some(Pending), nextId := task + 1,
          tasks := d1.tasks[task := Task(v, ReadingFlag)],
          entries := d1.entries[v := e.(inFlight := Some(task), retryTimer := None)])
  }

  function Stopped(d: Device): Device
  {
    var timers := if d.current.Some? && d.current.value in d.entries && d.entries[d.current.value].retryTimer.Some?
                  then d.timers - {d.entries[d.current.value].retryTimer.value} else d.timers;
    d.(timers := timers, current := None, report := None)
  }

  /** A settled list request: applied unless a newer one was, and remembered if it shows the room as E2EE. */
  function Applied(d: Device, request: nat, reply: Reply): Device
  {
    if reply.List? && request > d.applied
    then d.(applied := request, cached := reply.keyId,
            everE2ee := d.everE2ee || (reply.keyId.Some? && reply.keyId.value > 0))
    else d
  }

  function AfterReply(d: Device, request: nat, reply: Reply): Device
  {
    var d1 := Applied(d, request, reply);
    if request in d.screens then d1.(screens := d1.screens - {request})
    else d1.(tasks := map t | t in d1.tasks :: if d1.tasks[t].phase == Fetching(request)
                                               then Task(d1.tasks[t].visit, Replied(reply)) else d1.tasks[t])
  }

  predicate InFlightRequest(d: Device, request: nat)
  {
    request in d.screens || exists t :: t in d.tasks && d.tasks[t].phase == Fetching(request)
  }

  /** The rest of a refresh once its reply is in. */
  function Continued(d: Device, task: nat): Device
    requires task in d.tasks && d.tasks[task].phase.Replied?
  {
    var v, reply := d.tasks[task].visit, d.tasks[task].phase.reply;
    var d1 := d.(tasks := d.tasks - {task});
    if v !in d.entries then d1
    else
      var e := d.entries[v].(inFlight := None);
      var d2 := d1.(entries := d1.entries[v := e]);
      if d.current != Some(v) then d2 else Reported(d2, v, e, reply)
  }

  /** The current visit's result: reported, and tried again if it failed. */
  function Reported(d: Device, v: nat, e: Entry, reply: Reply): Device
  {
    var report := Classify(reply, d.socket);
    var earlier := if v in d.outcomes then d.outcomes[v] else [];
    var d1 := d.(report := Some(report), outcomes := d.outcomes[v := earlier + [Outcome(reply, d.socket)]]);
    if report.Ok? then d1.(entries := d1.entries[v := e.(failures := 0)]) else RetryLater(d1, v, e)
  }

  /** A failed refresh: one more failure, and a timer for the next try. */
  function RetryLater(d: Device, v: nat, e: Entry): Device
  {
    d.(timers := d.timers[d.nextId := Timer(v, Backoff.Delay(e.failures))], nextId := d.nextId + 1,
       entries := d.entries[v := e.(failures := e.failures + 1, retryTimer := Some(d.nextId))])
  }

  function Fired(d: Device, timer: nat): Device
    requires timer in d.timers
  {
    var v := d.timers[timer].visit;
    var d1 := d.(timers := d.timers - {timer});
    if v !in d.entries then d1
    else
      var d2 := d1.(entries := d1.entries[v := d1.entries[v].(retryTimer := None)]);
      if d.current == Some(v) then Refreshed(d2) else d2
  }

  /** The server's epoch frame: bumps the cached summary, settles the refresh, sticks. */
  function Noted(d: Device, keyId: nat): Device
  {
    if keyId == 0 then d
    else
      var known := if d.report.Some? && d.report.value.Ok? then d.report.value.keyId else 0;
      d.(cached := if d.cached.Some? then Some(Max(d.cached.value, keyId)) else None,
         report := Some(Ok(Max(known, keyId))), everE2ee := true)
  }

  function FlagKnown(d: Device, t: nat, flag: bool, loggedIn: bool): Device
    requires t in d.tasks
  {
    var d1 := d.(everE2ee := d.everE2ee || flag);
    if !loggedIn then d1.(tasks := d1.tasks[t := Task(d1.tasks[t].visit, Replied(HttpError))])
    else d1.(started := d1.started + 1, tasks := d1.tasks[t := Task(d1.tasks[t].visit, Fetching(d1.started + 1))])
  }

  /** The events that leave entries and timers alone. */
  function StoreStep(d: Device, e: Event): Device
  {
    match e
    case FlagRead(t, flag, loggedIn) =>
      if t in d.tasks && d.tasks[t].phase.ReadingFlag? then FlagKnown(d, t, flag, loggedIn) else d
    case Settled(request, reply) => if InFlightRequest(d, request) then AfterReply(d, request, reply) else d
    case Frame(keyId) => Noted(d, keyId)
    case OpenScreen => d.(started := d.started + 1, screens := d.screens + {d.started + 1})
    case Joined(keyId) => if d.cached.Some? then d else d.(cached := Some(keyId))
    case SocketChange(s) => d.(socket := s)
    case _ => d
  }

  function Next(d: Device, e: Event): Device
  {
    match e
    case Refresh => Refreshed(d)
    case Stop => Stopped(d)
    case Continue(t) => if t in d.tasks && d.tasks[t].phase.Replied? then Continued(d, t) else d
    case Fire(t) => if t in d.timers then Fired(d, t) else d
    case _ => StoreStep(d, e)
  }

  function Start(): Device
  {
    Device(None, map[], map[], map[], 0, None, None, false, 0, 0, {}, NoSocket, map[])
  }

  function Run(d: Device, es: seq<Event>): Device
  {
    if es == [] then d else Next(Run(d, es[..|es| - 1]), es[|es| - 1])
  }

  // ---------------------------------------------------------------- one fetch, one timer, exact delays

  function TrailingFailures(outs: seq<Outcome>): nat
  {
    if outs == [] || (outs[|outs| - 1].reply.List? && outs[|outs| - 1].reply.keyId.Some?) then 0
    else 1 + TrailingFailures(outs[..|outs| - 1])
  }

  /** The entries, tasks and timers fit together. */
  predicate EntryOk(d: Device, v: nat)
    requires v in d.entries
  {
    var e := d.entries[v];
    && v < d.nextId
    && v in d.outcomes && e.failures == TrailingFailures(d.outcomes[v])
    && (e.inFlight.Some? ==> e.inFlight.value in d.tasks && d.tasks[e.inFlight.value].visit == v)
  }

  predicate TaskOk(d: Device, t: nat)
    requires t in d.tasks
  {
    var v := d.tasks[t].visit;
    t < d.nextId && v in d.entries && d.entries[v].inFlight == Some(t)
  }

  predicate TimerOk(d: Device, t: nat)
    requires t in d.timers
  {
    var v := d.timers[t].visit;
    && t < d.nextId && d.current == Some(v) && v in d.entries
    && d.entries[v].retryTimer == Some(t) && d.entries[v].inFlight.None?
    && d.entries[v].failures > 0 && d.timers[t].ms == Backoff.Delay(d.entries[v].failures - 1)
  }

  predicate Consistent(d: Device)
  {
    && (d.current.Some? ==> d.current.value in d.entries)
    && (forall v | v in d.entries :: EntryOk(d, v))
    && (forall t | t in d.tasks :: TaskOk(d, t))
    && (forall t | t in d.timers :: TimerOk(d, t))
  }

  lemma RefreshedIsConsistent(d: Device)
    requires Consistent(d)
    ensures Consistent(Refreshed(d))
  {
    var after := Refreshed(d);
    RefreshedEntries(d);
    forall t | t in after.tasks ensures TaskOk(after, t) {
      assert t in d.tasks ==> TaskOk(d, t);
    }
    forall t | t in after.timers ensures TimerOk(after, t) {
      assert TimerOk(d, t);
    }
  }

  lemma RefreshedEntries(d: Device)
    requires Consistent(d)
    ensures var after := Refreshed(d); forall v | v in after.entries :: EntryOk(after, v)
  {
    var after := Refreshed(d);
    forall v | v in after.entries ensures EntryOk(after, v) {
      assert v in d.entries ==> EntryOk(d, v);
    }
  }

  lemma StoppedIsConsistent(d: Device)
    requires Consistent(d)
    ensures Consistent(Stopped(d))
  {
    var after := Stopped(d);
    assert forall t | t in d.timers :: TimerOk(d, t);
    assert after.timers == map[];
    forall v | v in after.entries ensures EntryOk(after, v) {
      assert EntryOk(d, v);
    }
    forall t | t in after.tasks ensures TaskOk(after, t) {
      assert TaskOk(d, t);
    }
  }

  /** Steps that move tasks on, or only touch the store, keep the fit. */
  predicate SameFrame(d: Device, after: Device)
  {
    && after.current == d.current && after.entries == d.entries && after.outcomes == d.outcomes
    && after.timers == d.timers && after.nextId == d.nextId
    && after.tasks.Keys == d.tasks.Keys && forall t | t in d.tasks :: after.tasks[t].visit == d.tasks[t].visit
  }

  lemma SameFrameIsConsistent(d: Device, after: Device)
    requires Consistent(d) && SameFrame(d, after)
    ensures Consistent(after)
  {
    forall v | v in after.entries ensures EntryOk(after, v) {
      assert EntryOk(d, v);
    }
    forall t | t in after.tasks ensures TaskOk(after, t) {
      assert TaskOk(d, t);
    }
    forall t | t in after.timers ensures TimerOk(after, t) {
      assert TimerOk(d, t);
    }
  }

  lemma OneMoreOutcome(outs: seq<Outcome>, o: Outcome)
    ensures TrailingFailures(outs + [o]) == if Classify(o.reply, o.socket).Ok? then 0 else 1 + TrailingFailures(outs)
  {
    assert (outs + [o])[..|outs|] == outs;
  }

  lemma OtherEntry(d: Device, task: nat, u: nat)
    requires Consistent(d) && task in d.tasks && d.tasks[task].phase.Replied?
    requires u in d.entries && u != d.tasks[task].visit
    ensures u in Continued(d, task).entries && EntryOk(Continued(d, task), u)
  {
    var after := Continued(d, task);
    assert EntryOk(d, u);
    assert after.entries[u] == d.entries[u] && u in after.outcomes && after.outcomes[u] == d.outcomes[u];
    assert after.tasks == d.tasks - {task};
  }

  lemma OwnEntry(d: Device, task: nat)
    requires Consistent(d) && task in d.tasks && d.tasks[task].phase.Replied?
    ensures d.tasks[task].visit in Continued(d, task).entries && EntryOk(Continued(d, task), d.tasks[task].visit)
  {
    var v := d.tasks[task].visit;
    assert TaskOk(d, task) && EntryOk(d, v);
    OneMoreOutcome(d.outcomes[v], Outcome(d.tasks[task].phase.reply, d.socket));
  }

  lemma ContinuedIsConsistent(d: Device, task: nat)
    requires Consistent(d) && task in d.tasks && d.tasks[task].phase.Replied?
    ensures Consistent(Continued(d, task))
  {
    var v := d.tasks[task].visit;
    var after := Continued(d, task);
    assert TaskOk(d, task) && EntryOk(d, v);
    forall u | u in after.entries ensures EntryOk(after, u) {
      if u == v { OwnEntry(d, task); } else { OtherEntry(d, task, u); }
    }
    forall t | t in after.tasks ensures TaskOk(after, t) {
      assert TaskOk(d, t);
    }
    forall t | t in after.timers ensures TimerOk(after, t) {
      assert t in d.timers ==> TimerOk(d, t);
    }
  }

  lemma FiredIsConsistent(d: Device, timer: nat)
    requires Consistent(d) && timer in d.timers
    ensures Consistent(Fired(d, timer))
  {
    var v := d.timers[timer].visit;
    assert forall t | t in d.timers :: TimerOk(d, t);
    var d2 := d.(timers := d.timers - {timer}, entries := d.entries[v := d.entries[v].(retryTimer := None)]);
    forall u | u in d2.entries ensures EntryOk(d2, u) {
      assert EntryOk(d, u);
    }
    forall t | t in d2.tasks ensures TaskOk(d2, t) {
      assert TaskOk(d, t);
    }
    assert d2.timers == map[];
    RefreshedIsConsistent(d2);
  }

  lemma ReplyKeepsFrame(d: Device, request: nat, reply: Reply)
    ensures SameFrame(d, AfterReply(d, request, reply))
  {
    var d1 := Applied(d, request, reply);
    assert SameFrame(d, d1);
    assert AfterReply(d, request, reply).tasks.Keys == d1.tasks.Keys;
  }

  lemma FlagKeepsFrame(d: Device, t: nat, flag: bool, loggedIn: bool)
    requires t in d.tasks
    ensures SameFrame(d, FlagKnown(d, t, flag, loggedIn))
  {
  }

  lemma StoreStepsKeepFrame(d: Device, e: Event)
    ensures SameFrame(d, StoreStep(d, e))
  {
    match e
    case FlagRead(t, flag, loggedIn) => if t in d.tasks { FlagKeepsFrame(d, t, flag, loggedIn); }
    case Settled(request, reply) => ReplyKeepsFrame(d, request, reply);
    case _ =>
  }

  lemma NextIsConsistent(d: Device, e: Event)
    requires Consistent(d)
    ensures Consistent(Next(d, e))
  {
    match e {
      case Refresh => RefreshedIsConsistent(d);
      case Stop => StoppedIsConsistent(d);
      case Continue(t) =>
        if t in d.tasks && d.tasks[t].phase.Replied? {
          ContinuedIsConsistent(d, t);
        }
      case Fire(t) =>
        if t in d.timers {
          FiredIsConsistent(d, t);
        }
      case _ =>
        StoreStepsKeepFrame(d, e);
        SameFrameIsConsistent(d, Next(d, e));
    }
  }

  lemma {:induction false} RunIsConsistentFrom(d: Device, es: seq<Event>)
    requires Consistent(d)
    ensures Consistent(Run(d, es))
  {
    if es != [] {
      RunIsConsistentFrom(d, es[..|es| - 1]);
      NextIsConsistent(Run(d, es[..|es| - 1]), es[|es| - 1]);
    }
  }

  lemma RunIsConsistent(es: seq<Event>)
    ensures Consistent(Run(Start(), es))
  {
    RunIsConsistentFrom(Start(), es);
  }

  /**
   In every reachable state a visit has at most one refresh running, there is at most one timer, it
   belongs to the current visit, and that visit has no refresh running.
   */
  lemma OneFetchOneTimer(es: seq<Event>, s: nat, t: nat)
    ensures var d := Run(Start(), es);
            && (s in d.tasks && t in d.tasks && d.tasks[s].visit == d.tasks[t].visit ==> s == t)
            && (s in d.timers && t in d.timers ==> s == t)
            && (s in d.tasks && t in d.timers ==> d.tasks[s].visit != d.timers[t].visit)
            && (t in d.timers ==> d.current == Some(d.timers[t].visit))
  {
    RunIsConsistent(es);
    FitMeansOne(Run(Start(), es), s, t);
  }

  lemma FitMeansOne(d: Device, s: nat, t: nat)
    requires Consistent(d)
    ensures s in d.tasks && t in d.tasks && d.tasks[s].visit == d.tasks[t].visit ==> s == t
    ensures s in d.timers && t in d.timers ==> s == t
    ensures s in d.tasks && t in d.timers ==> d.tasks[s].visit != d.timers[t].visit
    ensures t in d.timers ==> d.current == Some(d.timers[t].visit)
  {
    assert s in d.tasks ==> TaskOk(d, s);
    assert t in d.tasks ==> TaskOk(d, t);
    assert s in d.timers ==> TimerOk(d, s);
    assert t in d.timers ==> TimerOk(d, t);
  }

  /**
   A retry waits exactly as long as the visit's failures since its last success ask for: 1 s after the
   first, doubling up to 30 s.
   */
  lemma TimersWaitExactly(es: seq<Event>, t: nat)
    requires t in Run(Start(), es).timers
    ensures var d := Run(Start(), es);
            var v := d.timers[t].visit;
            v in d.outcomes && TrailingFailures(d.outcomes[v]) > 0
            && d.timers[t].ms == Min(1000 * Backoff.Pow2(TrailingFailures(d.outcomes[v]) - 1), 30000)
  {
    RunIsConsistent(es);
    FitMeansExact(Run(Start(), es), t);
    Backoff.DelaySchedule(0, TrailingFailures(Run(Start(), es).outcomes[Run(Start(), es).timers[t].visit]) - 1);
  }

  lemma FitMeansExact(d: Device, t: nat)
    requires Consistent(d) && t in d.timers
    ensures var v := d.timers[t].visit;
            v in d.outcomes && TrailingFailures(d.outcomes[v]) > 0
            && d.timers[t].ms == Backoff.Delay(TrailingFailures(d.outcomes[v]) - 1)
  {
    assert TimerOk(d, t) && EntryOk(d, d.timers[t].visit);
  }

  /** The event is a step of this task. */
  predicate StepOf(d: Device, e: Event, task: nat)
  {
    task in d.tasks
    && (e == Continue(task) || (e.FlagRead? && e.task == task)
        || (e.Settled? && d.tasks[task].phase == Fetching(e.request)))
  }

  /** An older visit, with these outcomes: no event makes it current again, or adds an outcome. */
  predicate Past(d: Device, v: nat, outs: seq<Outcome>)
  {
    d.current != Some(v) && v < d.nextId && v in d.outcomes && d.outcomes[v] == outs
  }

  lemma NextKeepsPast(d: Device, e: Event, v: nat, outs: seq<Outcome>)
    requires Past(d, v, outs)
    ensures Past(Next(d, e), v, outs)
  {
    match e
    case Fire(t) => if t in d.timers { FiringKeepsPast(d, t, v, outs); }
    case Refresh =>
    case Stop =>
    case Continue(t) =>
    case _ => StoreStepsKeepFrame(d, e);
  }

  lemma FiringKeepsPast(d: Device, timer: nat, v: nat, outs: seq<Outcome>)
    requires Past(d, v, outs) && timer in d.timers
    ensures Past(Fired(d, timer), v, outs)
  {}

  lemma {:induction false} RunKeepsPast(d: Device, es: seq<Event>, v: nat, outs: seq<Outcome>)
    requires Past(d, v, outs)
    ensures Past(Run(d, es), v, outs)
  {
    if es != [] {
      RunKeepsPast(d, es[..|es| - 1], v, outs);
      NextKeepsPast(Run(d, es[..|es| - 1]), es[|es| - 1], v, outs);
    }
  }

  /** Nothing that the visit's refresh still does is seen. */
  predicate Unheard(d: Device, e: Event)
  {
    Next(d, e).report == d.report && Next(d, e).timers == d.timers && Next(d, e).outcomes == d.outcomes
  }

  /**
   Once a visit is stopped it is over: whatever follows, re-entering the room included, it is never current
   again, has no timer and no new outcome, and no later step of its refresh reports or schedules anything.
   */
  lemma StoppedVisitsAreSilent(before: seq<Event>, after: seq<Event>, e: Event, task: nat)
    requires Run(Start(), before).current.Some?
    ensures var was := Run(Start(), before);
            var v, d := was.current.value, Run(Next(was, Stop), after);
            && d.current != Some(v) && (forall t | t in d.timers :: d.timers[t].visit != v)
            && v in was.outcomes && v in d.outcomes && d.outcomes[v] == was.outcomes[v]
            && (StepOf(d, e, task) && d.tasks[task].visit == v ==> Unheard(d, e))
  {
    var was := Run(Start(), before);
    var v, stopped := was.current.value, Next(was, Stop);
    RunIsConsistent(before);
    assert EntryOk(was, v);
    NextIsConsistent(was, Stop);
    RunIsConsistentFrom(stopped, after);
    RunKeepsPast(stopped, after, v, was.outcomes[v]);
    var d := Run(stopped, after);
    forall t | t in d.timers ensures d.timers[t].visit != v { assert TimerOk(d, t); }
    if StepOf(d, e, task) && d.tasks[task].visit == v { OldStepsAreUnheard(d, e, task); }
  }

  lemma OldStepsAreUnheard(d: Device, e: Event, task: nat)
    requires StepOf(d, e, task) && d.current != Some(d.tasks[task].visit)
    ensures Unheard(d, e)
  {
    if !e.Continue? {
      StoreStepsKeepFrame(d, e);
      assert Next(d, e) == StoreStep(d, e);
    }
  }

  // ---------------------------------------------------------------- no downgrade

  /** The event shows the room as encrypted: an applied list, an epoch frame, or the persisted flag. */
  predicate Shows(d: Device, e: Event)
  {
    || (e.Settled? && InFlightRequest(d, e.request) && e.reply.List? && e.request > d.applied
          && e.reply.keyId.Some? && e.reply.keyId.value > 0)
    || (e.Frame? && e.keyId > 0)
    || (e.FlagRead? && e.task in d.tasks && d.tasks[e.task].phase.ReadingFlag? && e.flag)
  }

  lemma {:induction false} SeenStays(d: Device, es: seq<Event>)
    requires d.everE2ee
    ensures Run(d, es).everE2ee
  {
    if es != [] {
      SeenStays(d, es[..|es| - 1]);
      SeenNextExactlyWhen(Run(d, es[..|es| - 1]), es[|es| - 1]);
    }
  }

  /**
   Once any of the three has shown the room as encrypted it reads as encrypted for the rest of the
   session, over every interleaving of late replies, stops, re-entries and network failures.
   */
  lemma NoDowngrade(d: Device, e: Event, es: seq<Event>)
    requires Shows(d, e)
    ensures StateOf(Run(Next(d, e), es)) == E2ee
  {
    SeenNextExactlyWhen(d, e);
    SeenStays(Next(d, e), es);
    assert Run(Next(d, e), es).everE2ee;
  }

  /** What the visit's latest outcome allows to be read as plaintext. */
  predicate AllowsPlaintext(o: Outcome)
  {
    o.reply == List(Some(0)) || (o.reply.NetworkError? && o.socket.Disconnected?)
  }

  /** The report of a room never seen as E2EE is the classification of the visit's latest outcome. */
  predicate ReportExplained(d: Device)
  {
    d.report.Some? && !d.report.value.Pending? && !d.everE2ee ==>
      && d.current.Some? && d.current.value in d.outcomes && d.outcomes[d.current.value] != []
      && var outs := d.outcomes[d.current.value];
         d.report.value == Classify(outs[|outs| - 1].reply, outs[|outs| - 1].socket)
  }

  lemma {:induction false} ReportsAreExplained(es: seq<Event>)
    ensures ReportExplained(Run(Start(), es))
  {
    if es != [] {
      ReportsAreExplained(es[..|es| - 1]);
      RunIsConsistent(es[..|es| - 1]);
      NextExplains(Run(Start(), es[..|es| - 1]), es[|es| - 1]);
    }
  }

  lemma RefreshedReports(d: Device)
    requires ReportExplained(d)
    ensures ReportExplained(Refreshed(d))
  {
    if Refreshed(d).report == d.report && d.current.None? && d.report.Some? && !d.report.value.Pending? {
      assert d.everE2ee;
    }
  }

  lemma NextExplains(d: Device, e: Event)
    requires Consistent(d) && ReportExplained(d)
    ensures ReportExplained(Next(d, e))
  {
    match e {
      case Refresh => RefreshedReports(d);
      case Fire(t) =>
        if t in d.timers {
          assert TimerOk(d, t);
          var v := d.timers[t].visit;
          var d2 := d.(timers := d.timers - {t}, entries := d.entries[v := d.entries[v].(retryTimer := None)]);
          RefreshedReports(d2);
        }
      case Continue(t) =>
        if t in d.tasks && d.tasks[t].phase.Replied? {
          assert TaskOk(d, t);
        }
      case _ =>
    }
  }

  /** The device is in a visit whose latest outcome allows plaintext. */
  predicate PlaintextAllowed(d: Device)
  {
    && d.current.Some? && d.current.value in d.outcomes
    && var outs := d.outcomes[d.current.value];
       outs != [] && AllowsPlaintext(outs[|outs| - 1])
  }

  /**
   A room reads as plaintext only in a visit whose latest outcome was the server saying epoch 0, or no
   response at all while the room's socket was down.
   */
  lemma PlaintextIsJustified(es: seq<Event>)
    requires StateOf(Run(Start(), es)) == Plaintext
    ensures PlaintextAllowed(Run(Start(), es))
  {
    ReportsAreExplained(es);
    ExplainedPlaintext(Run(Start(), es));
  }

  lemma ExplainedPlaintext(d: Device)
    requires ReportExplained(d) && StateOf(d) == Plaintext
    ensures PlaintextAllowed(d)
  {
  }

  // ---------------------------------------------------------------- what sticks, exactly

  /** One of the events of the run has shown the room as encrypted. */
  ghost predicate HasShown(es: seq<Event>)
  {
    exists i :: 0 <= i < |es| && Shows(Run(Start(), es[..i]), es[i])
  }

  lemma {:induction false} SeenExactlyWhenShown(es: seq<Event>)
    ensures Run(Start(), es).everE2ee <==> HasShown(es)
  {
    if es != [] {
      var front := es[..|es| - 1];
      SeenExactlyWhenShown(front);
      SeenNextExactlyWhen(Run(Start(), front), es[|es| - 1]);
      forall i | 0 <= i < |front| ensures front[..i] == es[..i] {}
      if HasShown(front) {
        var i :| 0 <= i < |front| && Shows(Run(Start(), front[..i]), front[i]);
        assert Shows(Run(Start(), es[..i]), es[i]);
      }
    }
  }

  lemma SeenNextExactlyWhen(d: Device, e: Event)
    ensures Next(d, e).everE2ee <==> d.everE2ee || Shows(d, e)
  {
    match e
    case Refresh => VisitsKeepStore(d);
    case Stop => VisitsKeepStore(d);
    case Continue(t) => if t in d.tasks && d.tasks[t].phase.Replied? { ContinuingKeepsStore(d, t); }
    case Fire(t) => if t in d.timers { FiringKeepsStore(d, t); }
    case Settled(request, reply) =>
      assert AfterReply(d, request, reply).everE2ee == Applied(d, request, reply).everE2ee;
    case _ =>
  }

  /** What visits, results and timers leave alone. */
  predicate SameStore(d: Device, after: Device)
  {
    && after.everE2ee == d.everE2ee && after.started == d.started && after.applied == d.applied
    && after.screens == d.screens
    && forall t | t in after.tasks :: (t in d.tasks && after.tasks[t] == d.tasks[t]) || after.tasks[t].phase.ReadingFlag?
  }

  lemma VisitsKeepStore(d: Device)
    ensures SameStore(d, Refreshed(d)) && SameStore(d, Stopped(d))
  {}

  lemma ContinuingKeepsStore(d: Device, t: nat)
    requires t in d.tasks && d.tasks[t].phase.Replied?
    ensures SameStore(d, Continued(d, t))
  {}

  lemma FiringKeepsStore(d: Device, t: nat)
    requires t in d.timers
    ensures SameStore(d, Fired(d, t))
  {
    var v := d.timers[t].visit;
    var d1 := d.(timers := d.timers - {t});
    if v in d.entries {
      VisitsKeepStore(d1.(entries := d1.entries[v := d1.entries[v].(retryTimer := None)]));
    }
  }

  /** Requests are numbered as they start. */
  predicate Numbered(d: Device)
  {
    && d.applied <= d.started && (forall r | r in d.screens :: r <= d.started)
    && forall t | t in d.tasks && d.tasks[t].phase.Fetching? :: d.tasks[t].phase.seq_ <= d.started
  }

  lemma {:induction false} RunIsNumbered(es: seq<Event>)
    ensures Numbered(Run(Start(), es))
  {
    if es != [] {
      RunIsNumbered(es[..|es| - 1]);
      NextIsNumbered(Run(Start(), es[..|es| - 1]), es[|es| - 1]);
    }
  }

  lemma NextIsNumbered(d: Device, e: Event)
    requires Numbered(d)
    ensures Numbered(Next(d, e))
  {
    match e
    case Refresh => VisitsKeepStore(d);
    case Stop => VisitsKeepStore(d);
    case Continue(t) => if t in d.tasks && d.tasks[t].phase.Replied? { ContinuingKeepsStore(d, t); }
    case Fire(t) => if t in d.timers { FiringKeepsStore(d, t); }
    case Settled(request, reply) => if InFlightRequest(d, request) { ReplyIsNumbered(d, request, reply); }
    case _ =>
  }

  lemma ReplyIsNumbered(d: Device, request: nat, reply: Reply)
    requires Numbered(d) && InFlightRequest(d, request)
    ensures Numbered(AfterReply(d, request, reply))
  {}

  ghost predicate CanReadPlain(d: Device) { exists es :: StateOf(Run(d, es)) == Plaintext }

  lemma StepBack(d: Device, e: Event)
    requires CanReadPlain(Next(d, e))
    ensures CanReadPlain(d)
  {
    var es :| StateOf(Run(Next(d, e), es)) == Plaintext;
    RunConcat(d, [e], es);
    RunFew(d, [e]);
  }

  /** The current visit's refresh, over a socket that is down, is in this phase. */
  predicate Visiting(d: Device, v: nat, t: nat, phase: Phase)
  {
    && d.current == Some(v) && v in d.entries && d.cached.None? && !d.everE2ee && d.socket == Disconnected
    && t in d.tasks && d.tasks[t] == Task(v, phase)
  }

  lemma NoResponseReadsPlain(d: Device, v: nat, t: nat)
    requires Visiting(d, v, t, Replied(NetworkError))
    ensures CanReadPlain(d)
  {
    var after := Next(d, Continue(t));
    assert after.report == Some(Offline) && StateOf(after) == Plaintext;
    assert Run(after, []) == after;
    StepBack(d, Continue(t));
  }

  lemma AskedCanReadPlain(d: Device, v: nat, t: nat, request: nat)
    requires Visiting(d, v, t, Fetching(request)) && request !in d.screens
    ensures CanReadPlain(d)
  {
    NoResponseReadsPlain(Next(d, Settled(request, NetworkError)), v, t);
    StepBack(d, Settled(request, NetworkError));
  }

  lemma VisitCanReadPlain(d: Device, v: nat, t: nat)
    requires Visiting(d, v, t, ReadingFlag) && Numbered(d)
    ensures CanReadPlain(d)
  {
    AskedCanReadPlain(Next(d, FlagRead(t, false, true)), v, t, d.started + 1);
    StepBack(d, FlagRead(t, false, true));
  }

  /** From a state that has forgotten the room, entering it offline makes it read as plaintext. */
  lemma ForgottenCanReadPlain(d: Device)
    requires Numbered(d) && d.current.None? && d.cached.None? && !d.everE2ee
    ensures CanReadPlain(d)
  {
    var offline := Next(d, SocketChange(Disconnected));
    NextIsNumbered(offline, Refresh);
    VisitCanReadPlain(Next(offline, Refresh), d.nextId, d.nextId + 1);
    StepBack(offline, Refresh);
    StepBack(d, SocketChange(Disconnected));
  }

  /** And a list that is asked for next, and lacks the room, makes it forgotten. */
  lemma UnseenCanReadPlain(d: Device)
    requires Numbered(d) && !d.everE2ee
    ensures CanReadPlain(d)
  {
    var left := Next(d, Stop);
    var asked := Next(left, OpenScreen);
    var unlisted := Next(asked, Settled(d.started + 1, List(None)));
    NextIsNumbered(d, Stop);
    NextIsNumbered(left, OpenScreen);
    NextIsNumbered(asked, Settled(d.started + 1, List(None)));
    ListForgets(asked);
    ForgottenCanReadPlain(unlisted);
    StepBack(asked, Settled(d.started + 1, List(None)));
    StepBack(left, OpenScreen);
    StepBack(d, Stop);
  }

  lemma ListForgets(d: Device)
    requires d.current.None? && d.started in d.screens && d.applied < d.started
    ensures var after := Next(d, Settled(d.started, List(None)));
            after.current.None? && after.cached.None? && after.everE2ee == d.everE2ee
  {}

  /**
   After any run a room reads as encrypted in every continuation if and only if an applied list, an epoch
   frame or the persisted flag has shown it so; otherwise some continuation makes it read as plaintext,
   whatever it reads as now.
   */
  lemma SticksExactlyWhenShown(es: seq<Event>)
    ensures Sticks(Run(Start(), es)) <==> HasShown(es)
    ensures CanReadPlain(Run(Start(), es)) <==> !HasShown(es)
  {
    SeenExactlyWhenShown(es);
    RunIsNumbered(es);
    SticksExactlyWhenSeen(Run(Start(), es));
  }

  /** The room reads as encrypted whatever follows. */
  ghost predicate Sticks(d: Device) { forall es :: StateOf(Run(d, es)) == E2ee }

  lemma SticksExactlyWhenSeen(d: Device)
    requires Numbered(d)
    ensures Sticks(d) <==> d.everE2ee
    ensures CanReadPlain(d) <==> !d.everE2ee
  {
    if d.everE2ee {
      forall es ensures StateOf(Run(d, es)) == E2ee { SeenStays(d, es); }
    } else {
      UnseenCanReadPlain(d);
    }
  }

  /** The room reads as encrypted after this run, and can read as plaintext later. */
  ghost predicate Lapses(es: seq<Event>)
  {
    StateOf(Run(Start(), es)) == E2ee && CanReadPlain(Run(Start(), es))
  }

  /** The reply to joining a room shows it at epoch 3, and is not one of the three. */
  lemma JoiningDoesNotStick()
    ensures Lapses([Joined(3)])
  {
    RunFew(Start(), [Joined(3)]);
    SeenExactlyWhenShown([Joined(3)]);
    SticksExactlyWhenShown([Joined(3)]);
  }

  // The room's refresh asks first, the rooms screen second; the screen's reply is older and comes first.
  const OVERTAKEN: seq<Event> :=
    [Refresh, FlagRead(1, false, true), OpenScreen] + [Settled(2, List(Some(0))), Settled(1, List(Some(3))), Continue(1)]

  /** Nor does a reply that shows epoch 3 but is not applied, because a later request's reply was. */
  lemma OvertakenReplyDoesNotStick()
    ensures Lapses(OVERTAKEN)
  {
    var asked, settled := OVERTAKEN[..3], OVERTAKEN[3..];
    RunConcat(Start(), asked, settled);
    assert OVERTAKEN == asked + settled;
    OvertakenAsked(asked);
    OvertakenSettled(Run(Start(), asked), settled);
    SeenExactlyWhenShown(OVERTAKEN);
    SticksExactlyWhenShown(OVERTAKEN);
  }

  lemma OvertakenAsked(es: seq<Event>)
    requires es == [Refresh, FlagRead(1, false, true), OpenScreen]
    ensures var d := Run(Start(), es);
            && d.tasks == map[1 := Task(0, Fetching(1))] && d.screens == {2} && d.applied == 0 && !d.everE2ee
            && d.current == Some(0) && 0 in d.entries
  {
    RunFew(Start(), es);
  }

  lemma OvertakenSettled(d: Device, es: seq<Event>)
    requires es == [Settled(2, List(Some(0))), Settled(1, List(Some(3))), Continue(1)]
    requires d.tasks == map[1 := Task(0, Fetching(1))] && d.screens == {2} && d.applied == 0 && !d.everE2ee
    requires d.current == Some(0) && 0 in d.entries
    ensures StateOf(Run(d, es)) == E2ee && !Run(d, es).everE2ee
  {
    RunFew(d, es);
    var d1 := Next(d, es[0]);
    assert d1.applied == 2 && d1.cached == Some(0) && d1.tasks == d.tasks && d1.screens == {};
    var d2 := Next(d1, es[1]);
    assert d2.tasks == map[1 := Task(0, Replied(List(Some(3))))];
    assert Next(d2, es[2]).report == Some(Ok(3));
  }

  /** Running at most three events, spelled out. */
  lemma RunFew(d: Device, es: seq<Event>)
    ensures |es| == 1 ==> Run(d, es) == Next(d, es[0])
    ensures |es| == 2 ==> Run(d, es) == Next(Next(d, es[0]), es[1])
    ensures |es| == 3 ==> Run(d, es) == Next(Next(Next(d, es[0]), es[1]), es[2])
  {
    if |es| == 2 { assert es[..1][0] == es[0] && es[..1][..0] == []; }
    if |es| == 3 {
      assert es[..2][..1] == es[..1] && es[..2][1] == es[1] && es[..1][0] == es[0] && es[..1][..0] == [];
    }
  }

  lemma {:induction false} RunConcat(d: Device, es: seq<Event>, fs: seq<Event>)
    ensures Run(d, es + fs) == Run(Run(d, es), fs)
  {
    if fs == [] {
      assert es + fs == es;
    } else {
      RunConcat(d, es, fs[..|fs| - 1]);
      assert (es + fs)[..|es + fs| - 1] == es + fs[..|fs| - 1];
    }
  }

  // ---------------------------------------------------------------- a visit keeps at it

  /** The last refresh of this visit found the room in a list. */
  predicate Found(d: Device, v: nat)
  {
    v in d.outcomes && d.outcomes[v] != [] && var last := d.outcomes[v][|d.outcomes[v]| - 1].reply; last.List? && last.keyId.Some?
  }

  /** The current visit's entry has a refresh running or a retry scheduled, unless its last one found the room. */
  predicate Going(d: Device)
  {
    d.current.Some? ==>
      var v := d.current.value;
      && v in d.entries
      && (d.entries[v].inFlight.Some? || (d.entries[v].retryTimer.Some? && d.entries[v].retryTimer.value in d.timers
                                          && d.timers[d.entries[v].retryTimer.value].visit == v) || Found(d, v))
  }

  lemma NextKeepsGoing(d: Device, e: Event)
    requires Consistent(d) && Going(d)
    ensures Going(Next(d, e))
  {
    match e {
      case Continue(t) => if t in d.tasks && d.tasks[t].phase.Replied? { ContinuedKeepsGoing(d, t); }
      case Fire(t) => if t in d.timers { FiredKeepsGoing(d, t); }
      case Refresh => RefreshedIsGoing(d);
      case Stop =>
      case _ => StoreStepKeepsGoing(d, e);
    }
  }

  lemma RefreshedIsGoing(d: Device)
    requires Consistent(d)
    ensures Going(Refreshed(d))
  {}

  lemma StoreStepKeepsGoing(d: Device, e: Event)
    requires Going(d)
    ensures Going(StoreStep(d, e))
  {}

  lemma ContinuedKeepsGoing(d: Device, t: nat)
    requires Consistent(d) && Going(d) && t in d.tasks && d.tasks[t].phase.Replied?
    ensures Going(Continued(d, t))
  {
    assert TaskOk(d, t);
  }

  lemma FiredKeepsGoing(d: Device, t: nat)
    requires Consistent(d) && Going(d) && t in d.timers
    ensures Going(Fired(d, t))
  {
    assert TimerOk(d, t);
  }

  lemma {:induction false} RunKeepsGoing(es: seq<Event>)
    ensures Going(Run(Start(), es))
  {
    if es != [] {
      RunKeepsGoing(es[..|es| - 1]);
      RunIsConsistent(es[..|es| - 1]);
      NextKeepsGoing(Run(Start(), es[..|es| - 1]), es[|es| - 1]);
    }
  }

  /**
   While a room is open its refresher never stalls: a refresh is running, or a timer for the next one is live, or
   the last one found the room in a list.
   */
  lemma NeverStalls(es: seq<Event>, v: nat)
    requires Run(Start(), es).current == Some(v)
    ensures var d := Run(Start(), es);
            || (exists t :: t in d.tasks && d.tasks[t].visit == v)
            || (exists t :: t in d.timers && d.timers[t].visit == v)
            || (v in d.outcomes && d.outcomes[v] != []
                && var last := d.outcomes[v][|d.outcomes[v]| - 1].reply; last.List? && last.keyId.Some?)
  {
    RunKeepsGoing(es);
    RunIsConsistent(es);
    assert EntryOk(Run(Start(), es), v);
  }

  /** While the current visit's refresh is running, it is reported as pending, or as encrypted if a frame said so. */
  predicate PendingShown(d: Device)
  {
    forall t | t in d.tasks && d.current == Some(d.tasks[t].visit) ::
      d.report.Some? && (d.report.value.Pending? || (d.report.value.Ok? && d.report.value.keyId > 0))
  }

  lemma NextShowsPending(d: Device, e: Event)
    requires Consistent(d) && PendingShown(d)
    ensures PendingShown(Next(d, e))
  {
    match e {
      case Continue(t) => if t in d.tasks && d.tasks[t].phase.Replied? { ContinuedShowsPending(d, t); }
      case Fire(t) => if t in d.timers { FiredShowsPending(d, t); }
      case Refresh => RefreshedShowsPending(d);
      case _ =>
    }
  }

  lemma RefreshedShowsPending(d: Device)
    requires forall t | t in d.tasks :: TaskOk(d, t)
    requires d.current.Some? ==> d.current.value in d.entries
    requires PendingShown(d)
    ensures PendingShown(Refreshed(d))
  {
    forall t | t in d.tasks ensures TaskOk(d, t) {}
  }

  lemma ContinuedShowsPending(d: Device, t: nat)
    requires Consistent(d) && PendingShown(d) && t in d.tasks && d.tasks[t].phase.Replied?
    ensures PendingShown(Continued(d, t))
  {
    var after := Continued(d, t);
    assert TaskOk(d, t);
    forall u | u in after.tasks && after.current == Some(after.tasks[u].visit)
      ensures after.report == d.report
    {
      assert u in d.tasks && TaskOk(d, u);
    }
  }

  lemma FiredShowsPending(d: Device, t: nat)
    requires Consistent(d) && PendingShown(d) && t in d.timers
    ensures PendingShown(Fired(d, t))
  {
    assert TimerOk(d, t);
    var v := d.timers[t].visit;
    var d2 := d.(timers := d.timers - {t}, entries := d.entries[v := d.entries[v].(retryTimer := None)]);
    forall u | u in d2.tasks ensures TaskOk(d2, u) { assert TaskOk(d, u); }
    RefreshedShowsPending(d2);
  }

  lemma {:induction false} PendingIsShown(es: seq<Event>)
    ensures PendingShown(Run(Start(), es))
  {
    if es != [] {
      PendingIsShown(es[..|es| - 1]);
      RunIsConsistent(es[..|es| - 1]);
      NextShowsPending(Run(Start(), es[..|es| - 1]), es[|es| - 1]);
    }
  }

  // ---------------------------------------------------------------- the epochs that are shown

  /** An applied list: newer than all applied before. */
  predicate AppliesList(d: Device, e: Event)
  {
    e.Settled? && InFlightRequest(d, e.request) && e.reply.List? && e.request > d.applied
  }

  /**
   The cached epoch is that of the last applied list, raised by the frames since: nothing else lowers, sets or
   forgets it, but for a join reply that fills in a room that is not there.
   */
  lemma SummaryMoves(d: Device, e: Event)
    ensures var after := Next(d, e).cached;
            if AppliesList(d, e) then after == e.reply.keyId
            else if e.Joined? && d.cached.None? then after == Some(e.keyId)
            else if e.Frame? && d.cached.Some? then
              after.Some? && after.value >= d.cached.value && after.value >= e.keyId && after.value in {d.cached.value, e.keyId}
            else after == d.cached
  {}

  /** A frame is shown at once, never below it and never below what the last report said. */
  lemma FrameIsReported(d: Device, keyId: nat)
    requires keyId > 0
    ensures var d' := Next(d, Frame(keyId));
            && StateOf(d') == E2ee && d'.report.Some? && d'.report.value.Ok? && d'.report.value.keyId >= keyId
            && (d.report.Some? && d.report.value.Ok? ==> d'.report.value.keyId >= d.report.value.keyId)
            && (d'.report.value.keyId == keyId || d.report == d'.report)
  {}

  // ---------------------------------------------------------------- replies are the server's

  /** The server, or the network, gave this reply at some time. */
  predicate WasGiven(es: seq<Event>, reply: Reply) { exists e | e in es :: e.Settled? && e.reply == reply }

  /** Whatever a refresh goes on with, other than an HTTP error, was given; a device without a token makes up only that. */
  predicate Given(d: Device, es: seq<Event>)
  {
    && (forall t | t in d.tasks && d.tasks[t].phase.Replied? ::
          d.tasks[t].phase.reply.HttpError? || WasGiven(es, d.tasks[t].phase.reply))
    && (forall v, o | v in d.outcomes && o in d.outcomes[v] :: o.reply.HttpError? || WasGiven(es, o.reply))
  }

  lemma GivenStays(es: seq<Event>, e: Event, reply: Reply)
    requires WasGiven(es, reply)
    ensures WasGiven(es + [e], reply)
  {
    var was :| was in es && was.Settled? && was.reply == reply;
    assert was in es + [e];
  }

  lemma NextIsGiven(d: Device, es: seq<Event>, e: Event)
    requires Given(d, es)
    ensures Given(Next(d, e), es + [e])
  {
    var after := Next(d, e);
    assert e in es + [e];
    forall reply | WasGiven(es, reply) ensures WasGiven(es + [e], reply) { GivenStays(es, e, reply); }
    forall t | t in after.tasks && after.tasks[t].phase.Replied?
      ensures after.tasks[t].phase.reply.HttpError? || WasGiven(es + [e], after.tasks[t].phase.reply)
    {
      ReplyComesFrom(d, e, t);
    }
    forall v, o | v in after.outcomes && o in after.outcomes[v] ensures o.reply.HttpError? || WasGiven(es + [e], o.reply) {
      OutcomeComesFrom(d, e, v, o);
    }
  }

  lemma ReplyComesFrom(d: Device, e: Event, t: nat)
    requires t in Next(d, e).tasks && Next(d, e).tasks[t].phase.Replied?
    ensures var reply := Next(d, e).tasks[t].phase.reply;
            || reply.HttpError? || (t in d.tasks && d.tasks[t].phase == Replied(reply)) || (e.Settled? && e.reply == reply)
  {
    if e.Continue? || e.Fire? || e.Refresh? || e.Stop? { VisitsAddNoReply(d, e, t); }
  }

  lemma VisitsAddNoReply(d: Device, e: Event, t: nat)
    requires e.Continue? || e.Fire? || e.Refresh? || e.Stop?
    ensures t in Next(d, e).tasks && Next(d, e).tasks[t].phase.Replied? ==> t in d.tasks && d.tasks[t] == Next(d, e).tasks[t]
  {
    match e {
      case Continue(u) => if u in d.tasks && d.tasks[u].phase.Replied? { assert Continued(d, u).tasks == d.tasks - {u}; }
      case _ =>
    }
  }

  lemma OutcomeComesFrom(d: Device, e: Event, v: nat, o: Outcome)
    requires v in Next(d, e).outcomes && o in Next(d, e).outcomes[v]
    ensures (v in d.outcomes && o in d.outcomes[v]) || (exists t :: t in d.tasks && d.tasks[t].phase == Replied(o.reply))
  {
    if e.Continue? && e.task in d.tasks && d.tasks[e.task].phase.Replied? { ContinuedAddsOutcome(d, e.task, v, o); }
  }

  lemma ContinuedAddsOutcome(d: Device, t: nat, v: nat, o: Outcome)
    requires t in d.tasks && d.tasks[t].phase.Replied?
    requires v in Continued(d, t).outcomes && o in Continued(d, t).outcomes[v]
    ensures (v in d.outcomes && o in d.outcomes[v]) || d.tasks[t].phase == Replied(o.reply)
  {}

  lemma {:induction false} RepliesAreGiven(es: seq<Event>)
    ensures Given(Run(Start(), es), es)
  {
    if es != [] {
      var front, last := es[..|es| - 1], es[|es| - 1];
      RepliesAreGiven(front);
      NextIsGiven(Run(Start(), front), front, last);
      assert es == front + [last];
    }
  }

  // ---------------------------------------------------------------- the objects

  /** createLatestWins: a reply is applied only if no later request's reply was. */
  class LatestWins {
    var started: nat
    var applied: nat

    constructor ()
      ensures started == 0 && applied == 0
    {
      started, applied := 0, 0;
    }

    method Begin() returns (request: nat)
      modifies this
      ensures started == old(started) + 1 && request == started && applied == old(applied)
    {
      started := started + 1;
      request := started;
    }

    method TryApply(request: nat) returns (newest: bool)
      modifies this
      ensures newest <==> request > old(applied)
      ensures applied == Max(old(applied), request) && started == old(started)
    {
      if request <= applied {
        return false;
      }
      applied := request;
      newest := true;
    }
  }

  /** The refresher and the store's fields for one room, as the callbacks change them. */
  class RoomWatch {
    const requests: LatestWins
    var current: Option<nat>
    var entries: map<nat, Entry>
    var tasks: map<nat, Task>
    var timers: map<nat, Timer>
    var nextId: nat
    var cached: Option<nat>
    var report: Option<Report>
    var everE2ee: bool
    var screens: set<nat>
    var socket: Socket
    ghost var outcomes: map<nat, seq<Outcome>>

    constructor ()
      ensures State() == Start() && fresh(requests)
    {
      requests := new LatestWins();
      current, entries, tasks, timers, nextId := None, map[], map[], map[], 0;
      cached, report, everE2ee, screens, socket, outcomes := None, None, false, {}, NoSocket, map[];
    }

    ghost function State(): Device
      reads this, requests
    {
      Device(current, entries, tasks, timers, nextId, cached, report, everE2ee, requests.started, requests.applied,
             screens, socket, outcomes)
    }

    method RefreshRoom()
      requires current.Some? ==> current.value in entries
      modifies this
      ensures State() == Refreshed(old(State()))
    {
      if current.None? {
        current := Some(nextId);
        entries := entries[nextId := Entry(None, None, 0)];
        outcomes := outcomes[nextId := []];
        nextId := nextId + 1;
      }
      var v := current.value;
      var entry := entries[v];
      if entry.inFlight.Some? {
        return;
      }
      if entry.retryTimer.Some? {
        timers := timers - {entry.retryTimer.value};
      }
      report := Some(Pending);
      tasks := tasks[nextId := Task(v, ReadingFlag)];
      entries := entries[v := entry.(inFlight := Some(nextId), retryTimer := None)];
      nextId := nextId + 1;
    }

    method StopRoomRefresh()
      modifies this
      ensures State() == Stopped(old(State()))
    {
      if current.Some? && current.value in entries && entries[current.value].retryTimer.Some? {
        timers := timers - {entries[current.value].retryTimer.value};
      }
      current := None;
      report := None;
    }

    /** The refresh goes on after reading the persisted flag: it asks for the list, if there is a token. */
    method AfterFlag(task: nat, flag: bool, loggedIn: bool)
      requires task in tasks && tasks[task].phase.ReadingFlag?
      modifies this, requests
      ensures State() == FlagKnown(old(State()), task, flag, loggedIn)
    {
      if flag {
        everE2ee := true;
      }
      var v := tasks[task].visit;
      if loggedIn {
        var request := requests.Begin();
        tasks := tasks[task := Task(v, Fetching(request))];
      } else {
        tasks := tasks[task := Task(v, Replied(HttpError))];
      }
    }

    /** requestRooms when the reply is in: the store takes the list if it is the newest. */
    method ApplyList(request: nat, reply: Reply)
      modifies this, requests
      ensures State() == Applied(old(State()), request, reply)
    {
      if !reply.List? {
        return;
      }
      var newest := requests.TryApply(request);
      if newest {
        cached := reply.keyId;
        if reply.keyId.Some? && reply.keyId.value > 0 {
          everE2ee := true;
        }
      }
    }

    /** The end of a refresh: reports only for the visit that is still current, and retries on failure. */
    method AfterFetch(task: nat)
      requires task in tasks && tasks[task].phase.Replied? && tasks[task].visit in entries
      requires entries[tasks[task].visit].inFlight == Some(task)
      modifies this
      ensures State() == Continued(old(State()), task)
    {
      var v, reply := tasks[task].visit, tasks[task].phase.reply;
      tasks := tasks - {task};
      var entry := entries[v].(inFlight := None);
      entries := entries[v := entry];
      if current == Some(v) {
        ReportResult(v, entry, reply);
      }
    }

    method ReportResult(v: nat, entry: Entry, reply: Reply)
      modifies this
      ensures State() == Reported(old(State()), v, entry, reply)
    {
      var result := Classify(reply, socket);
      report := Some(result);
      outcomes := outcomes[v := (if v in outcomes then outcomes[v] else []) + [Outcome(reply, socket)]];
      if result.Ok? {
        entries := entries[v := entry.(failures := 0)];
      } else {
        ScheduleRetry(v, entry);
      }
    }

    method ScheduleRetry(v: nat, entry: Entry)
      modifies this
      ensures State() == RetryLater(old(State()), v, entry)
    {
      var delay := Min(Backoff.BASE_MS * Backoff.Pow2(entry.failures), Backoff.MAX_MS);
      timers := timers[nextId := Timer(v, delay)];
      entries := entries[v := entry.(failures := entry.failures + 1, retryTimer := Some(nextId))];
      nextId := nextId + 1;
    }

    method OnTimer(timer: nat)
      requires timer in timers && timers[timer].visit in entries
      requires current.Some? ==> current.value in entries
      modifies this
      ensures State() == Fired(old(State()), timer)
    {
      var v := timers[timer].visit;
      timers := timers - {timer};
      entries := entries[v := entries[v].(retryTimer := None)];
      if current == Some(v) {
        RefreshRoom();
      }
    }

    method NoteRoomEpoch(keyId: nat)
      modifies this
      ensures State() == Noted(old(State()), keyId)
    {
      if keyId == 0 {
        return;
      }
      var known := if report.Some? && report.value.Ok? then report.value.keyId else 0;
      if cached.Some? {
        cached := Some(Max(cached.value, keyId));
      }
      report := Some(Ok(Max(known, keyId)));
      everE2ee := true;
    }
  }
}
