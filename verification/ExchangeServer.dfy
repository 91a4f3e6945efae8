/**
 The server of module Exchange is the gateway: what Gateway.HandleMessage does with a sync frame
 (apps/server/src/sync/sync.gateway.ts:312-412) is the exchange's server step, seen from that client.
 */
module ExchangeServer {
  import opened Common
  import opened Replica
  import opened EnvelopeGate
  import opened Wire
  import opened Provider
  import opened Exchange
  import Gateway
  import Throttle

  /** One room of the gateway and one client in it, as the exchange sees them. */
  predicate Sees(w: World, g: Setting, s: Gateway.Sync, client: nat)
  {
    && s.doc == w.server && s.keyId == g.keyId && g.keyId > 0 && s.roomId != "default"
    && client in s.open && s.RejectionOf(client) == w.memory
  }

  /** The bytes of a sync frame: the question with its vector, or an encoding of what is sent. */
  ghost predicate Carries(f: Outgoing, frame: ClientFrame)
  {
    match f
    case SendVector(v) => frame == AskState(v)
    case SendAnswer(x) => frame.Answer? && Encodes(frame.answer, x)
    case SendUpdate(x) => frame.Push? && Encodes(frame.push, x)
    case SendPresence => frame.Presence?
  }

  /** The ids of a refusal, as the gateway lists them. */
  function IdsOfFrame(frame: ClientFrame): seq<string>
  {
    match frame
    case Answer(u) => Gateway.RejectedIds(u)
    case Push(u) => Gateway.RejectedIds(u)
    case _ => []
  }

  /** The frames that the client is sent on the way from s to t are those that the exchange puts on the line. */
  ghost predicate SameFrames(w: World, w': World, s: Gateway.Sync, t: Gateway.Sync, client: nat)
  {
    w.down <= w'.down
    && Gateway.FramesTo(t.outbox, client) == Gateway.FramesTo(s.outbox, client) + w'.down[|w.down|..]
  }

  lemma RefusedAlike(w: World, g: Setting, s: Gateway.Sync, t: Gateway.Sync, client: nat, u: Update, signature: nat)
    requires Sees(w, g, s, client) && Gateway.RefusedWhole(s, t, client, u, signature)
    requires t.keyId == s.keyId && t.roomId == s.roomId && t.open == s.open
    ensures var w' := Refusing(w, g, Gateway.RejectedIds(u), signature, s.now);
            Sees(w', g, t, client) && SameFrames(w, w', s, t, client)
  {
    var w' := Refusing(w, g, Gateway.RejectedIds(u), signature, s.now);
    assert w'.down[|w.down|..] == s.RefusalFrames(client, Gateway.RejectedIds(u), signature);
  }

  lemma AppliedAlike(w: World, g: Setting, s: Gateway.Sync, t: Gateway.Sync, client: nat, u: Update, x: Delta)
    requires Sees(w, g, s, client) && Encodes(u, x) && Gateway.AppliedWhole(s, t, client, u)
    requires t.keyId == s.keyId && t.roomId == s.roomId && t.open == s.open
    ensures var w' := w.(server := Absorb(w.server, x)); Sees(w', g, t, client) && SameFrames(w, w', s, t, client)
  {
    GateDecides(u, x);
    assert w.down[|w.down|..] == [];
  }

  lemma UpdateAlike(w: World, g: Setting, s: Gateway.Sync, t: Gateway.Sync, client: nat, u: Update, x: Delta, signature: nat)
    requires Sees(w, g, s, client) && Encodes(u, x) && Gateway.UpdateHandled(s, t, client, u, signature)
    requires t.keyId == s.keyId && t.roomId == s.roomId && t.open == s.open
    ensures var w' := OnSync(w, g, x, Gateway.RejectedIds(u), signature, s.now);
            Sees(w', g, t, client) && SameFrames(w, w', s, t, client)
  {
    GateDecides(u, x);
    if s.Refuses(u) {
      RefusedAlike(w, g, s, t, client, u, signature);
    } else {
      AppliedAlike(w, g, s, t, client, u, x);
    }
  }

  /**
   Whatever frame of the client the gateway handles next, the exchange's server step leads to the same document,
   the same memory of refusals and the same frames to the client, with the ids that the exchange asks of a fair server.
   */
  lemma HandledAlike(w: World, g: Setting, s: Gateway.Sync, t: Gateway.Sync, client: nat, frame: ClientFrame, signature: nat)
    requires Sees(w, g, s, client) && w.taken < |w.client.sent| && Carries(w.client.sent[w.taken], frame)
    requires Gateway.Handled(s, t, client, frame, signature)
    requires t.keyId == s.keyId && t.roomId == s.roomId && t.open == s.open
    ensures var w' := AfterServerReads(w, g, IdsOfFrame(frame), signature, s.now);
            Sees(w', g, t, client) && SameFrames(w, w', s, t, client) && w'.taken == w.taken + 1
    ensures AsSet(IdsOfFrame(frame)) == Named(Carried(w.client.sent[w.taken]))
  {
    var next := w.(taken := w.taken + 1);
    NamesAlike(w.client.sent[w.taken], frame);
    match w.client.sent[w.taken]
    case SendVector(v) => assert (w.down + [State(Diff(w.server, v))])[|w.down|..] == [State(Diff(w.server, v))];
    case SendAnswer(x) => UpdateAlike(next, g, s, t, client, frame.answer, x, signature);
    case SendUpdate(x) => UpdateAlike(next, g, s, t, client, frame.push, x, signature);
    case SendPresence => assert w.down[|w.down|..] == [];
  }

  lemma NamesAlike(f: Outgoing, frame: ClientFrame)
    requires Carries(f, frame)
    ensures AsSet(IdsOfFrame(frame)) == Named(Carried(f))
  {
    match f {
      case SendAnswer(x) =>
        forall s ensures s in AsSet(IdsOfFrame(frame)) <==> s in Named(x) { RejectionNames(frame.answer, x, s); }
      case SendUpdate(x) =>
        forall s ensures s in AsSet(IdsOfFrame(frame)) <==> s in Named(x) { RejectionNames(frame.push, x, s); }
      case _ =>
    }
  }

  /** And what another client's accepted update does to this one is the exchange's step for it. */
  lemma OthersAlike(w: World, g: Setting, s: Gateway.Sync, t: Gateway.Sync, client: nat, other: nat, u: Update, x: Delta)
    requires Sees(w, g, s, client) && w.client.open && client in s.clients && other != client
    requires Encodes(u, x) && Gateway.AppliedWhole(s, t, other, u)
    requires t.keyId == s.keyId && t.roomId == s.roomId && t.open == s.open
    ensures var w' := AfterOthers(w, x); Sees(w', g, t, client) && SameFrames(w, w', s, t, client)
  {
    GateDecides(u, x);
    var news := Changes(w.server, Absorb(w.server, x));
    var told := if IsEmpty(news) then [] else [Fanout(news)];
    assert (w.down + told)[|w.down|..] == told;
  }
}
