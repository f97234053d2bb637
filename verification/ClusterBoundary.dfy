/**
 Why the cluster model may speak of whole nodes, and why convergence asks for gap-free edits.
 */
module ClusterBoundary {
  import opened Crdt
  import A = ActorSpec
  import C = Cluster
  import K = Commands

  /** `m` is what an actor reads from a message that a peer published. */
  predicate Represents(m: A.Message, p: C.Payload) {
    match p
    case Update(c) => m == A.SyncMsg(A.Update(Decoded(c)))
    case Step2(c) => m == A.SyncMsg(A.Update(Decoded(c)))
    case Step1(sv) => m == A.SyncMsg(A.Step1(sv))
    case AwarenessMsg => m.AwarenessMsg?
    case QueryAwareness => m.QueryAwareness?
    case StatelessMsg => m.BroadcastStateless?
  }

  /** What an actor hands to the Redis extension, as the cluster model writes it. */
  function AsPayload(p: A.Peer): C.Payload {
    match p
    case PeerUpdate(delta) => C.Update(delta)
    case PeerStep2(update) => C.Step2(update)
    case PeerAwareness(_) => C.AwarenessMsg
  }

  /** The flight after publishing `out`, oldest first. */
  function Launched(s: C.State, from: nat, out: seq<A.Peer>): seq<C.Packet>
    decreases |out|
  {
    if out == [] then s.flight
    else Launched(C.Publish(s, from, AsPayload(out[0])), from, out[1..])
  }

  lemma LaunchedOne(s: C.State, from: nat, p: A.Peer)
    ensures Launched(s, from, [p]) == C.Publish(s, from, AsPayload(p)).flight
  {
    assert [p][1..] == [];
  }

  /** What the actor publishes in the course of one step. */
  function NewlyPublished(s: A.State, s': A.State): seq<A.Peer> {
    if s.published <= s'.published then s'.published[|s.published|..] else []
  }

  /**
   A peer's message does to the actor what the cluster model says it does to the node, whatever
   awareness entries or text it carries: the document is the same, and exactly what the actor
   publishes goes into the flight.
   */
  lemma ActorReceivesAsNode(cfg: A.Config, s: A.State, at: nat, p: C.Payload, m: A.Message,
                            n: C.State, node: nat)
    requires Represents(m, p) && node < |n.docs| && n.docs[node] == s.doc
    ensures var s' := A.FromPeer(cfg, s, at, true, m, true);
      && C.Receive(n, node, p).docs == n.docs[node := s'.doc]
      && C.Receive(n, node, p).flight == Launched(n, node, NewlyPublished(s, s'))
      && s.published <= s'.published
  {
    var s' := A.FromPeer(cfg, s, at, true, m, true);
    assert n.docs[node := s.doc] == n.docs;
    if s'.published != s.published {
      var answer := s'.published[|s.published|];
      assert NewlyPublished(s, s') == [answer];
      LaunchedOne(n, node, answer);
    } else {
      assert NewlyPublished(s, s') == [];
    }
  }

  /** Without a way to answer, or if awareness does not encode, only the answers are missing. */
  lemma ActorReceivesQuietly(cfg: A.Config, s: A.State, at: nat, encodes: bool, p: C.Payload,
                             m: A.Message, reply: bool)
    requires Represents(m, p)
    ensures var s', full := A.FromPeer(cfg, s, at, encodes, m, reply), A.FromPeer(cfg, s, at, true, m, true);
      && s'.doc == full.doc == Merge(s.doc, C.ContentOf(p))
      && (s'.published == full.published || s'.published == s.published)
      && (s'.published != full.published ==> !reply || (p.QueryAwareness? && !encodes))
  {
    assert Merge(s.doc, Nothing) == s.doc;
  }

  /**
   A local edit, a client's or a server-side one, that the actor lets in changes the node and is
   published as the cluster model says.
   */
  lemma ActorEditsAsNode(cfg: A.Config, s: A.State, s': A.State, at: nat, u: Content,
                         ccfg: C.Config, n: C.State, node: nat)
    requires ccfg.elidesEmpty == cfg.elidesEmpty && node < |n.docs| && n.docs[node] == s.doc
    requires K.LetIn(cfg, s, s', at, Decoded(u), false)
    ensures C.EditNode(ccfg, n, node, u).docs == n.docs[node := s'.doc]
    ensures C.EditNode(ccfg, n, node, u).flight == Launched(n, node, NewlyPublished(s, s'))
  {
    assert n.docs[node := s.doc] == n.docs;
    if s'.published != s.published {
      var delta := A.PeerUpdate(Delta(s.doc, Merge(s.doc, u)));
      assert NewlyPublished(s, s') == [delta];
      LaunchedOne(n.(docs := n.docs[node := s'.doc]), node, delta);
      assert C.Publish(n, node, C.Update(delta.delta)).flight ==
        C.Publish(n.(docs := n.docs[node := s'.doc]), node, C.Update(delta.delta)).flight;
      LaunchedOne(n, node, delta);
    } else {
      assert NewlyPublished(s, s') == [];
    }
  }

  const Late := Content({Id(7, 1)}, {})
  const Early := Content({Id(7, 0)}, {})
  const Both := Content({Id(7, 0), Id(7, 1)}, {})

  lemma GapFacts()
    ensures Merge(Nothing, Late) == Late != Nothing && Merge(Nothing, Early) == Early != Nothing
    ensures Merge(Late, Early) == Both && Visible(Both) == Both
    ensures Delta(Nothing, Late) == Nothing && Delta(Nothing, Early) == Early
    ensures Id(7, 1) !in Early.ops
  {
    assert Id(7, 1) in Late.ops && Id(7, 0) in Early.ops && Id(7, 0) !in Late.ops;
    assert !Integrated(Late.ops, Id(7, 1)) by {
      assert Id(7, 0) !in Late.ops;
    }
    assert Visible(Late).ops == {};
    assert Integrated(Both.ops, Id(7, 0)) && Integrated(Both.ops, Id(7, 1));
    assert Visible(Both).ops == Both.ops;
    assert Visible(Early).ops == Early.ops;
  }

  const Quiet := C.Update(Nothing)
  const Loud := C.Update(Early)

  function TwoEdits(cfg: C.Config): C.State {
    C.EditNode(cfg, C.EditNode(cfg, C.State([Nothing, Nothing], []), 0, Late), 1, Early)
  }

  lemma TwoEditsInFlight(cfg: C.Config)
    ensures TwoEdits(cfg) ==
      C.State([Late, Early], [C.Packet(0, 0, Quiet), C.Packet(0, 1, Quiet),
                              C.Packet(1, 0, Loud), C.Packet(1, 1, Loud)])
  {
    GapFacts();
    FanOutToTwo(0, Quiet);
    FanOutToTwo(1, Loud);
    var s := C.State([Nothing, Nothing], []);
    var s1 := C.EditNode(cfg, s, 0, Late);
    assert s1 == C.State([Late, Nothing], [C.Packet(0, 0, Quiet), C.Packet(0, 1, Quiet)]);
  }

  /**
   An edit with a gap can be lost to the peers for good. Node 0 gets operation 1 of a client
   before operation 0; node 1 gets operation 0 and replicates it; node 0 then shows both, but
   the change arrived from Redis and is not published, so operation 1 is neither in node 1's
   document nor on its way there.
   */
  lemma GappedEditIsNotReplicated(cfg: C.Config)
    requires C.GoodConfig(cfg) && |cfg.idents| == 2
    ensures var s := TwoEdits(cfg);
      && C.WellFormed(cfg, s) && C.Enabled(s, C.Deliver(2))
      && var s' := C.Step(cfg, s, C.Deliver(2));
         && Visible(s'.docs[0]) == Both
         && Id(7, 1) !in s'.docs[1].ops && Id(7, 1) !in C.Coming(s'.flight, 1).ops
  {
    GapFacts();
    TwoEditsInFlight(cfg);
    var s := TwoEdits(cfg);
    C.DropsExactlyOwn(cfg, s.flight[2]);
    var s' := C.Step(cfg, s, C.Deliver(2));
    assert s'.docs == [Both, Early];
    assert s'.flight == [C.Packet(0, 0, Quiet), C.Packet(0, 1, Quiet), C.Packet(1, 1, Loud)];
    NothingComes(s'.flight);
  }

  lemma FanOutToTwo(from: nat, p: C.Payload)
    ensures C.FanOut(2, from, p) == [C.Packet(from, 0, p), C.Packet(from, 1, p)]
  {
    assert C.FanOut(1, from, p) == C.FanOut(0, from, p) + [C.Packet(from, 0, p)];
  }

  /** No content for node 1 in a flight whose only packets to it are its own or empty. */
  lemma {:induction false} NothingComes(flight: seq<C.Packet>)
    requires forall i | 0 <= i < |flight| ::
      flight[i].to != 1 || flight[i].from == 1 || C.ContentOf(flight[i].payload) == Nothing
    ensures C.Coming(flight, 1) == Nothing
    decreases |flight|
  {
    if flight != [] {
      NothingComes(flight[..|flight| - 1]);
    }
  }
}
