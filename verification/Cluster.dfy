/**
 Replication between server nodes over Redis: a publish reaches every node, in any order; a
 node drops its own messages, applies its peers' updates without publishing them again, and
 answers questions with one more publish.
 */
module Cluster {
  import opened Crdt
  import Wire

  datatype Payload =
    | Update(content: Content)
    | Step1(sv: StateVector)
    | Step2(content: Content)
    | AwarenessMsg
    | QueryAwareness
    | StatelessMsg

  datatype Packet = Packet(from: nat, to: nat, payload: Payload)

  datatype Config = Config(idents: seq<Wire.Bytes>, elidesEmpty: bool)

  /** `flight` is what was published and not yet delivered, in no meaningful order. */
  datatype State = State(docs: seq<Content>, flight: seq<Packet>)

  /** Node identifiers are distinct and fit the one length byte of the envelope. */
  predicate GoodConfig(cfg: Config) {
    && (forall i | 0 <= i < |cfg.idents| :: |cfg.idents[i]| <= 255)
    && (forall i, j | 0 <= i < j < |cfg.idents| :: cfg.idents[i] != cfg.idents[j])
  }

  predicate WellFormed(cfg: Config, s: State) {
    && |s.docs| == |cfg.idents|
    && forall i | 0 <= i < |s.flight| :: s.flight[i].from < |s.docs| && s.flight[i].to < |s.docs|
  }

  function FanOut(n: nat, from: nat, payload: Payload): seq<Packet> {
    if n == 0 then [] else FanOut(n - 1, from, payload) + [Packet(from, n - 1, payload)]
  }

  function Publish(s: State, from: nat, payload: Payload): State {
    s.(flight := s.flight + FanOut(|s.docs|, from, payload))
  }

  /** The subscriber's test for its own messages, on the bytes of the envelope. */
  predicate Dropped(cfg: Config, p: Packet)
    requires p.from < |cfg.idents| && p.to < |cfg.idents|
  {
    Wire.IsOwnMessage(cfg.idents[p.to], Wire.MessagePrefix(cfg.idents[p.from]) + [])
  }

  datatype Action =
    | Edit(node: nat, update: Content)   // a client's or a server-side update
    | Ask(node: nat)                     // after_load: SyncStep1 and QueryAwareness
    | Announce(node: nat)                // a local awareness change
    | Say(node: nat)                     // a stateless broadcast
    | Deliver(index: nat)

  predicate Enabled(s: State, a: Action) {
    match a
    case Deliver(index) => index < |s.flight|
    case _ => a.node < |s.docs|
  }

  function EditNode(cfg: Config, s: State, node: nat, u: Content): State
    requires node < |s.docs|
  {
    var before := s.docs[node];
    var after := Merge(before, u);
    if cfg.elidesEmpty && after == before then s
    else Publish(s.(docs := s.docs[node := after]), node, Update(Delta(before, after)))
  }

  function Without(flight: seq<Packet>, i: nat): seq<Packet>
    requires i < |flight|
  {
    flight[..i] + flight[i + 1..]
  }

  /** A peer's message is applied or answered; nothing else is published. */
  function Receive(s: State, node: nat, payload: Payload): State
    requires node < |s.docs|
  {
    match payload
    case Update(c) => s.(docs := s.docs[node := Merge(s.docs[node], c)])
    case Step2(c) => s.(docs := s.docs[node := Merge(s.docs[node], c)])
    case Step1(sv) => Publish(s, node, Step2(EncodeDiff(s.docs[node], sv)))
    case QueryAwareness => Publish(s, node, AwarenessMsg)
    case _ => s
  }

  function Step(cfg: Config, s: State, a: Action): State
    requires WellFormed(cfg, s) && Enabled(s, a)
  {
    match a
    case Edit(node, u) => EditNode(cfg, s, node, u)
    case Ask(node) => Publish(Publish(s, node, Step1(Vector(s.docs[node]))), node, QueryAwareness)
    case Announce(node) => Publish(s, node, AwarenessMsg)
    case Say(node) => Publish(s, node, StatelessMsg)
    case Deliver(i) =>
      var p := s.flight[i];
      var s' := s.(flight := Without(s.flight, i));
      if Dropped(cfg, p) then s' else Receive(s', p.to, p.payload)
  }

  // ----- what is on its way to a node -----

  function ContentOf(p: Payload): Content {
    if p.Update? || p.Step2? then p.content else Nothing
  }

  /** The document content in flight to `node` that it will not drop. */
  function Coming(flight: seq<Packet>, node: nat): Content {
    if flight == [] then Nothing
    else
      var p := flight[|flight| - 1];
      var front := Coming(flight[..|flight| - 1], node);
      if p.to == node && p.from != node then Merge(front, ContentOf(p.payload)) else front
  }

  /**
   Conservation: every node's document together with what is on its way to it is exactly
   `world`, all the content there is.
   */
  predicate Conserved(s: State, world: Content) {
    && (forall n | 0 <= n < |s.docs| :: Merge(s.docs[n], Coming(s.flight, n)) == world)
    && (forall i | 0 <= i < |s.flight| :: Covers(world, ContentOf(s.flight[i].payload)))
  }

  /** The update leaves nothing of itself held back at the node where it is made. */
  predicate GapFree(d: Content, u: Content) {
    Covers(Visible(Merge(d, u)), u)
  }

  /**
   What the edit publishes, together with what the cluster already has, makes up the edit: its
   node does nothing because it has it all, or nothing new in it is held back.
   */
  predicate Replicates(cfg: Config, d: Content, u: Content, world: Content) {
    (cfg.elidesEmpty && Merge(d, u) == d) || Covers(Merge(world, Delta(d, Merge(d, u))), u)
  }

  // ----- the flight -----

  lemma DropsExactlyOwn(cfg: Config, p: Packet)
    requires GoodConfig(cfg) && p.from < |cfg.idents| && p.to < |cfg.idents|
    ensures Dropped(cfg, p) <==> p.from == p.to
  {
    Wire.PeersAreToldApart(cfg.idents[p.to], cfg.idents[p.from], []);
  }

  lemma {:induction false} ComingConcat(a: seq<Packet>, b: seq<Packet>, node: nat)
    ensures Coming(a + b, node) == Merge(Coming(a, node), Coming(b, node))
    decreases |b|
  {
    if b == [] {
      assert a + b == a;
    } else {
      assert (a + b)[..|a + b| - 1] == a + b[..|b| - 1];
      ComingConcat(a, b[..|b| - 1], node);
    }
  }

  lemma {:induction false} FanOutComes(n: nat, from: nat, payload: Payload, node: nat)
    ensures Coming(FanOut(n, from, payload), node) ==
      if node < n && node != from then ContentOf(payload) else Nothing
    decreases n
  {
    if n > 0 {
      FanOutComes(n - 1, from, payload, node);
      var all := FanOut(n, from, payload);
      assert all[..|all| - 1] == FanOut(n - 1, from, payload);
    }
  }

  lemma {:induction false} FanOutIsFromOne(n: nat, from: nat, payload: Payload)
    ensures forall i | 0 <= i < |FanOut(n, from, payload)| ::
      var p := FanOut(n, from, payload)[i];
      p.payload == payload && p.from == from && p.to < n
    decreases n
  {
    if n > 0 {
      FanOutIsFromOne(n - 1, from, payload);
    }
  }

  /** Taking one packet out of the flight takes exactly its content from its receiver. */
  lemma RemovingAPacket(flight: seq<Packet>, i: nat, node: nat)
    requires i < |flight|
    ensures Coming(flight, node) ==
      if flight[i].to == node && flight[i].from != node
      then Merge(Coming(Without(flight, i), node), ContentOf(flight[i].payload))
      else Coming(Without(flight, i), node)
  {
    var a, p, b := flight[..i], flight[i], flight[i + 1..];
    assert flight == (a + [p]) + b;
    ComingConcat(a + [p], b, node);
    ComingConcat(a, [p], node);
    ComingConcat(a, b, node);
    assert [p][..0] == [];
    assert Coming([p], node) ==
      if p.to == node && p.from != node then Merge(Nothing, ContentOf(p.payload)) else Nothing;
  }

  // ----- conservation -----

  lemma PublishConserves(s: State, from: nat, payload: Payload, world: Content)
    requires Conserved(s, world) && Covers(world, ContentOf(payload))
    ensures Conserved(Publish(s, from, payload), world)
  {
    var n := |s.docs|;
    forall node | 0 <= node < n
      ensures Merge(s.docs[node], Coming(s.flight + FanOut(n, from, payload), node)) == world
    {
      FanOutComes(n, from, payload, node);
      ComingConcat(s.flight, FanOut(n, from, payload), node);
    }
    FanOutIsFromOne(n, from, payload);
  }

  lemma PublishIsWellFormed(cfg: Config, s: State, from: nat, payload: Payload)
    requires WellFormed(cfg, s) && from < |s.docs|
    ensures WellFormed(cfg, Publish(s, from, payload))
  {
    FanOutIsFromOne(|s.docs|, from, payload);
  }

  /** After an edit, its own node accounts for all of it, the others for what was published. */
  lemma EditSpreadsItsDelta(cfg: Config, s: State, node: nat, u: Content, world: Content, m: nat)
    requires WellFormed(cfg, s) && Conserved(s, world) && node < |s.docs| && m < |s.docs|
    requires !(cfg.elidesEmpty && Merge(s.docs[node], u) == s.docs[node])
    ensures var s' := EditNode(cfg, s, node, u);
      |s'.docs| == |s.docs| &&
      Merge(s'.docs[m], Coming(s'.flight, m)) ==
        Merge(world, if m == node then u else Delta(s.docs[node], Merge(s.docs[node], u)))
  {
    var delta := Delta(s.docs[node], Merge(s.docs[node], u));
    FanOutComes(|s.docs|, node, Update(delta), m);
    ComingConcat(s.flight, FanOut(|s.docs|, node, Update(delta)), m);
    var d, coming := s.docs[m], Coming(s.flight, m);
    assert Merge(d, coming) == world;
    assert Merge(Merge(d, u), Merge(coming, Nothing)) == Merge(Merge(d, coming), u);
    assert Merge(d, Merge(coming, delta)) == Merge(Merge(d, coming), delta);
  }

  lemma PublishedDeltaIsCovered(d: Content, u: Content, world: Content)
    requires Covers(world, d)
    ensures Covers(Merge(world, u), Delta(d, Merge(d, u)))
  {
  }

  /** An edit adds exactly itself to the world if and only if none of it is lost in a gap. */
  lemma EditConservesExactly(cfg: Config, s: State, node: nat, u: Content, world: Content)
    requires WellFormed(cfg, s) && Conserved(s, world) && node < |s.docs| && |s.docs| > 1
    ensures Conserved(EditNode(cfg, s, node, u), Merge(world, u)) <==>
            Replicates(cfg, s.docs[node], u, world)
  {
    var delta := Delta(s.docs[node], Merge(s.docs[node], u));
    if Replicates(cfg, s.docs[node], u, world) {
      EditConserves(cfg, s, node, u, world);
    } else {
      var other := if node == 0 then 1 else 0;
      EditSpreadsItsDelta(cfg, s, node, u, world, other);
      assert Covers(Merge(world, u), u);
      assert Merge(world, delta) != Merge(world, u);
    }
  }

  lemma CoveredEditConserves(cfg: Config, s: State, node: nat, u: Content, world: Content)
    requires WellFormed(cfg, s) && Conserved(s, world) && node < |s.docs|
    requires !(cfg.elidesEmpty && Merge(s.docs[node], u) == s.docs[node])
    requires Covers(Merge(world, Delta(s.docs[node], Merge(s.docs[node], u))), u)
    ensures Conserved(EditNode(cfg, s, node, u), Merge(world, u))
  {
    var delta := Delta(s.docs[node], Merge(s.docs[node], u));
    assert Merge(s.docs[node], Coming(s.flight, node)) == world;
    PublishedDeltaIsCovered(s.docs[node], u, world);
    assert Merge(world, delta) == Merge(world, u);
    var s' := EditNode(cfg, s, node, u);
    forall m | 0 <= m < |s'.docs|
      ensures Merge(s'.docs[m], Coming(s'.flight, m)) == Merge(world, u)
    {
      EditSpreadsItsDelta(cfg, s, node, u, world, m);
    }
    FanOutIsFromOne(|s.docs|, node, Update(delta));
  }

  lemma GapFreeEditsReplicate(cfg: Config, d: Content, u: Content, world: Content)
    requires GapFree(d, u) && Covers(world, d)
    ensures Replicates(cfg, d, u, world)
  {
  }

  lemma EditConserves(cfg: Config, s: State, node: nat, u: Content, world: Content)
    requires WellFormed(cfg, s) && Conserved(s, world) && node < |s.docs|
    requires Replicates(cfg, s.docs[node], u, world)
    ensures Conserved(EditNode(cfg, s, node, u), Merge(world, u))
  {
    if cfg.elidesEmpty && Merge(s.docs[node], u) == s.docs[node] {
      assert Merge(s.docs[node], Coming(s.flight, node)) == world;
      assert Covers(s.docs[node], u) by {
        assert Merge(s.docs[node], u).ops == s.docs[node].ops;
        assert Merge(s.docs[node], u).dels == s.docs[node].dels;
      }
      assert Merge(world, u) == world;
    } else {
      CoveredEditConserves(cfg, s, node, u, world);
    }
  }

  lemma ApplyConserves(s: State, i: nat, world: Content)
    requires i < |s.flight| && Conserved(s, world)
    requires s.flight[i].to < |s.docs| && s.flight[i].from != s.flight[i].to
    ensures var p := s.flight[i];
      Conserved(State(s.docs[p.to := Merge(s.docs[p.to], ContentOf(p.payload))], Without(s.flight, i)), world)
  {
    var p := s.flight[i];
    forall n | 0 <= n < |s.docs|
      ensures var d := if n == p.to then Merge(s.docs[n], ContentOf(p.payload)) else s.docs[n];
        Merge(d, Coming(Without(s.flight, i), n)) == world
    {
      RemovingAPacket(s.flight, i, n);
      assert Merge(s.docs[n], Coming(s.flight, n)) == world;
    }
    assert forall k | 0 <= k < |Without(s.flight, i)| ::
      Without(s.flight, i)[k] == s.flight[if k < i then k else k + 1];
  }

  lemma DropConserves(s: State, i: nat, world: Content)
    requires i < |s.flight| && Conserved(s, world)
    requires s.flight[i].from == s.flight[i].to || ContentOf(s.flight[i].payload) == Nothing
    ensures Conserved(s.(flight := Without(s.flight, i)), world)
  {
    forall n | 0 <= n < |s.docs|
      ensures Merge(s.docs[n], Coming(Without(s.flight, i), n)) == world
    {
      RemovingAPacket(s.flight, i, n);
      assert Merge(s.docs[n], Coming(s.flight, n)) == world;
    }
    assert forall k | 0 <= k < |Without(s.flight, i)| ::
      Without(s.flight, i)[k] == s.flight[if k < i then k else k + 1];
  }

  lemma DeliverConserves(cfg: Config, s: State, i: nat, world: Content)
    requires GoodConfig(cfg) && WellFormed(cfg, s) && Conserved(s, world) && i < |s.flight|
    ensures Conserved(Step(cfg, s, Deliver(i)), world)
  {
    var p := s.flight[i];
    DropsExactlyOwn(cfg, p);
    if p.from == p.to {
      DropConserves(s, i, world);
    } else if p.payload.Update? || p.payload.Step2? {
      ApplyConserves(s, i, world);
    } else {
      DropConserves(s, i, world);
      var s' := s.(flight := Without(s.flight, i));
      assert Merge(s.docs[p.to], Coming(s.flight, p.to)) == world;
      if p.payload.Step1? {
        PublishConserves(s', p.to, Step2(EncodeDiff(s.docs[p.to], p.payload.sv)), world);
      } else if p.payload.QueryAwareness? {
        PublishConserves(s', p.to, AwarenessMsg, world);
      }
    }
  }

  lemma StepIsWellFormed(cfg: Config, s: State, a: Action)
    requires WellFormed(cfg, s) && Enabled(s, a)
    ensures WellFormed(cfg, Step(cfg, s, a))
  {
    match a
    case Edit(node, u) =>
      var after := Merge(s.docs[node], u);
      PublishIsWellFormed(cfg, s.(docs := s.docs[node := after]), node, Update(Delta(s.docs[node], after)));
    case Ask(node) =>
      PublishIsWellFormed(cfg, s, node, Step1(Vector(s.docs[node])));
      PublishIsWellFormed(cfg, Publish(s, node, Step1(Vector(s.docs[node]))), node, QueryAwareness);
    case Announce(node) => PublishIsWellFormed(cfg, s, node, AwarenessMsg);
    case Say(node) => PublishIsWellFormed(cfg, s, node, StatelessMsg);
    case Deliver(i) =>
      var p, s' := s.flight[i], s.(flight := Without(s.flight, i));
      assert WellFormed(cfg, s') by {
        assert forall k | 0 <= k < |s'.flight| :: s'.flight[k] == s.flight[if k < i then k else k + 1];
      }
      if p.payload.Step1? {
        PublishIsWellFormed(cfg, s', p.to, Step2(EncodeDiff(s.docs[p.to], p.payload.sv)));
      } else if p.payload.QueryAwareness? {
        PublishIsWellFormed(cfg, s', p.to, AwarenessMsg);
      }
  }

  /** What an action adds to the world. */
  function Adds(a: Action): Content {
    if a.Edit? then a.update else Nothing
  }

  lemma StepConserves(cfg: Config, s: State, a: Action, world: Content)
    requires GoodConfig(cfg) && WellFormed(cfg, s) && Enabled(s, a) && Conserved(s, world)
    requires a.Edit? ==> Replicates(cfg, s.docs[a.node], a.update, world)
    ensures Conserved(Step(cfg, s, a), Merge(world, Adds(a)))
  {
    assert Merge(world, Nothing) == world;
    match a
    case Edit(node, u) => EditConserves(cfg, s, node, u, world);
    case Ask(node) =>
      PublishConserves(s, node, Step1(Vector(s.docs[node])), world);
      PublishConserves(Publish(s, node, Step1(Vector(s.docs[node]))), node, QueryAwareness, world);
    case Announce(node) => PublishConserves(s, node, AwarenessMsg, world);
    case Say(node) => PublishConserves(s, node, StatelessMsg, world);
    case Deliver(i) => DeliverConserves(cfg, s, i, world);
  }

  // ----- whole runs -----

  predicate IsRun(cfg: Config, s: State, actions: seq<Action>)
    requires WellFormed(cfg, s)
    decreases |actions|
  {
    actions == [] ||
    (Enabled(s, actions[0]) &&
     (StepIsWellFormed(cfg, s, actions[0]); IsRun(cfg, Step(cfg, s, actions[0]), actions[1..])))
  }

  function After(cfg: Config, s: State, actions: seq<Action>): (s': State)
    requires WellFormed(cfg, s) && IsRun(cfg, s, actions)
    ensures WellFormed(cfg, s')
    decreases |actions|
  {
    if actions == [] then s
    else
      StepIsWellFormed(cfg, s, actions[0]);
      After(cfg, Step(cfg, s, actions[0]), actions[1..])
  }

  /** Every local edit of the run replicates where and when it is made. */
  predicate AllReplicate(cfg: Config, s: State, actions: seq<Action>, world: Content)
    requires WellFormed(cfg, s) && IsRun(cfg, s, actions)
    decreases |actions|
  {
    actions == [] ||
    (var a := actions[0];
     && (a.Edit? ==> Replicates(cfg, s.docs[a.node], a.update, world))
     && (StepIsWellFormed(cfg, s, a);
         AllReplicate(cfg, Step(cfg, s, a), actions[1..], Merge(world, Adds(a)))))
  }

  /** Every local edit of the run is gap-free where and when it is made. */
  predicate AllGapFree(cfg: Config, s: State, actions: seq<Action>)
    requires WellFormed(cfg, s) && IsRun(cfg, s, actions)
    decreases |actions|
  {
    actions == [] ||
    ((actions[0].Edit? ==> GapFree(s.docs[actions[0].node], actions[0].update)) &&
     (StepIsWellFormed(cfg, s, actions[0]); AllGapFree(cfg, Step(cfg, s, actions[0]), actions[1..])))
  }

  function World(start: Content, actions: seq<Action>): Content
    decreases |actions|
  {
    if actions == [] then start else World(Merge(start, Adds(actions[0])), actions[1..])
  }

  /** At every point of the run the documents and the flight make up the world so far. */
  predicate ConservedThroughout(cfg: Config, s: State, actions: seq<Action>, world: Content)
    requires WellFormed(cfg, s) && IsRun(cfg, s, actions)
    decreases |actions|
  {
    && Conserved(s, world)
    && (actions == [] ||
        (var a := actions[0];
         StepIsWellFormed(cfg, s, a);
         ConservedThroughout(cfg, Step(cfg, s, a), actions[1..], Merge(world, Adds(a)))))
  }

  lemma StepKeepsCount(cfg: Config, s: State, a: Action)
    requires WellFormed(cfg, s) && Enabled(s, a)
    ensures |Step(cfg, s, a).docs| == |s.docs|
  {
  }

  /**
   Nothing is lost between nodes: over every run, each node's document plus what is in flight to
   it is exactly the starting content and all edits made so far, at every point, if and only if
   every edit replicates.
   */
  lemma {:induction false} ContentIsConserved(cfg: Config, s: State, actions: seq<Action>, world: Content)
    requires GoodConfig(cfg) && WellFormed(cfg, s) && IsRun(cfg, s, actions)
    requires |s.docs| > 1 && Conserved(s, world)
    ensures ConservedThroughout(cfg, s, actions, world) <==> AllReplicate(cfg, s, actions, world)
    decreases |actions|
  {
    if actions != [] {
      var a := actions[0];
      StepIsWellFormed(cfg, s, a);
      StepKeepsCount(cfg, s, a);
      if a.Edit? {
        EditConservesExactly(cfg, s, a.node, a.update, world);
      } else {
        StepConserves(cfg, s, a, world);
      }
      if Conserved(Step(cfg, s, a), Merge(world, Adds(a))) {
        ContentIsConserved(cfg, Step(cfg, s, a), actions[1..], Merge(world, Adds(a)));
      }
    }
  }

  lemma {:induction false} RunConserves(cfg: Config, s: State, actions: seq<Action>, world: Content)
    requires GoodConfig(cfg) && WellFormed(cfg, s) && IsRun(cfg, s, actions)
    requires AllReplicate(cfg, s, actions, world) && Conserved(s, world)
    ensures Conserved(After(cfg, s, actions), World(world, actions))
    decreases |actions|
  {
    if actions != [] {
      StepIsWellFormed(cfg, s, actions[0]);
      StepConserves(cfg, s, actions[0], world);
      RunConserves(cfg, Step(cfg, s, actions[0]), actions[1..], Merge(world, Adds(actions[0])));
    }
  }

  /** Gap-free edits are the simplest ones that replicate. */
  lemma {:induction false} GapFreeRunsReplicate(cfg: Config, s: State, actions: seq<Action>, world: Content)
    requires GoodConfig(cfg) && WellFormed(cfg, s) && IsRun(cfg, s, actions)
    requires AllGapFree(cfg, s, actions) && Conserved(s, world)
    ensures AllReplicate(cfg, s, actions, world)
    decreases |actions|
  {
    if actions != [] {
      var a := actions[0];
      StepIsWellFormed(cfg, s, a);
      if a.Edit? {
        assert Merge(s.docs[a.node], Coming(s.flight, a.node)) == world;
        GapFreeEditsReplicate(cfg, s.docs[a.node], a.update, world);
      }
      StepConserves(cfg, s, a, world);
      GapFreeRunsReplicate(cfg, Step(cfg, s, a), actions[1..], Merge(world, Adds(a)));
    }
  }

  predicate SameStart(cfg: Config, s: State, start: Content) {
    WellFormed(cfg, s) && s.flight == [] && forall n | 0 <= n < |s.docs| :: s.docs[n] == start
  }

  lemma SameStartIsConserved(cfg: Config, s: State, start: Content)
    requires SameStart(cfg, s, start)
    ensures Conserved(s, start)
  {
    forall n | 0 <= n < |s.docs|
      ensures Merge(s.docs[n], Coming(s.flight, n)) == start
    {
    }
  }

  /**
   Cluster convergence. Nodes that start with equal documents and stay resident: any edit made
   during the run is, for every node, in its document or in flight to it; and whenever nothing
   is in flight, all documents are equal to the start plus all edits. Edits may have gaps, as
   long as what they hold back is already known to the cluster.
   */
  lemma ClusterConverges(cfg: Config, s: State, actions: seq<Action>, start: Content)
    requires GoodConfig(cfg) && SameStart(cfg, s, start)
    requires IsRun(cfg, s, actions)
    requires AllReplicate(cfg, s, actions, start)
    ensures var s' := After(cfg, s, actions);
      && (forall k, n | 0 <= k < |actions| && actions[k].Edit? && 0 <= n < |s'.docs| ::
            Covers(Merge(s'.docs[n], Coming(s'.flight, n)), actions[k].update))
      && (s'.flight == [] ==> forall n | 0 <= n < |s'.docs| :: s'.docs[n] == World(start, actions))
  {
    SameStartIsConserved(cfg, s, start);
    RunConserves(cfg, s, actions, start);
    var s' := After(cfg, s, actions);
    forall k | 0 <= k < |actions| && actions[k].Edit?
      ensures Covers(World(start, actions), actions[k].update)
    {
      EditsAreInTheWorld(start, actions, k);
    }
    if s'.flight == [] {
      forall n | 0 <= n < |s'.docs|
        ensures s'.docs[n] == World(start, actions)
      {
        assert Merge(s'.docs[n], Coming(s'.flight, n)) == World(start, actions);
        assert Merge(s'.docs[n], Nothing) == s'.docs[n];
      }
    }
  }

  lemma {:induction false} WorldGrows(start: Content, actions: seq<Action>)
    ensures Covers(World(start, actions), start)
    decreases |actions|
  {
    if actions != [] {
      WorldGrows(Merge(start, Adds(actions[0])), actions[1..]);
    }
  }

  lemma {:induction false} EditsAreInTheWorld(start: Content, actions: seq<Action>, k: nat)
    requires k < |actions|
    ensures Covers(World(start, actions), Adds(actions[k]))
    decreases |actions|
  {
    var next := Merge(start, Adds(actions[0]));
    if k == 0 {
      WorldGrows(next, actions[1..]);
    } else {
      EditsAreInTheWorld(next, actions[1..], k - 1);
    }
  }

  // ----- questions are answered -----

  lemma {:induction false} FanOutAt(n: nat, from: nat, payload: Payload, k: nat)
    requires k < n
    ensures |FanOut(n, from, payload)| == n && FanOut(n, from, payload)[k] == Packet(from, k, payload)
    decreases n
  {
    if n > 1 {
      FanOutAt(n - 1, from, payload, if k < n - 1 then k else 0);
    }
  }

  /** A publication is on its way to every node, behind what was in flight before. */
  lemma PublishReaches(s: State, from: nat, payload: Payload, node: nat)
    requires node < |s.docs|
    ensures var flight := Publish(s, from, payload).flight;
      && |flight| == |s.flight| + |s.docs| && s.flight <= flight
      && flight[|s.flight| + node] == Packet(from, node, payload)
  {
    FanOutAt(|s.docs|, from, payload, node);
  }

  /** A change of awareness and a stateless text go out to every node. */
  lemma NoticesGoOut(cfg: Config, s: State, from: nat, node: nat)
    requires WellFormed(cfg, s) && from < |s.docs| && node < |s.docs|
    ensures Packet(from, node, AwarenessMsg) in Step(cfg, s, Announce(from)).flight
    ensures Packet(from, node, StatelessMsg) in Step(cfg, s, Say(from)).flight
    ensures Packet(from, node, QueryAwareness) in Step(cfg, s, Ask(from)).flight
  {
    PublishReaches(s, from, AwarenessMsg, node);
    PublishReaches(s, from, StatelessMsg, node);
    PublishReaches(Publish(s, from, Step1(Vector(s.docs[from]))), from, QueryAwareness, node);
  }

  lemma QuestionGoesOut(cfg: Config, s: State, asker: nat, peer: nat)
    requires WellFormed(cfg, s) && asker < |s.docs| && peer < |s.docs|
    ensures var s', i := Step(cfg, s, Ask(asker)), |s.flight| + peer;
      && WellFormed(cfg, s') && s'.docs == s.docs && i < |s'.flight|
      && s'.flight[i] == Packet(asker, peer, Step1(Vector(s.docs[asker])))
  {
    var asked := Publish(s, asker, Step1(Vector(s.docs[asker])));
    StepIsWellFormed(cfg, s, Ask(asker));
    PublishReaches(s, asker, Step1(Vector(s.docs[asker])), peer);
    PublishReaches(asked, asker, QueryAwareness, peer);
  }

  lemma QuestionIsAnswered(cfg: Config, s: State, i: nat)
    requires GoodConfig(cfg) && WellFormed(cfg, s) && i < |s.flight|
    requires s.flight[i].payload.Step1? && s.flight[i].from != s.flight[i].to
    ensures var p, s' := s.flight[i], Step(cfg, s, Deliver(i));
      var j := |s.flight| - 1 + p.from;
      && WellFormed(cfg, s') && s'.docs == s.docs && j < |s'.flight|
      && s'.flight[j] == Packet(p.to, p.from, Step2(EncodeDiff(s.docs[p.to], p.payload.sv)))
  {
    var p := s.flight[i];
    DropsExactlyOwn(cfg, p);
    StepIsWellFormed(cfg, s, Deliver(i));
    PublishReaches(s.(flight := Without(s.flight, i)), p.to, Step2(EncodeDiff(s.docs[p.to], p.payload.sv)),
                   p.from);
  }

  lemma AnswerIsApplied(cfg: Config, s: State, j: nat)
    requires GoodConfig(cfg) && WellFormed(cfg, s) && j < |s.flight|
    requires s.flight[j].payload.Step2? && s.flight[j].from != s.flight[j].to
    ensures var p, s' := s.flight[j], Step(cfg, s, Deliver(j));
      s'.docs == s.docs[p.to := Merge(s.docs[p.to], p.payload.content)]
  {
    DropsExactlyOwn(cfg, s.flight[j]);
  }

  /**
   A node that asks is answered: its question is on its way to every peer; the peer that gets it
   answers to the asker; and with that answer the asker shows at least what the peer showed.
   */
  lemma AskedPeerAnswers(cfg: Config, s: State, asker: nat, peer: nat) returns (i: nat, j: nat)
    requires GoodConfig(cfg) && WellFormed(cfg, s)
    requires asker < |s.docs| && peer < |s.docs| && asker != peer
    ensures var s1 := Step(cfg, s, Ask(asker));
      && WellFormed(cfg, s1) && i < |s1.flight|
      && s1.flight[i] == Packet(asker, peer, Step1(Vector(s.docs[asker])))
      && var s2 := Step(cfg, s1, Deliver(i));
         && WellFormed(cfg, s2) && j < |s2.flight| && s2.docs == s.docs
         && s2.flight[j].from == peer && s2.flight[j].to == asker
         && var s3 := Step(cfg, s2, Deliver(j));
            && |s3.docs| == |s.docs| && Covers(s3.docs[asker], s.docs[asker])
            && Covers(Visible(s3.docs[asker]), Visible(s.docs[peer]))
  {
    QuestionGoesOut(cfg, s, asker, peer);
    var s1 := Step(cfg, s, Ask(asker));
    i := |s.flight| + peer;
    QuestionIsAnswered(cfg, s1, i);
    j := |s1.flight| - 1 + asker;
    AnswerIsApplied(cfg, Step(cfg, s1, Deliver(i)), j);
    AnswerCompletes(s.docs[asker], s.docs[peer]);
  }

  lemma AnswerCompletes(mine: Content, theirs: Content)
    ensures Covers(Visible(Merge(mine, EncodeDiff(theirs, Vector(mine)))), Visible(theirs))
  {
    forall id | id in Visible(theirs).ops && Below(Vector(mine), id)
      ensures id in mine.ops
    {
      VectorIsExact(mine, id);
    }
    DiffCompletesAnyReplica(theirs, Vector(mine), mine);
  }

  // ----- quiescence -----

  /** A question weighs one reply fan-out more than an answer. */
  function Weight(n: nat, p: Packet): nat {
    if p.payload.Step1? || p.payload.QueryAwareness? then n + 1 else 1
  }

  function Load(n: nat, flight: seq<Packet>): nat {
    if flight == [] then 0
    else Load(n, flight[..|flight| - 1]) + Weight(n, flight[|flight| - 1])
  }

  lemma {:induction false} LoadConcat(n: nat, a: seq<Packet>, b: seq<Packet>)
    ensures Load(n, a + b) == Load(n, a) + Load(n, b)
    decreases |b|
  {
    if b == [] {
      assert a + b == a;
    } else {
      assert (a + b)[..|a + b| - 1] == a + b[..|b| - 1];
      LoadConcat(n, a, b[..|b| - 1]);
    }
  }

  lemma {:induction false} FanOutLoad(n: nat, k: nat, from: nat, payload: Payload)
    requires !payload.Step1? && !payload.QueryAwareness?
    ensures Load(n, FanOut(k, from, payload)) == k
    decreases k
  {
    if k > 0 {
      FanOutLoad(n, k - 1, from, payload);
      var all := FanOut(k, from, payload);
      assert all[..|all| - 1] == FanOut(k - 1, from, payload);
    }
  }

  lemma RemovingLightens(n: nat, flight: seq<Packet>, i: nat)
    requires i < |flight|
    ensures Load(n, flight) == Load(n, Without(flight, i)) + Weight(n, flight[i])
  {
    var a, p, b := flight[..i], flight[i], flight[i + 1..];
    assert flight == (a + [p]) + b;
    LoadConcat(n, a + [p], b);
    LoadConcat(n, a, [p]);
    LoadConcat(n, a, b);
    assert [p][..0] == [];
    assert Load(n, [p]) == Weight(n, p);
  }

  lemma AnswerLoad(s: State, from: nat, payload: Payload)
    requires !payload.Step1? && !payload.QueryAwareness?
    ensures Load(|s.docs|, Publish(s, from, payload).flight) == Load(|s.docs|, s.flight) + |s.docs|
  {
    FanOutLoad(|s.docs|, |s.docs|, from, payload);
    LoadConcat(|s.docs|, s.flight, FanOut(|s.docs|, from, payload));
  }

  /** Every delivery makes the load strictly smaller, because nothing from Redis is republished. */
  lemma DeliveryShrinksTheLoad(cfg: Config, s: State, i: nat)
    requires WellFormed(cfg, s) && i < |s.flight|
    ensures var n := |s.docs|;
      |Step(cfg, s, Deliver(i)).docs| == n
      && Load(n, Step(cfg, s, Deliver(i)).flight) < Load(n, s.flight)
  {
    var p, s' := s.flight[i], s.(flight := Without(s.flight, i));
    RemovingLightens(|s.docs|, s.flight, i);
    if p.payload.Step1? {
      AnswerLoad(s', p.to, Step2(EncodeDiff(s.docs[p.to], p.payload.sv)));
    } else if p.payload.QueryAwareness? {
      AnswerLoad(s', p.to, AwarenessMsg);
    }
  }

  predicate OnlyDeliveries(actions: seq<Action>) {
    forall i | 0 <= i < |actions| :: actions[i].Deliver?
  }

  /** Without new input every delivery order ends, after at most `Load` deliveries. */
  lemma {:induction false} ReplicationQuiesces(cfg: Config, s: State, actions: seq<Action>)
    requires WellFormed(cfg, s) && IsRun(cfg, s, actions) && OnlyDeliveries(actions)
    ensures |actions| <= Load(|s.docs|, s.flight)
    decreases |actions|
  {
    if actions != [] {
      StepIsWellFormed(cfg, s, actions[0]);
      DeliveryShrinksTheLoad(cfg, s, actions[0].index);
      ReplicationQuiesces(cfg, Step(cfg, s, actions[0]), actions[1..]);
    }
  }

  /** Delivering until nothing is left: such an order exists, and it ends in agreement. */
  lemma {:induction false} QuiescenceIsAgreement(cfg: Config, s: State, world: Content)
    returns (actions: seq<Action>)
    requires GoodConfig(cfg) && WellFormed(cfg, s) && Conserved(s, world)
    ensures OnlyDeliveries(actions) && IsRun(cfg, s, actions)
    ensures var s' := After(cfg, s, actions);
      s'.flight == [] && |s'.docs| == |s.docs| && forall n | 0 <= n < |s.docs| :: s'.docs[n] == world
    decreases Load(|s.docs|, s.flight)
  {
    if s.flight == [] {
      actions := [];
      forall n | 0 <= n < |s.docs|
        ensures s.docs[n] == world
      {
        assert Merge(s.docs[n], Coming(s.flight, n)) == world;
        assert Merge(s.docs[n], Nothing) == s.docs[n];
      }
    } else {
      StepIsWellFormed(cfg, s, Deliver(0));
      DeliverConserves(cfg, s, 0, world);
      DeliveryShrinksTheLoad(cfg, s, 0);
      var s' := Step(cfg, s, Deliver(0));
      var rest := QuiescenceIsAgreement(cfg, s', world);
      actions := [Deliver(0)] + rest;
      assert actions[0] == Deliver(0) && actions[1..] == rest;
    }
  }
}
