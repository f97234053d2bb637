/**
 What a client gets to see: the sync handshake brings both sides to the same document, the
 acknowledgement of an update, and who is told about awareness states.
 */
module Replies {
  import opened Common
  import opened Crdt
  import opened ActorSpec
  import F = Fanout

  // ----- the sync handshake -----

  /** The next two sends to this connection find room. */
  predicate RoomForTwo(cfg: Config, id: nat, c: Conn) {
    cfg.net(id, c.attempts) == Accepted && cfg.net(id, c.attempts + 1) == Accepted
  }

  /** A SyncStep1 is answered by the missing content and by the server's own state vector. */
  lemma Step1IsAnswered(cfg: Config, s: State, at: nat, encodes: bool, id: nat,
                        sv: StateVector, hooks: seq<Verdict>)
    requires id in s.clients.conns && RoomForTwo(cfg, id, s.clients.conns[id])
    ensures var c := s.clients.conns[id];
      var s' := FromClient(cfg, s, at, encodes, id, SyncMsg(Step1(sv)), hooks);
      && id in s'.clients.conns && s'.doc == s.doc
      && s'.clients.conns[id].sent == c.sent + [Frame(c.address, SyncStep2(sv, EncodeDiff(s.doc, sv))),
                                               Frame(c.address, SyncStep1(Vector(s.doc)))]
      && s'.clients.conns[id].readOnly == c.readOnly
      && sv in F.Asked(s'.clients.conns[id].sent)
  {
    var c := s.clients.conns[id];
    var answer := Frame(c.address, SyncStep2(sv, EncodeDiff(s.doc, sv)));
    var question := Frame(c.address, SyncStep1(Vector(s.doc)));
    F.AskedGrows(c.sent, answer);
    F.AskedGrows(c.sent + [answer], question);
    assert c.sent + [answer] + [question] == c.sent + [answer, question];
  }

  /**
   The handshake. A writing client sends its state vector, merges the answer, and sends back
   what the server's vector shows it is missing. Then each side shows at least what the other
   showed, and if neither held anything back, both hold exactly the union.
   */
  lemma HandshakeCompletes(cfg: Config, s: State, at: nat, encodes: bool, id: nat, replica: Content, hooks: seq<Verdict>)
    requires id in s.clients.conns && RoomForTwo(cfg, id, s.clients.conns[id])
    requires !s.clients.conns[id].readOnly && Rejection(hooks).None?
    ensures var s1 := FromClient(cfg, s, at, encodes, id, SyncMsg(Step1(Vector(replica))), hooks);
      id in s1.clients.conns &&
      var sent := s1.clients.conns[id].sent;
      |sent| >= 2 && sent[|sent| - 1].Frame? && sent[|sent| - 1].body.SyncStep1? &&
      var client := Merge(replica, F.Carried(sent[|sent| - 2]));
      var back := EncodeDiff(replica, sent[|sent| - 1].body.sv);
      var s2 := FromClient(cfg, s1, at, encodes, id, SyncMsg(Update(Decoded(back))), hooks);
      && Covers(Visible(client), Visible(s.doc))
      && Covers(Visible(s2.doc), Visible(replica))
      && (Visible(replica) == replica && Visible(s.doc) == s.doc ==> client == s2.doc == Merge(replica, s.doc))
  {
    var d := s.doc;
    Step1IsAnswered(cfg, s, at, encodes, id, Vector(replica), hooks);
    forall op | op in Visible(d).ops && Below(Vector(replica), op)
      ensures op in replica.ops
    {
      VectorIsExact(replica, op);
    }
    DiffCompletesAnyReplica(d, Vector(replica), replica);
    forall op | op in Visible(replica).ops && Below(Vector(d), op)
      ensures op in d.ops
    {
      VectorIsExact(d, op);
    }
    DiffCompletesAnyReplica(replica, Vector(d), d);
    if Visible(replica) == replica && Visible(d) == d {
      HandshakeConverges(replica, d);
    }
    assert Decoded(EncodeDiff(replica, Vector(d))).ApplyTo(d) == Merge(d, EncodeDiff(replica, Vector(d)));
  }

  // ----- the acknowledgement of an update -----

  /** The last frame queued for the connection reports the update as saved. */
  predicate ToldSaved(before: Conn, after: Conn) {
    after.sent == before.sent + [Frame(before.address, SyncStatus(true))]
  }

  /**
   A client is told `saved` exactly if it may write and every hook accepted. The update is then
   in the document if it decoded and applied; if it did not, the document is unchanged and the
   client is told `saved` all the same.
   */
  lemma SavedMeansAccepted(cfg: Config, s: State, at: nat, encodes: bool, id: nat, u: Incoming, hooks: seq<Verdict>)
    requires id in s.clients.conns && cfg.net(id, s.clients.conns[id].attempts) == Accepted
    ensures var c := s.clients.conns[id];
      var s' := FromClient(cfg, s, at, encodes, id, SyncMsg(Update(u)), hooks);
      && id in s'.clients.conns
      && (ToldSaved(c, s'.clients.conns[id]) <==> !c.readOnly && Rejection(hooks).None?)
      && (ToldSaved(c, s'.clients.conns[id]) && u.Decoded? ==> s'.doc == Merge(s.doc, u.update))
      && (!u.Decoded? ==> s'.doc == s.doc && s'.ledger == s.ledger && s'.published == s.published)
      && (!ToldSaved(c, s'.clients.conns[id]) ==> s'.doc == s.doc)
  {
    var c := s.clients.conns[id];
    var s' := FromClient(cfg, s, at, encodes, id, SyncMsg(Update(u)), hooks);
    var m := s'.clients.conns[id].sent[|c.sent|];
    assert s'.clients.conns[id].sent == c.sent + [m];
    assert (c.sent + [Frame(c.address, SyncStatus(true))])[|c.sent|] == Frame(c.address, SyncStatus(true));
  }

  /** The gap: an update that fails to decode or to apply is acknowledged as saved all the same. */
  lemma LostUpdateIsAcknowledged(cfg: Config, s: State, at: nat, encodes: bool, id: nat, u: Incoming, hooks: seq<Verdict>)
    requires id in s.clients.conns && cfg.net(id, s.clients.conns[id].attempts) == Accepted
    requires !s.clients.conns[id].readOnly && Rejection(hooks).None? && !u.Decoded?
    ensures var s' := FromClient(cfg, s, at, encodes, id, SyncMsg(Update(u)), hooks);
      s'.doc == s.doc && id in s'.clients.conns && ToldSaved(s.clients.conns[id], s'.clients.conns[id])
  {
    SavedMeansAccepted(cfg, s, at, encodes, id, u, hooks);
  }

  /** A rejected update closes the client's queue but leaves the connection in the map. */
  lemma RejectionOnlyQueuesAClose(cfg: Config, s: State, at: nat, encodes: bool, id: nat, u: Incoming, hooks: seq<Verdict>)
    requires id in s.clients.conns && !s.clients.conns[id].readOnly && Rejection(hooks).Some?
    ensures var s' := FromClient(cfg, s, at, encodes, id, SyncMsg(Update(u)), hooks);
      && s'.doc == s.doc && s'.ledger == s.ledger && s'.clients.conns.Keys == s.clients.conns.Keys
      && (cfg.net(id, s.clients.conns[id].attempts) == Accepted ==>
            !F.Deliverable(s'.clients.conns[id]))
  {
    var s' := FromClient(cfg, s, at, encodes, id, SyncMsg(Update(u)), hooks);
    if cfg.net(id, s.clients.conns[id].attempts) == Accepted {
      var sent := s'.clients.conns[id].sent;
      assert sent[|sent| - 1].Close?;
    }
  }

  // ----- who is told about awareness -----

  /** The client ids mentioned in awareness frames queued for the connection. */
  function Announced(sent: seq<Out>): set<nat> {
    if sent == [] then {}
    else
      var m := sent[|sent| - 1];
      Announced(sent[..|sent| - 1]) + if m.Frame? && m.body.Awareness? then m.body.clients else {}
  }

  predicate AddressedTo(sent: seq<Out>, address: string) {
    forall i | 0 <= i < |sent| && sent[i].Frame? :: sent[i].address == address
  }

  /**
   Every frame carries the connection's own address; and if the queue works and had room for
   the greeting, the client has been told about all of `live`.
   */
  predicate Informed(cfg: Config, id: nat, c: Conn, live: set<nat>) {
    && AddressedTo(c.sent, c.address)
    && (!c.severed && cfg.net(id, 0) != Full ==> live <= Announced(c.sent))
  }

  predicate AllInformed(cfg: Config, cl: Clients) {
    forall id | id in cl.conns :: Informed(cfg, id, cl.conns[id], cl.aware.Keys)
  }

  lemma AnnouncedGrows(sent: seq<Out>, m: Out)
    ensures Announced(sent + [m]) ==
      Announced(sent) + if m.Frame? && m.body.Awareness? then m.body.clients else {}
  {
    assert (sent + [m])[..|sent|] == sent;
  }

  lemma SendingInforms(cfg: Config, id: nat, c: Conn, m: Out, live: set<nat>)
    requires Informed(cfg, id, c, live) && (m.Frame? ==> m.address == c.address)
    ensures Informed(cfg, id, TrySend(cfg, id, c, m), live)
  {
    AnnouncedGrows(c.sent, m);
    var all := c.sent + [m];
    assert forall i | 0 <= i < |c.sent| :: all[i] == c.sent[i];
    assert AddressedTo(all, c.address);
  }

  lemma ReplyInforms(cfg: Config, cl: Clients, id: nat, body: Body, code: nat)
    requires AllInformed(cfg, cl)
    ensures AllInformed(cfg, Reply(cfg, cl, id, body)) && AllInformed(cfg, SendClose(cfg, cl, id, code))
  {
    if id in cl.conns {
      SendingInforms(cfg, id, cl.conns[id], Frame(cl.conns[id].address, body), cl.aware.Keys);
      SendingInforms(cfg, id, cl.conns[id], Close(code), cl.aware.Keys);
    }
  }

  /** A broadcast of `clients` informs everyone who stays about them as well. */
  lemma BroadcastInforms(cfg: Config, cl: Clients, body: Body, live: set<nat>)
    requires forall id | id in cl.conns :: Informed(cfg, id, cl.conns[id], live)
    requires cl.aware.Keys <= live + if body.Awareness? then body.clients else {}
    ensures AllInformed(cfg, Broadcast(cfg, cl, body))
  {
    var cl' := Broadcast(cfg, cl, body);
    forall id | id in cl'.conns
      ensures Informed(cfg, id, cl'.conns[id], cl'.aware.Keys)
    {
      var c := cl.conns[id];
      SendingInforms(cfg, id, c, Frame(c.address, body), live);
      AnnouncedGrows(c.sent, Frame(c.address, body));
    }
  }

  lemma GreetingInforms(cfg: Config, id: nat, blank: Conn, live: set<nat>)
    requires blank.sent == [] && blank.attempts == 0
    ensures Informed(cfg, id, TrySend(cfg, id, blank, Frame(blank.address, Awareness(live))), live)
  {
    var hello := Frame(blank.address, Awareness(live));
    AnnouncedGrows([], hello);
    assert [] + [hello] == [hello];
  }

  lemma AddConnectionInforms(cfg: Config, cl: Clients, id: nat, address: string, readOnly: bool)
    requires AllInformed(cfg, cl)
    ensures var cl' := AddConnection(cfg, cl, id, address, readOnly, true);
      && AllInformed(cfg, cl')
      && id in cl'.conns && cl'.conns[id].readOnly == readOnly && cl'.conns[id].address == address
  {
    var blank := Conn(address, readOnly, {}, 0, [], false);
    GreetingInforms(cfg, id, blank, cl.aware.Keys);
    var cl' := AddConnection(cfg, cl, id, address, readOnly, true);
    assert Informed(cfg, id, cl'.conns[id], cl.aware.Keys);
  }

  lemma RemoveConnectionInforms(cfg: Config, cl: Clients, id: nat)
    requires AllInformed(cfg, cl)
    ensures AllInformed(cfg, RemoveConnection(cfg, cl, id, true))
  {
    if id in cl.conns {
      var gone := cl.conns[id].clientIds;
      BroadcastInforms(cfg, TakeOut(cl, id), Awareness(gone), cl.aware.Keys);
    }
  }

  lemma HandleAwarenessInforms(cfg: Config, cl: Clients, entries: map<nat, bool>, newer: set<nat>,
                               origin: Origin)
    requires AllInformed(cfg, cl)
    ensures AllInformed(cfg, HandleAwareness(cfg, cl, entries, newer, origin, true))
  {
    var cl1 := cl.(aware := ApplyAwareness(cl.aware, entries, newer, origin));
    var cl2 := TrackClients(cl1, origin, entries.Keys);
    BroadcastInforms(cfg, cl2, Awareness(entries.Keys), cl.aware.Keys);
  }

  lemma ClientFrameInforms(cfg: Config, s: State, id: nat, msg: Message, hooks: seq<Verdict>)
    requires AllInformed(cfg, s.clients)
    ensures AllInformed(cfg, HandleClientFrame(cfg, s, id, msg, hooks, true).clients)
  {
    if id in s.clients.conns {
      var cl := s.clients;
      match msg
      case SyncMsg(Step1(sv)) =>
        var answer := SyncStep2(sv, EncodeDiff(s.doc, sv));
        ReplyInforms(cfg, cl, id, answer, 0);
        ReplyInforms(cfg, Reply(cfg, cl, id, answer), id, SyncStep1(Vector(s.doc)), 0);
      case SyncMsg(Update(u)) =>
        ReplyInforms(cfg, cl, id, SyncStatus(!cl.conns[id].readOnly),
                     if Rejection(hooks).Some? then Rejection(hooks).value else 0);
      case AwarenessMsg(entries, newer) =>
        HandleAwarenessInforms(cfg, cl, entries, newer, Connection(id));
      case QueryAwareness => ReplyInforms(cfg, cl, id, Awareness(cl.aware.Keys), 0);
      case CloseMsg =>
        ReplyInforms(cfg, cl, id, SyncStatus(true), ProviderInitiated);
        RemoveConnectionInforms(cfg, SendClose(cfg, cl, id, ProviderInitiated), id);
      case BroadcastStateless(_) =>
        ReplyInforms(cfg, cl, id, SyncStatus(true), ResetConnection);
        RemoveConnectionInforms(cfg, SendClose(cfg, cl, id, ResetConnection), id);
      case _ =>
    }
  }

  lemma HandleCommandInforms(cfg: Config, s0: State, i: Input)
    requires AllInformed(cfg, s0.clients) && i.encodes
    ensures AllInformed(cfg, HandleCommand(cfg, s0, i).0.clients)
  {
    var s := Tick(s0, i.at);
    match i.cmd
    case AddConn(id, address, readOnly) => AddConnectionInforms(cfg, s.clients, id, address, readOnly);
    case ClientFrame(id, msg, hooks) => ClientFrameInforms(cfg, s, id, msg, hooks);
    case RemoveConn(id, _) => RemoveConnectionInforms(cfg, s.clients, id);
    case ExternalFrame(msg, _) =>
      match msg {
        case AwarenessMsg(entries, newer) =>
          HandleAwarenessInforms(cfg, s.clients, entries, newer, Redis);
        case BroadcastStateless(payload) =>
          BroadcastInforms(cfg, s.clients, Stateless(payload), s.clients.aware.Keys);
        case _ =>
      }
    case _ =>
  }

  predicate Encodes(batch: seq<Input>) {
    forall i | 0 <= i < |batch| :: batch[i].encodes
  }

  lemma {:induction false} HandleBatchInforms(cfg: Config, s: State, batch: seq<Input>)
    requires AllInformed(cfg, s.clients) && Encodes(batch)
    ensures AllInformed(cfg, HandleBatch(cfg, s, batch).0.clients)
    decreases |batch|
  {
    if batch != [] {
      HandleCommandInforms(cfg, s, batch[0]);
      var (s', exit) := HandleCommand(cfg, s, batch[0]);
      if !exit {
        HandleBatchInforms(cfg, s', batch[1..]);
      }
    }
  }

  lemma StepInforms(cfg: Config, s: State, e: Event)
    requires AllInformed(cfg, s.clients) && (e.Mail? ==> Encodes(e.batch))
    ensures AllInformed(cfg, Step(cfg, s, e).0.clients)
  {
    if e.Mail? {
      HandleBatchInforms(cfg, s, e.batch);
      var s' := HandleBatch(cfg, s, e.batch).0;
      BroadcastInforms(cfg, s'.clients, SyncUpdate(Owed(s')), s'.clients.aware.Keys);
    }
  }

  /**
   Over every run in which awareness states encode: each frame queued for a connection carries
   that connection's address, and a client whose queue works and had room for the greeting has
   been told about every live awareness state.
   */
  lemma {:induction false} ClientsAreInformed(cfg: Config, s: State, es: seq<Event>)
    requires AllInformed(cfg, s.clients)
    requires forall i | 0 <= i < |es| && es[i].Mail? :: Encodes(es[i].batch)
    ensures AllInformed(cfg, After(cfg, s, es).clients)
    decreases |es|
  {
    if es != [] {
      StepInforms(cfg, s, es[0]);
      assert forall i | 0 <= i < |es[1..]| :: es[1..][i] == es[i + 1];
      ClientsAreInformed(cfg, Step(cfg, s, es[0]).0, es[1..]);
    }
  }

  // ----- what an awareness update does -----

  /** Some connection that was evicted had mentioned `cid`, before or in this update. */
  predicate LostItsOwner(before: Clients, after: Clients, entries: map<nat, bool>, origin: Origin, cid: nat) {
    exists id | id in before.conns && id !in after.conns ::
      cid in before.conns[id].clientIds || (origin == Connection(id) && cid in entries)
  }

  /** Who wrote `cid` last, if it is live, once the newer entries are in. */
  function WriterOf(aware: map<nat, Origin>, entries: map<nat, bool>, newer: set<nat>, origin: Origin, cid: nat)
    : Option<Origin>
  {
    if cid in entries && cid in newer then (if entries[cid] then Some(origin) else None)
    else if cid in aware then Some(aware[cid])
    else None
  }

  /**
   After an awareness update a state is live exactly if its last newer entry is, and no
   connection that had mentioned it was evicted for lagging behind the broadcast of this very
   update; its writer is whoever sent that entry. A connection is evicted exactly if the change
   was broadcast and its queue was full.
   */
  lemma AwarenessIsLastWriterWins(cfg: Config, cl: Clients, entries: map<nat, bool>, newer: set<nat>,
                                  origin: Origin, encodes: bool, cid: nat)
    ensures var cl' := HandleAwareness(cfg, cl, entries, newer, origin, encodes);
      var writer := WriterOf(cl.aware, entries, newer, origin, cid);
      && (cid in cl'.aware <==> writer.Some? && !LostItsOwner(cl, cl', entries, origin, cid))
      && (cid in cl'.aware ==> Some(cl'.aware[cid]) == writer)
      && cl'.conns.Keys == cl.conns.Keys - if encodes then Lagging(cfg, cl.conns) else {}
  {
    var cl1 := cl.(aware := ApplyAwareness(cl.aware, entries, newer, origin));
    var cl2 := TrackClients(cl1, origin, entries.Keys);
    var cl' := HandleAwareness(cfg, cl, entries, newer, origin, encodes);
    TrackedByTheEvicted(cfg, cl, entries, origin, cl1, cid);
    ApplyingWrites(cl.aware, entries, newer, origin, cid);
    assert encodes ==> cl'.aware == cl2.aware - ClientsOf(cl2.conns, Lagging(cfg, cl2.conns));
    assert encodes ==> cl'.conns.Keys == cl2.conns.Keys - Lagging(cfg, cl2.conns);
  }

  lemma ApplyingWrites(aware: map<nat, Origin>, entries: map<nat, bool>, newer: set<nat>,
                       origin: Origin, cid: nat)
    ensures var aware' := ApplyAwareness(aware, entries, newer, origin);
      WriterOf(aware, entries, newer, origin, cid) == if cid in aware' then Some(aware'[cid]) else None
  {
  }

  lemma TrackingIsQuiet(cl: Clients, origin: Origin, cids: set<nat>)
    ensures var conns := TrackClients(cl, origin, cids).conns;
      && conns.Keys == cl.conns.Keys
      && forall id | id in conns ::
           conns[id] == cl.conns[id].(clientIds :=
             cl.conns[id].clientIds + if origin == Connection(id) then cids else {})
  {
    assert forall id | id in cl.conns :: cl.conns[id].clientIds + {} == cl.conns[id].clientIds;
  }

  lemma TrackedByTheEvicted(cfg: Config, cl: Clients, entries: map<nat, bool>, origin: Origin,
                            cl1: Clients, cid: nat)
    requires cl1.conns == cl.conns
    ensures var conns := TrackClients(cl1, origin, entries.Keys).conns;
      conns.Keys == cl.conns.Keys && Lagging(cfg, conns) == Lagging(cfg, cl.conns)
    ensures var conns := TrackClients(cl1, origin, entries.Keys).conns;
      cid in ClientsOf(conns, Lagging(cfg, conns)) <==>
      exists id | id in cl.conns && Lags(cfg, id, cl.conns[id]) ::
        cid in cl.conns[id].clientIds || (origin == Connection(id) && cid in entries)
  {
    TrackingIsQuiet(cl1, origin, entries.Keys);
    var conns := TrackClients(cl1, origin, entries.Keys).conns;
    assert Lagging(cfg, conns) == Lagging(cfg, cl.conns);
    TrackedBySome(cfg, cl.conns, conns, entries.Keys, origin, cid);
  }

  lemma TrackedBySome(cfg: Config, conns: map<nat, Conn>, conns': map<nat, Conn>, cids: set<nat>,
                      origin: Origin, cid: nat)
    requires conns'.Keys == conns.Keys && Lagging(cfg, conns') == Lagging(cfg, conns)
    requires forall id | id in conns' ::
      conns'[id].clientIds == conns[id].clientIds + if origin == Connection(id) then cids else {}
    ensures cid in ClientsOf(conns', Lagging(cfg, conns')) <==>
      exists id | id in conns && Lags(cfg, id, conns[id]) ::
        cid in conns[id].clientIds || (origin == Connection(id) && cid in cids)
  {
    if id :| id in conns && Lags(cfg, id, conns[id]) &&
             (cid in conns[id].clientIds || (origin == Connection(id) && cid in cids)) {
      assert id in Lagging(cfg, conns') && cid in conns'[id].clientIds;
    }
  }
}
