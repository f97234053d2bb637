/**
 No client is left behind: whatever happens, a client whose SyncStep1 was really answered and
 whose queue still works has been sent everything the server document shows.
 */
module Fanout {
  import opened Common
  import opened Crdt
  import opened ActorSpec

  predicate IsAnswer(m: Out) {
    m.Frame? && m.body.SyncStep2?
  }

  /** The state vectors whose answers really entered the client's queue. */
  function Asked(sent: seq<Out>): set<StateVector> {
    set i | 0 <= i < |sent| && IsAnswer(sent[i]) :: sent[i].body.asked
  }

  function Carried(m: Out): Content {
    if m.Frame? && (m.body.SyncStep2? || m.body.SyncUpdate?) then m.body.update else Nothing
  }

  /** All document content ever queued for the client. */
  function Payload(sent: seq<Out>): Content {
    if sent == [] then Nothing
    else Merge(Payload(sent[..|sent| - 1]), Carried(sent[|sent| - 1]))
  }

  /** Whoever truly held what `sv` claims shows all of `d` after `sent`, up to what is `owed`. */
  predicate KeptFor(sv: StateVector, sent: seq<Out>, d: Content, owed: Content) {
    && (forall id | id in Visible(d).ops ::
          Below(sv, id) || id in Payload(sent).ops || id in owed.ops)
    && Visible(d).dels <= Payload(sent).dels + owed.dels
  }

  /**
   `c` has been sent what `d` shows, except for what it said it had, and for what `owed` will
   still bring it.
   */
  predicate Kept(c: Conn, d: Content, owed: Content) {
    !c.severed ==> forall sv | sv in Asked(c.sent) :: KeptFor(sv, c.sent, d, owed)
  }

  predicate AllKept(cl: Clients, d: Content, owed: Content) {
    forall id | id in cl.conns :: Kept(cl.conns[id], d, owed)
  }

  /** The merge base is held exactly while a broadcast is pending, and it is in the past. */
  ghost predicate BaseHeld(s: State) {
    && (s.pending <==> s.base.Some?)
    && (s.base.Some? ==> forall id | Below(s.base.value, id) :: id in Visible(s.doc).ops)
  }

  ghost predicate Inv(s: State) {
    BaseHeld(s) && AllKept(s.clients, s.doc, Owed(s))
  }

  // ----- one connection -----

  lemma AskedGrows(sent: seq<Out>, m: Out)
    ensures Asked(sent + [m]) == Asked(sent) + (if IsAnswer(m) then {m.body.asked} else {})
    ensures Payload(sent + [m]) == Merge(Payload(sent), Carried(m))
  {
    var all := sent + [m];
    assert all[..|all| - 1] == sent;
    assert forall i | 0 <= i < |sent| :: all[i] == sent[i];
    assert all[|sent|] == m;
    forall sv | sv in Asked(sent)
      ensures sv in Asked(all)
    {
      var i :| 0 <= i < |sent| && IsAnswer(sent[i]) && sent[i].body.asked == sv;
      assert IsAnswer(all[i]);
    }
    if IsAnswer(m) {
      assert IsAnswer(all[|sent|]);
    }
  }

  /** An answer must be the whole answer; any other frame is harmless. */
  predicate Honest(m: Out, d: Content) {
    IsAnswer(m) ==> m.body.update == EncodeDiff(d, m.body.asked)
  }

  lemma SendingKeeps(cfg: Config, id: nat, c: Conn, m: Out, d: Content, owed: Content)
    requires Kept(c, d, owed) && Honest(m, d)
    ensures Kept(TrySend(cfg, id, c, m), d, owed)
  {
    AskedGrows(c.sent, m);
    if !c.severed && cfg.net(id, c.attempts) == Accepted {
      forall sv | sv in Asked(c.sent + [m])
        ensures KeptFor(sv, c.sent + [m], d, owed)
      {
        assert sv in Asked(c.sent) ==> KeptFor(sv, c.sent, d, owed);
      }
    }
  }

  /** Receiving what is owed settles the debt. */
  lemma PayingSettles(cfg: Config, id: nat, c: Conn, address: string, d: Content, owed: Content)
    requires Kept(c, d, owed) && !Lags(cfg, id, c)
    ensures Kept(TrySend(cfg, id, c, Frame(address, SyncUpdate(owed))), d, Nothing)
  {
    AskedGrows(c.sent, Frame(address, SyncUpdate(owed)));
  }

  // ----- operations on the clients -----

  lemma ReplyKeeps(cfg: Config, cl: Clients, id: nat, body: Body, d: Content, owed: Content)
    requires AllKept(cl, d, owed) && Honest(Frame("", body), d)
    ensures AllKept(Reply(cfg, cl, id, body), d, owed)
  {
    if id in cl.conns {
      SendingKeeps(cfg, id, cl.conns[id], Frame(cl.conns[id].address, body), d, owed);
    }
  }

  lemma SendCloseKeeps(cfg: Config, cl: Clients, id: nat, code: nat, d: Content, owed: Content)
    requires AllKept(cl, d, owed)
    ensures AllKept(SendClose(cfg, cl, id, code), d, owed)
  {
    if id in cl.conns {
      SendingKeeps(cfg, id, cl.conns[id], Close(code), d, owed);
    }
  }

  lemma BroadcastKeeps(cfg: Config, cl: Clients, body: Body, d: Content, owed: Content)
    requires AllKept(cl, d, owed) && !body.SyncStep2?
    ensures AllKept(Broadcast(cfg, cl, body), d, owed)
  {
    forall id | id in cl.conns
      ensures Kept(TrySend(cfg, id, cl.conns[id], Frame(cl.conns[id].address, body)), d, owed)
    {
      SendingKeeps(cfg, id, cl.conns[id], Frame(cl.conns[id].address, body), d, owed);
    }
  }

  lemma AddConnectionKeeps(cfg: Config, cl: Clients, id: nat, address: string, readOnly: bool,
                           encodes: bool, d: Content, owed: Content)
    requires AllKept(cl, d, owed)
    ensures AllKept(AddConnection(cfg, cl, id, address, readOnly, encodes), d, owed)
  {
    var blank := Conn(address, readOnly, {}, 0, [], false);
    SendingKeeps(cfg, id, blank, Frame(address, Awareness(cl.aware.Keys)), d, owed);
  }

  lemma RemoveConnectionKeeps(cfg: Config, cl: Clients, id: nat, encodes: bool, d: Content,
                              owed: Content)
    requires AllKept(cl, d, owed)
    ensures AllKept(RemoveConnection(cfg, cl, id, encodes), d, owed)
  {
    if id in cl.conns {
      var gone := cl.conns[id].clientIds;
      BroadcastKeeps(cfg, TakeOut(cl, id), Awareness(gone), d, owed);
    }
  }

  lemma CloseConnectionKeeps(cfg: Config, cl: Clients, id: nat, code: nat, encodes: bool,
                             d: Content, owed: Content)
    requires AllKept(cl, d, owed)
    ensures AllKept(CloseConnection(cfg, cl, id, code, encodes), d, owed)
  {
    SendCloseKeeps(cfg, cl, id, code, d, owed);
    RemoveConnectionKeeps(cfg, SendClose(cfg, cl, id, code), id, encodes, d, owed);
  }

  lemma HandleAwarenessKeeps(cfg: Config, cl: Clients, entries: map<nat, bool>, newer: set<nat>,
                             origin: Origin, encodes: bool, d: Content, owed: Content)
    requires AllKept(cl, d, owed)
    ensures AllKept(HandleAwareness(cfg, cl, entries, newer, origin, encodes), d, owed)
  {
    var cl1 := cl.(aware := ApplyAwareness(cl.aware, entries, newer, origin));
    var cl2 := TrackClients(cl1, origin, entries.Keys);
    assert AllKept(cl2, d, owed);
    BroadcastKeeps(cfg, cl2, Awareness(entries.Keys), d, owed);
  }

  /** The answer to a SyncStep1 brings the asker up to date with the current document. */
  lemma AnswerKeeps(cfg: Config, cl: Clients, id: nat, d: Content, sv: StateVector, owed: Content)
    requires AllKept(cl, d, owed)
    ensures AllKept(AnswerStep1(cfg, cl, id, d, sv), d, owed)
  {
    var answer := SyncStep2(sv, EncodeDiff(d, sv));
    ReplyKeeps(cfg, cl, id, answer, d, owed);
    ReplyKeeps(cfg, Reply(cfg, cl, id, answer), id, SyncStep1(Vector(d)), d, owed);
  }

  // ----- operations on the actor -----

  /** Applying an update only moves operations and deletions into what is owed. */
  lemma ApplyKeeps(cfg: Config, s: State, u: Incoming, origin: Origin)
    requires Inv(s)
    ensures Inv(ApplyAndBroadcast(cfg, s, u, origin))
  {
    if TakesEffect(cfg, s.doc, u) {
      var s' := ApplyAndBroadcast(cfg, s, u, origin);
      VisibleIsMonotone(s'.doc, s.doc);
      forall id | Below(s'.base.value, id)
        ensures id in Visible(s.doc).ops
      {
        VectorIsExact(s.doc, id);
      }
    }
  }

  lemma HandleSyncKeeps(cfg: Config, s: State, id: nat, sync: Sync, hooks: seq<Verdict>)
    requires Inv(s) && id in s.clients.conns
    ensures Inv(HandleSync(cfg, s, id, sync, hooks))
  {
    match sync
    case Step1(sv) => AnswerKeeps(cfg, s.clients, id, s.doc, sv, Owed(s));
    case Update(u) =>
      if s.clients.conns[id].readOnly {
        ReplyKeeps(cfg, s.clients, id, SyncStatus(false), s.doc, Owed(s));
      } else if Rejection(hooks).Some? {
        SendCloseKeeps(cfg, s.clients, id, Rejection(hooks).value, s.doc, Owed(s));
      } else {
        var s' := ApplyAndBroadcast(cfg, s, u, Connection(id));
        ApplyKeeps(cfg, s, u, Connection(id));
        ReplyKeeps(cfg, s'.clients, id, SyncStatus(true), s'.doc, Owed(s'));
      }
  }

  lemma HandleClientFrameKeeps(cfg: Config, s: State, id: nat, msg: Message, hooks: seq<Verdict>,
                               encodes: bool)
    requires Inv(s)
    ensures Inv(HandleClientFrame(cfg, s, id, msg, hooks, encodes))
  {
    if id in s.clients.conns {
      match msg
      case SyncMsg(sync) => HandleSyncKeeps(cfg, s, id, sync, hooks);
      case AwarenessMsg(entries, newer) =>
        HandleAwarenessKeeps(cfg, s.clients, entries, newer, Connection(id), encodes, s.doc, Owed(s));
      case QueryAwareness =>
        ReplyKeeps(cfg, s.clients, id, Awareness(s.clients.aware.Keys), s.doc, Owed(s));
      case CloseMsg =>
        CloseConnectionKeeps(cfg, s.clients, id, ProviderInitiated, encodes, s.doc, Owed(s));
      case BroadcastStateless(_) =>
        CloseConnectionKeeps(cfg, s.clients, id, ResetConnection, encodes, s.doc, Owed(s));
      case _ =>
    }
  }

  lemma HandleExternalFrameKeeps(cfg: Config, s: State, msg: Message, reply: bool, encodes: bool)
    requires Inv(s)
    ensures Inv(HandleExternalFrame(cfg, s, msg, reply, encodes))
  {
    match msg
    case SyncMsg(Update(u)) => ApplyKeeps(cfg, s, u, Redis);
    case AwarenessMsg(entries, newer) =>
      HandleAwarenessKeeps(cfg, s.clients, entries, newer, Redis, encodes, s.doc, Owed(s));
    case BroadcastStateless(payload) =>
      BroadcastKeeps(cfg, s.clients, Stateless(payload), s.doc, Owed(s));
    case _ =>
  }

  lemma HandleCommandKeeps(cfg: Config, s0: State, i: Input)
    requires Inv(s0)
    ensures Inv(HandleCommand(cfg, s0, i).0)
  {
    var s := Tick(s0, i.at);
    match i.cmd
    case AddConn(id, address, readOnly) =>
      AddConnectionKeeps(cfg, s.clients, id, address, readOnly, i.encodes, s.doc, Owed(s));
    case ClientFrame(id, msg, hooks) => HandleClientFrameKeeps(cfg, s, id, msg, hooks, i.encodes);
    case RemoveConn(id, _) =>
      RemoveConnectionKeeps(cfg, s.clients, id, i.encodes, s.doc, Owed(s));
    case ExternalFrame(msg, reply) => HandleExternalFrameKeeps(cfg, s, msg, reply, i.encodes);
    case DirectApply(u) => ApplyKeeps(cfg, s, u, Local);
  }

  lemma {:induction false} HandleBatchKeeps(cfg: Config, s: State, batch: seq<Input>)
    requires Inv(s)
    ensures Inv(HandleBatch(cfg, s, batch).0)
    decreases |batch|
  {
    if batch != [] {
      HandleCommandKeeps(cfg, s, batch[0]);
      var (s', exit) := HandleCommand(cfg, s, batch[0]);
      if !exit {
        HandleBatchKeeps(cfg, s', batch[1..]);
      }
    }
  }

  /** After a flush nothing is pending, nothing is owed, and everyone left is up to date. */
  lemma FlushSettles(cfg: Config, s: State)
    requires Inv(s)
    ensures Inv(FlushBroadcast(cfg, s))
    ensures !FlushBroadcast(cfg, s).pending && FlushBroadcast(cfg, s).base.None?
  {
    var conns := s.clients.conns;
    forall id | id in conns && !Lags(cfg, id, conns[id])
      ensures Kept(TrySend(cfg, id, conns[id], Frame(conns[id].address, SyncUpdate(Owed(s)))),
                   s.doc, Nothing)
    {
      PayingSettles(cfg, id, conns[id], conns[id].address, s.doc, Owed(s));
    }
  }

  ghost predicate AtRest(s: State) {
    Inv(s) && !s.pending && s.base.None?
  }

  lemma StepKeeps(cfg: Config, s: State, e: Event)
    requires AtRest(s)
    ensures AtRest(Step(cfg, s, e).0)
  {
    if e.Mail? {
      HandleBatchKeeps(cfg, s, e.batch);
      FlushSettles(cfg, HandleBatch(cfg, s, e.batch).0);
    }
  }

  lemma {:induction false} RunKeeps(cfg: Config, s: State, es: seq<Event>)
    requires AtRest(s)
    ensures AtRest(After(cfg, s, es))
    decreases |es|
  {
    if es != [] {
      StepKeeps(cfg, s, es[0]);
      RunKeeps(cfg, Step(cfg, s, es[0]).0, es[1..]);
    }
  }

  // ----- main results -----

  /** The queue works and no Close is in it: what was sent reaches the client. */
  predicate Deliverable(c: Conn) {
    !c.severed && forall i | 0 <= i < |c.sent| :: c.sent[i].Frame?
  }

  /**
   At the top of every loop iteration of every run: take a connection in the map whose queue
   works, any SyncStep1 of it whose SyncStep2 was really enqueued, and any replica that holds
   what that vector claimed. With the queued frames applied, it shows the whole document.
   */
  lemma NoClientLeftBehind(cfg: Config, storage: Content, loaded: bool, es: seq<Event>,
                           id: nat, sv: StateVector, replica: Content)
    requires var s := After(cfg, Spawned(storage, loaded), es);
      && id in s.clients.conns && Deliverable(s.clients.conns[id])
      && sv in Asked(s.clients.conns[id].sent)
    requires var s := After(cfg, Spawned(storage, loaded), es);
      forall op | op in Visible(s.doc).ops && Below(sv, op) :: op in replica.ops
    ensures var s := After(cfg, Spawned(storage, loaded), es);
      Covers(Visible(Merge(replica, Payload(s.clients.conns[id].sent))), Visible(s.doc))
  {
    var s0 := Spawned(storage, loaded);
    RunKeeps(cfg, s0, es);
    var s := After(cfg, s0, es);
    assert Kept(s.clients.conns[id], s.doc, Nothing);
    assert KeptFor(sv, s.clients.conns[id].sent, s.doc, Nothing);
    HoldingMeansShowing(Merge(replica, Payload(s.clients.conns[id].sent)), s.doc);
  }

  /** A broadcast reaches every connection it leaves in the map, and evicts the full ones. */
  lemma BroadcastReachesOrEvicts(cfg: Config, cl: Clients, body: Body, id: nat)
    requires id in cl.conns
    ensures var cl' := Broadcast(cfg, cl, body);
      && (id !in cl'.conns <==> Lags(cfg, id, cl.conns[id]))
      && (id in cl'.conns && !cl'.conns[id].severed ==>
            cl'.conns[id].sent == cl.conns[id].sent + [Frame(cl.conns[id].address, body)])
      && (id !in cl'.conns ==> cl'.aware.Keys !! cl.conns[id].clientIds)
  {
  }
}
