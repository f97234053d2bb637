/**
 Awareness ownership: a live awareness state that a client connection wrote last is always
 tracked by that connection while it is in the map, so no disconnect, provider close or
 eviction leaves a cursor behind in the server.
 */
module Ownership {
  import opened Common
  import opened Crdt
  import opened ActorSpec

  predicate Owned(cl: Clients) {
    forall cid | cid in cl.aware && cl.aware[cid].Connection? ::
      cl.aware[cid].id in cl.conns && cid in cl.conns[cl.aware[cid].id].clientIds
  }

  /** Every connection in the map was added under one of the ids handed out so far. */
  predicate Inv(cl: Clients, used: set<nat>) {
    Owned(cl) && cl.conns.Keys <= used
  }

  /** Connection ids come from one counter, so no two AddConnection commands share an id. */
  function UsedBy(used: set<nat>, batch: seq<Input>): set<nat>
    decreases |batch|
  {
    if batch == [] then used
    else UsedBy(if batch[0].cmd.AddConn? then used + {batch[0].cmd.id} else used, batch[1..])
  }

  predicate FreshBatch(used: set<nat>, batch: seq<Input>)
    decreases |batch|
  {
    batch == [] ||
    ((batch[0].cmd.AddConn? ==> batch[0].cmd.id !in used) &&
     FreshBatch(if batch[0].cmd.AddConn? then used + {batch[0].cmd.id} else used, batch[1..]))
  }

  predicate FreshRun(used: set<nat>, es: seq<Event>)
    decreases |es|
  {
    es == [] ||
    (if es[0].Mail?
     then FreshBatch(used, es[0].batch) && FreshRun(UsedBy(used, es[0].batch), es[1..])
     else FreshRun(used, es[1..]))
  }

  lemma {:induction false} UsedGrows(used: set<nat>, batch: seq<Input>)
    ensures used <= UsedBy(used, batch)
    decreases |batch|
  {
    if batch != [] {
      UsedGrows(if batch[0].cmd.AddConn? then used + {batch[0].cmd.id} else used, batch[1..]);
    }
  }

  lemma BroadcastKeeps(cfg: Config, cl: Clients, body: Body, used: set<nat>)
    requires Inv(cl, used)
    ensures Inv(Broadcast(cfg, cl, body), used)
  {
    var cl' := Broadcast(cfg, cl, body);
    forall cid | cid in cl'.aware && cl'.aware[cid].Connection?
      ensures cl'.aware[cid].id in cl'.conns && cid in cl'.conns[cl'.aware[cid].id].clientIds
    {
      var id := cl.aware[cid].id;
      assert cid in cl.conns[id].clientIds;
      assert id in Lagging(cfg, cl.conns) ==> cid in ClientsOf(cl.conns, Lagging(cfg, cl.conns));
    }
  }

  lemma SendingKeeps(cfg: Config, cl: Clients, id: nat, body: Body, code: nat, used: set<nat>)
    requires Inv(cl, used)
    ensures Inv(Reply(cfg, cl, id, body), used) && Inv(SendClose(cfg, cl, id, code), used)
  {
  }

  lemma RemoveConnectionKeeps(cfg: Config, cl: Clients, id: nat, encodes: bool, used: set<nat>)
    requires Inv(cl, used)
    ensures Inv(RemoveConnection(cfg, cl, id, encodes), used)
    ensures id !in RemoveConnection(cfg, cl, id, encodes).conns
  {
    if id in cl.conns {
      var gone := cl.conns[id].clientIds;
      var cl' := TakeOut(cl, id);
      assert Inv(cl', used);
      BroadcastKeeps(cfg, cl', Awareness(gone), used);
    }
  }

  lemma HandleAwarenessKeeps(cfg: Config, cl: Clients, entries: map<nat, bool>, newer: set<nat>,
                             origin: Origin, encodes: bool, used: set<nat>)
    requires Inv(cl, used) && (origin.Connection? ==> origin.id in cl.conns)
    ensures Inv(HandleAwareness(cfg, cl, entries, newer, origin, encodes), used)
  {
    var cl1 := cl.(aware := ApplyAwareness(cl.aware, entries, newer, origin));
    var cl2 := TrackClients(cl1, origin, entries.Keys);
    assert Inv(cl2, used);
    BroadcastKeeps(cfg, cl2, Awareness(entries.Keys), used);
  }

  lemma HandleClientFrameKeeps(cfg: Config, s: State, id: nat, msg: Message, hooks: seq<Verdict>,
                               encodes: bool, used: set<nat>)
    requires Inv(s.clients, used)
    ensures Inv(HandleClientFrame(cfg, s, id, msg, hooks, encodes).clients, used)
  {
    if id in s.clients.conns {
      match msg
      case SyncMsg(Step1(sv)) =>
        var answer := SyncStep2(sv, EncodeDiff(s.doc, sv));
        SendingKeeps(cfg, s.clients, id, answer, 0, used);
        SendingKeeps(cfg, Reply(cfg, s.clients, id, answer), id, SyncStep1(Vector(s.doc)), 0, used);
      case SyncMsg(Update(u)) =>
        SendingKeeps(cfg, s.clients, id, SyncStatus(s.clients.conns[id].readOnly == false),
                     if Rejection(hooks).Some? then Rejection(hooks).value else 0, used);
      case AwarenessMsg(entries, newer) =>
        HandleAwarenessKeeps(cfg, s.clients, entries, newer, Connection(id), encodes, used);
      case QueryAwareness =>
        SendingKeeps(cfg, s.clients, id, Awareness(s.clients.aware.Keys), 0, used);
      case CloseMsg =>
        SendingKeeps(cfg, s.clients, id, SyncStatus(true), ProviderInitiated, used);
        RemoveConnectionKeeps(cfg, SendClose(cfg, s.clients, id, ProviderInitiated), id, encodes, used);
      case BroadcastStateless(_) =>
        SendingKeeps(cfg, s.clients, id, SyncStatus(true), ResetConnection, used);
        RemoveConnectionKeeps(cfg, SendClose(cfg, s.clients, id, ResetConnection), id, encodes, used);
      case _ =>
    }
  }

  lemma HandleCommandKeeps(cfg: Config, s0: State, i: Input, used: set<nat>)
    requires Inv(s0.clients, used) && FreshBatch(used, [i])
    ensures Inv(HandleCommand(cfg, s0, i).0.clients,
                if i.cmd.AddConn? then used + {i.cmd.id} else used)
  {
    var s := Tick(s0, i.at);
    match i.cmd
    case ClientFrame(id, msg, hooks) =>
      HandleClientFrameKeeps(cfg, s, id, msg, hooks, i.encodes, used);
    case RemoveConn(id, _) => RemoveConnectionKeeps(cfg, s.clients, id, i.encodes, used);
    case ExternalFrame(msg, _) =>
      match msg {
        case AwarenessMsg(entries, newer) =>
          HandleAwarenessKeeps(cfg, s.clients, entries, newer, Redis, i.encodes, used);
        case BroadcastStateless(payload) => BroadcastKeeps(cfg, s.clients, Stateless(payload), used);
        case _ =>
      }
    case _ =>
  }

  lemma {:induction false} HandleBatchKeeps(cfg: Config, s: State, batch: seq<Input>, used: set<nat>)
    requires Inv(s.clients, used) && FreshBatch(used, batch)
    ensures Inv(HandleBatch(cfg, s, batch).0.clients, UsedBy(used, batch))
    decreases |batch|
  {
    if batch != [] {
      HandleCommandKeeps(cfg, s, batch[0], used);
      var (s', exit) := HandleCommand(cfg, s, batch[0]);
      var used' := if batch[0].cmd.AddConn? then used + {batch[0].cmd.id} else used;
      if exit {
        UsedGrows(used', batch[1..]);
      } else {
        HandleBatchKeeps(cfg, s', batch[1..], used');
      }
    }
  }

  lemma StepKeeps(cfg: Config, s: State, e: Event, used: set<nat>)
    requires Inv(s.clients, used) && (e.Mail? ==> FreshBatch(used, e.batch))
    ensures Inv(Step(cfg, s, e).0.clients, if e.Mail? then UsedBy(used, e.batch) else used)
  {
    if e.Mail? {
      HandleBatchKeeps(cfg, s, e.batch, used);
      var s' := HandleBatch(cfg, s, e.batch).0;
      BroadcastKeeps(cfg, s'.clients, SyncUpdate(Owed(s')), UsedBy(used, e.batch));
    }
  }

  /** Awareness ownership over every run in which connection ids are not reused. */
  lemma {:induction false} AwarenessIsOwned(cfg: Config, s: State, es: seq<Event>, used: set<nat>)
    requires Inv(s.clients, used) && FreshRun(used, es)
    ensures Owned(After(cfg, s, es).clients)
    decreases |es|
  {
    if es != [] {
      StepKeeps(cfg, s, es[0], used);
      AwarenessIsOwned(cfg, Step(cfg, s, es[0]).0, es[1..],
                       if es[0].Mail? then UsedBy(used, es[0].batch) else used);
    }
  }

  /** Once the last connection has gone, no state written by a client is left. */
  lemma EmptyRoomHasNoCursors(cfg: Config, s: State, es: seq<Event>, used: set<nat>)
    requires Inv(s.clients, used) && FreshRun(used, es)
    requires After(cfg, s, es).clients.conns == map[]
    ensures var cl := After(cfg, s, es).clients;
      forall cid | cid in cl.aware :: !cl.aware[cid].Connection?
  {
    AwarenessIsOwned(cfg, s, es, used);
  }
}
