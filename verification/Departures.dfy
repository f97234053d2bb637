/**
 How a connection leaves the actor, whether the client is told, and what becomes of the frames
 it goes on sending: a socket may stay open long after its connection has left the map.
 */
module Departures {
  import opened Common
  import opened Crdt
  import opened ActorSpec
  import D = Durability
  import O = Ownership

  /**
   An evicted connection had just been refused a frame for want of room, and its Close entered
   the same queue exactly if that had room again by then; nothing more is sent to the others.
   */
  predicate Proper(cfg: Config, id: nat, d: Departed) {
    if d.how.Removed? then d.final == d.last
    else
      && 0 < d.last.attempts
      && cfg.net(id, d.last.attempts - 1) == Full
      && d.final.sent == d.last.sent +
           if cfg.net(id, d.last.attempts) == Accepted then [Close(ResetConnection)] else []
  }

  /** No connection is both in the map and gone; all were added under ids handed out so far. */
  predicate Inv(cfg: Config, cl: Clients, used: set<nat>) {
    && cl.conns.Keys !! cl.gone.Keys
    && cl.conns.Keys + cl.gone.Keys <= used
    && forall id | id in cl.gone :: Proper(cfg, id, cl.gone[id])
  }

  /** What is gone stays as it is, and nobody disappears otherwise. */
  predicate Remembers(cl: Clients, cl': Clients) {
    && (forall id | id in cl.gone :: id in cl'.gone && cl'.gone[id] == cl.gone[id])
    && cl.conns.Keys + cl.gone.Keys <= cl'.conns.Keys + cl'.gone.Keys
  }

  /** Whoever has newly gone without being evicted is one of `asked`. */
  predicate Explained(cl: Clients, cl': Clients, asked: set<nat>) {
    forall id | id in cl'.gone && id !in cl.gone && cl'.gone[id].how.Removed? :: id in asked
  }

  predicate Moves(cfg: Config, cl: Clients, cl': Clients, used: set<nat>, asked: set<nat>) {
    Inv(cfg, cl', used) && Remembers(cl, cl') && Explained(cl, cl', asked)
  }

  lemma MovesOn(cfg: Config, a: Clients, b: Clients, c: Clients, used: set<nat>, used': set<nat>,
                asked: set<nat>, asked': set<nat>)
    requires Moves(cfg, a, b, used, asked) && Moves(cfg, b, c, used', asked')
    ensures Moves(cfg, a, c, used', asked + asked')
  {
  }

  /** Sending, tracking and awareness touch neither who is there nor who is gone. */
  lemma SameRollMoves(cfg: Config, cl: Clients, cl': Clients, used: set<nat>)
    requires Inv(cfg, cl, used) && cl'.conns.Keys == cl.conns.Keys && cl'.gone == cl.gone
    ensures Moves(cfg, cl, cl', used, {})
  {
  }

  lemma EvictionIsProper(cfg: Config, id: nat, c: Conn, body: Body)
    requires Lags(cfg, id, c)
    ensures var d := Evict(cfg, id, Offer(cfg, id, c, body));
      Proper(cfg, id, d) && d.how.Evicted?
  {
  }

  /** A broadcast moves exactly the lagging connections from the map to the departed. */
  lemma BroadcastRoll(cfg: Config, cl: Clients, body: Body)
    ensures var cl', out := Broadcast(cfg, cl, body), Lagging(cfg, cl.conns);
      && cl'.conns.Keys == cl.conns.Keys - out && cl'.gone.Keys == cl.gone.Keys + out
      && (forall id | id in out :: cl'.gone[id] == Evict(cfg, id, Offer(cfg, id, cl.conns[id], body)))
      && (forall id | id in cl.gone && id !in out :: cl'.gone[id] == cl.gone[id])
  {
  }

  lemma BroadcastMoves(cfg: Config, cl: Clients, body: Body, used: set<nat>)
    requires Inv(cfg, cl, used)
    ensures Moves(cfg, cl, Broadcast(cfg, cl, body), used, {})
  {
    BroadcastRoll(cfg, cl, body);
    var cl' := Broadcast(cfg, cl, body);
    forall id | id in cl'.gone
      ensures Proper(cfg, id, cl'.gone[id])
    {
      if id in Lagging(cfg, cl.conns) {
        EvictionIsProper(cfg, id, cl.conns[id], body);
      }
    }
  }

  lemma TakingOutMoves(cfg: Config, cl: Clients, id: nat, used: set<nat>)
    requires Inv(cfg, cl, used) && id in cl.conns
    ensures Moves(cfg, cl, TakeOut(cl, id), used, {id})
  {
    var cl' := TakeOut(cl, id);
    assert cl'.conns.Keys == cl.conns.Keys - {id};
    assert cl'.gone.Keys == cl.gone.Keys + {id};
  }

  lemma RemoveConnectionMoves(cfg: Config, cl: Clients, id: nat, encodes: bool, used: set<nat>)
    requires Inv(cfg, cl, used)
    ensures Moves(cfg, cl, RemoveConnection(cfg, cl, id, encodes), used, {id})
  {
    if id in cl.conns {
      TakingOutMoves(cfg, cl, id, used);
      var body := Awareness(cl.conns[id].clientIds);
      BroadcastMoves(cfg, TakeOut(cl, id), body, used);
      MovesOn(cfg, cl, TakeOut(cl, id), Broadcast(cfg, TakeOut(cl, id), body), used, used, {id}, {});
      assert {id} + {} == {id};
    }
  }

  lemma CloseConnectionMoves(cfg: Config, cl: Clients, id: nat, code: nat, encodes: bool, used: set<nat>)
    requires Inv(cfg, cl, used)
    ensures Moves(cfg, cl, CloseConnection(cfg, cl, id, code, encodes), used, {id})
  {
    var told := SendClose(cfg, cl, id, code);
    SameRollMoves(cfg, cl, told, used);
    RemoveConnectionMoves(cfg, told, id, encodes, used);
    MovesOn(cfg, cl, told, RemoveConnection(cfg, told, id, encodes), used, used, {}, {id});
    assert {} + {id} == {id};
  }

  lemma AddConnectionMoves(cfg: Config, cl: Clients, id: nat, address: string, readOnly: bool,
                           encodes: bool, used: set<nat>)
    requires Inv(cfg, cl, used) && id !in used
    ensures Moves(cfg, cl, AddConnection(cfg, cl, id, address, readOnly, encodes), used + {id}, {})
  {
    assert AddConnection(cfg, cl, id, address, readOnly, encodes).conns.Keys == cl.conns.Keys + {id};
  }

  lemma HandleAwarenessMoves(cfg: Config, cl: Clients, entries: map<nat, bool>, newer: set<nat>,
                             origin: Origin, encodes: bool, used: set<nat>)
    requires Inv(cfg, cl, used)
    ensures Moves(cfg, cl, HandleAwareness(cfg, cl, entries, newer, origin, encodes), used, {})
  {
    var cl1 := cl.(aware := ApplyAwareness(cl.aware, entries, newer, origin));
    var cl2 := TrackClients(cl1, origin, entries.Keys);
    SameRollMoves(cfg, cl, cl2, used);
    BroadcastMoves(cfg, cl2, Awareness(entries.Keys), used);
    MovesOn(cfg, cl, cl2, Broadcast(cfg, cl2, Awareness(entries.Keys)), used, used, {}, {});
  }

  // ----- commands and runs -----

  /** Whom a command makes leave: a disconnect, a provider's close, a forbidden broadcast. */
  function Asks(cmd: Command): set<nat> {
    match cmd
    case RemoveConn(id, _) => {id}
    case ClientFrame(id, CloseMsg, _) => {id}
    case ClientFrame(id, BroadcastStateless(_), _) => {id}
    case _ => {}
  }

  function BatchAsks(batch: seq<Input>): set<nat>
    decreases |batch|
  {
    if batch == [] then {} else Asks(batch[0].cmd) + BatchAsks(batch[1..])
  }

  function RunAsks(es: seq<Event>): set<nat>
    decreases |es|
  {
    if es == [] then {}
    else (if es[0].Mail? then BatchAsks(es[0].batch) else {}) + RunAsks(es[1..])
  }

  lemma SyncMoves(cfg: Config, s: State, id: nat, sync: Sync, hooks: seq<Verdict>, used: set<nat>)
    requires Inv(cfg, s.clients, used) && id in s.clients.conns
    ensures Moves(cfg, s.clients, HandleSync(cfg, s, id, sync, hooks).clients, used, {})
  {
    SameRollMoves(cfg, s.clients, HandleSync(cfg, s, id, sync, hooks).clients, used);
  }

  lemma ClientFrameMoves(cfg: Config, s: State, id: nat, msg: Message, hooks: seq<Verdict>,
                         encodes: bool, used: set<nat>)
    requires Inv(cfg, s.clients, used)
    ensures Moves(cfg, s.clients, HandleClientFrame(cfg, s, id, msg, hooks, encodes).clients, used,
                  Asks(ClientFrame(id, msg, hooks)))
  {
    var cl, cl' := s.clients, HandleClientFrame(cfg, s, id, msg, hooks, encodes).clients;
    if id !in cl.conns {
      SameRollMoves(cfg, cl, cl', used);
    } else {
      match msg
      case SyncMsg(sync) => SyncMoves(cfg, s, id, sync, hooks, used);
      case AwarenessMsg(entries, newer) =>
        HandleAwarenessMoves(cfg, cl, entries, newer, Connection(id), encodes, used);
      case CloseMsg => CloseConnectionMoves(cfg, cl, id, ProviderInitiated, encodes, used);
      case BroadcastStateless(_) => CloseConnectionMoves(cfg, cl, id, ResetConnection, encodes, used);
      case _ => SameRollMoves(cfg, cl, cl', used);
    }
  }

  lemma HandleCommandMoves(cfg: Config, s0: State, i: Input, used: set<nat>)
    requires Inv(cfg, s0.clients, used) && (i.cmd.AddConn? ==> i.cmd.id !in used)
    ensures Moves(cfg, s0.clients, HandleCommand(cfg, s0, i).0.clients,
                  if i.cmd.AddConn? then used + {i.cmd.id} else used, Asks(i.cmd))
  {
    var s := Tick(s0, i.at);
    match i.cmd
    case AddConn(id, address, readOnly) =>
      AddConnectionMoves(cfg, s.clients, id, address, readOnly, i.encodes, used);
    case ClientFrame(id, msg, hooks) => ClientFrameMoves(cfg, s, id, msg, hooks, i.encodes, used);
    case RemoveConn(id, _) => RemoveConnectionMoves(cfg, s.clients, id, i.encodes, used);
    case ExternalFrame(AwarenessMsg(entries, newer), _) =>
      HandleAwarenessMoves(cfg, s.clients, entries, newer, Redis, i.encodes, used);
    case ExternalFrame(BroadcastStateless(payload), _) =>
      BroadcastMoves(cfg, s.clients, Stateless(payload), used);
    case _ => SameRollMoves(cfg, s.clients, s.clients, used);
  }

  lemma {:induction false} HandleBatchMoves(cfg: Config, s: State, batch: seq<Input>, used: set<nat>)
    requires Inv(cfg, s.clients, used) && O.FreshBatch(used, batch)
    ensures Moves(cfg, s.clients, HandleBatch(cfg, s, batch).0.clients, O.UsedBy(used, batch),
                  BatchAsks(batch))
    decreases |batch|
  {
    if batch == [] {
      SameRollMoves(cfg, s.clients, s.clients, used);
    } else {
      HandleCommandMoves(cfg, s, batch[0], used);
      var (s', exit) := HandleCommand(cfg, s, batch[0]);
      var used' := if batch[0].cmd.AddConn? then used + {batch[0].cmd.id} else used;
      if exit {
        O.UsedGrows(used', batch[1..]);
      } else {
        HandleBatchMoves(cfg, s', batch[1..], used');
        MovesOn(cfg, s.clients, s'.clients, HandleBatch(cfg, s', batch[1..]).0.clients,
                used', O.UsedBy(used', batch[1..]), Asks(batch[0].cmd), BatchAsks(batch[1..]));
      }
    }
  }

  lemma FlushMoves(cfg: Config, s: State, used: set<nat>)
    requires Inv(cfg, s.clients, used)
    ensures Moves(cfg, s.clients, FlushBroadcast(cfg, s).clients, used, {})
  {
    SameRollMoves(cfg, s.clients, s.clients, used);
    BroadcastMoves(cfg, s.clients, SyncUpdate(Owed(s)), used);
  }

  function UsedAfter(used: set<nat>, e: Event): set<nat> {
    if e.Mail? then O.UsedBy(used, e.batch) else used
  }

  lemma StepMoves(cfg: Config, s: State, e: Event, used: set<nat>)
    requires Inv(cfg, s.clients, used) && (e.Mail? ==> O.FreshBatch(used, e.batch))
    ensures Moves(cfg, s.clients, Step(cfg, s, e).0.clients, UsedAfter(used, e),
                  if e.Mail? then BatchAsks(e.batch) else {})
  {
    if e.Mail? {
      var s' := HandleBatch(cfg, s, e.batch).0;
      HandleBatchMoves(cfg, s, e.batch, used);
      FlushMoves(cfg, s', UsedAfter(used, e));
      MovesOn(cfg, s.clients, s'.clients, FlushBroadcast(cfg, s').clients,
              UsedAfter(used, e), UsedAfter(used, e), BatchAsks(e.batch), {});
    } else {
      SameRollMoves(cfg, s.clients, Step(cfg, s, e).0.clients, used);
    }
  }

  lemma {:induction false} RunMoves(cfg: Config, s: State, es: seq<Event>, used: set<nat>)
    returns (used': set<nat>)
    requires Inv(cfg, s.clients, used) && O.FreshRun(used, es)
    ensures Moves(cfg, s.clients, After(cfg, s, es).clients, used', RunAsks(es))
    decreases |es|
  {
    if es == [] {
      used' := used;
      SameRollMoves(cfg, s.clients, s.clients, used);
    } else {
      var s1, used1 := Step(cfg, s, es[0]).0, UsedAfter(used, es[0]);
      StepMoves(cfg, s, es[0], used);
      used' := RunMoves(cfg, s1, es[1..], used1);
      MovesOn(cfg, s.clients, s1.clients, After(cfg, s1, es[1..]).clients, used1, used',
              if es[0].Mail? then BatchAsks(es[0].batch) else {}, RunAsks(es[1..]));
    }
  }

  /**
   Over every run in which connection ids are not reused: no connection is both in the map and
   gone, and each one that is gone was removed by a command that asked for it, or was evicted on
   a full queue. An evicted client is told to close if and only if the one extra send into that
   queue was accepted.
   */
  lemma EveryDepartureIsExplained(cfg: Config, storage: Content, loaded: bool, es: seq<Event>, id: nat)
    requires O.FreshRun({}, es)
    ensures var cl := After(cfg, Spawned(storage, loaded), es).clients;
      id in cl.gone ==>
        var d := cl.gone[id];
        && id !in cl.conns
        && (d.how.Removed? ==> id in RunAsks(es))
        && (d.how.Evicted? ==>
              && 0 < d.last.attempts && cfg.net(id, d.last.attempts - 1) == Full
              && (d.final.sent == d.last.sent + [Close(ResetConnection)] <==>
                    cfg.net(id, d.last.attempts) == Accepted)
              && (d.final.sent == d.last.sent <==> cfg.net(id, d.last.attempts) != Accepted))
  {
    var used := RunMoves(cfg, Spawned(storage, loaded), es, {});
    var cl := After(cfg, Spawned(storage, loaded), es).clients;
    if id in cl.gone {
      assert Proper(cfg, id, cl.gone[id]);
    }
  }

  // ----- what a departed client still sends -----

  /** The same command with nothing in it, if it is a frame of connection `id`. */
  function Muted(i: Input, id: nat): Input {
    if i.cmd.ClientFrame? && i.cmd.id == id then i.(cmd := ClientFrame(id, Ignored, [])) else i
  }

  function MutedBatch(batch: seq<Input>, id: nat): seq<Input>
    decreases |batch|
  {
    if batch == [] then [] else [Muted(batch[0], id)] + MutedBatch(batch[1..], id)
  }

  function MutedRun(es: seq<Event>, id: nat): seq<Event>
    decreases |es|
  {
    if es == [] then []
    else [if es[0].Mail? then Mail(MutedBatch(es[0].batch, id)) else es[0]] + MutedRun(es[1..], id)
  }

  lemma {:induction false} BatchIsDeaf(cfg: Config, s: State, batch: seq<Input>, used: set<nat>, id: nat)
    requires Inv(cfg, s.clients, used) && O.FreshBatch(used, batch) && id in s.clients.gone
    ensures HandleBatch(cfg, s, MutedBatch(batch, id)) == HandleBatch(cfg, s, batch)
    decreases |batch|
  {
    if batch != [] {
      var muted := MutedBatch(batch, id);
      assert muted[0] == Muted(batch[0], id) && muted[1..] == MutedBatch(batch[1..], id);
      assert HandleCommand(cfg, s, muted[0]) == HandleCommand(cfg, s, batch[0]);
      HandleCommandMoves(cfg, s, batch[0], used);
      var (s', exit) := HandleCommand(cfg, s, batch[0]);
      if !exit {
        BatchIsDeaf(cfg, s', batch[1..],
                    if batch[0].cmd.AddConn? then used + {batch[0].cmd.id} else used, id);
      }
    }
  }

  /**
   Once a connection has gone, its frames are as good as not sent, over every continuation in
   which ids are not reused: whatever they hold, the actor ends in the very state it would have
   reached had they been empty, and nothing is sent to that connection any more.
   */
  lemma {:induction false} DepartedClientsAreNotHeard(cfg: Config, s: State, es: seq<Event>,
                                                      used: set<nat>, id: nat)
    requires Inv(cfg, s.clients, used) && O.FreshRun(used, es) && id in s.clients.gone
    ensures After(cfg, s, es) == After(cfg, s, MutedRun(es, id))
    ensures var cl := After(cfg, s, es).clients;
      id !in cl.conns && id in cl.gone && cl.gone[id] == s.clients.gone[id]
    decreases |es|
  {
    if es != [] {
      var muted := MutedRun(es, id);
      assert muted[1..] == MutedRun(es[1..], id);
      if es[0].Mail? {
        BatchIsDeaf(cfg, s, es[0].batch, used, id);
      }
      assert Step(cfg, s, muted[0]) == Step(cfg, s, es[0]);
      StepMoves(cfg, s, es[0], used);
      DepartedClientsAreNotHeard(cfg, Step(cfg, s, es[0]).0, es[1..], UsedAfter(used, es[0]), id);
    }
  }

  // ----- the concrete loss -----

  function Unheard(address: string, text: string, u: Content): seq<Event> {
    [Mail([Input(0, false, AddConn(1, address, false))]),
     Mail([Input(0, false, ExternalFrame(BroadcastStateless(text), false))]),
     Mail([Input(0, false, ClientFrame(1, SyncMsg(Update(Decoded(u))), []))])]
  }

  lemma OneFreshBatch(used: set<nat>, i: Input, es: seq<Event>)
    requires !i.cmd.AddConn? && O.FreshRun(used, es)
    ensures O.FreshRun(used, [Mail([i])] + es)
  {
    var all := [Mail([i])] + es;
    assert all[1..] == es && [i][1..] == [];
    assert O.FreshBatch(used, [i]);
    assert O.UsedBy(used, [i]) == O.UsedBy(used, [i][1..]) == used;
  }

  lemma UnheardIsFresh(address: string, text: string, u: Content)
    ensures O.FreshRun({}, Unheard(address, text, u))
  {
    var es := Unheard(address, text, u);
    OneFreshBatch({1}, es[2].batch[0], []);
    OneFreshBatch({1}, es[1].batch[0], [es[2]]);
    assert es[1..] == [es[1]] + [es[2]] && [es[2]] == [es[2]] + [];
    var join := es[0].batch[0];
    assert es[0].batch == [join] && [join][1..] == [];
    assert O.FreshBatch({}, [join]) && O.UsedBy({}, [join]) == {1};
  }

  /**
   A writer connects and its queue is full at the next broadcast. Its later update is in no
   document and gets no answer, and it has been sent a Close exactly if the queue had room again
   for that one.
   */
  lemma EvictedWriterIsNotHeard(cfg: Config, address: string, text: string, u: Content)
    requires cfg.net(1, 0) == Full
    ensures var s0, es := Spawned(Nothing, true), Unheard(address, text, u);
      var s := After(cfg, s0, es);
      && IsRun(cfg, s0, es) && O.FreshRun({}, es)
      && s.doc == Nothing && !s.ledger.dirty && s.published == [] && s.clients.conns == map[]
      && 1 in s.clients.gone
      && s.clients.gone[1].final.sent ==
           if cfg.net(1, 1) == Accepted then [Close(ResetConnection)] else []
  {
    var s0, es := Spawned(Nothing, true), Unheard(address, text, u);
    D.VisitorJoins(cfg, s0, address);
    var s1 := Step(cfg, s0, es[0]).0;
    D.OneCommand(cfg, s1, es[1].batch[0]);
    var s2 := Step(cfg, s1, es[1]).0;
    assert 1 in Lagging(cfg, s1.clients.conns);
    assert s2.clients.conns == map[];
    D.OneCommand(cfg, s2, es[2].batch[0]);
    assert es[1..] == [es[1], es[2]];
    D.TwoEvents(cfg, s1, es[1], es[2]);
    UnheardIsFresh(address, text, u);
  }
}
