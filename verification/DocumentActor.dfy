/**
 The document actor as it runs: fields updated in place, fan-out and batch loops, proved to
 compute what `ActorSpec` says.
 */
module DocumentActor {
  import opened Common
  import opened Crdt
  import opened ActorSpec

  /** The in-memory storage backend: one state per document, overwritten by each store. */
  class MemoryStorage {
    var inner: map<string, Content>

    /** What a load finds: no entry reads as an empty document. */
    ghost function Saved(name: string): Content
      reads this
    {
      if name in inner then inner[name] else Nothing
    }

    /** The entries of all documents but one. */
    ghost function Others(name: string): map<string, Content>
      reads this
    {
      inner - {name}
    }

    constructor ()
      ensures inner == map[]
    {
      inner := map[];
    }

    method Fetch(name: string) returns (r: Option<Content>)
      ensures r == if name in inner then Some(inner[name]) else None
    {
      r := None;
      if name in inner {
        r := Some(inner[name]);
      }
    }

    method Store(name: string, state: Content)
      modifies this
      ensures Saved(name) == state && Others(name) == old(Others(name))
    {
      inner := inner[name := state];
    }
  }

  class Document {
    const cfg: Config
    const store: MemoryStorage  // shared with the actors of all other documents

    var doc: Content
    var aware: map<nat, Origin>
    var connections: map<nat, Conn>
    var departed: map<nat, Departed>  // the far ends of connections no longer in the map

    var dirty: bool
    var firstDirtyAt: Option<nat>
    var lastChangeAt: Option<nat>
    var lastOrigin: Origin
    var storing: bool

    var broadcastBase: Option<StateVector>
    var broadcastPending: bool

    // The world the actor acts on: its background store, the clock, Redis.
    var inflight: Option<Content>
    var written: bool
    var clock: nat
    var published: seq<Peer>

    ghost function Room(): Clients
      reads this
    {
      Clients(connections, aware, departed)
    }

    ghost function Books(): Ledger
      reads this, store
    {
      Ledger(dirty, firstDirtyAt, lastChangeAt, lastOrigin, storing, inflight, written,
             store.Saved(cfg.name))
    }

    ghost function View(): State
      reads this, store
    {
      State(doc, broadcastBase, broadcastPending, clock, Books(), Room(), published)
    }

    /** `spawn`: the stored state is applied to a new document unless the load fails. */
    constructor (cfg: Config, store: MemoryStorage, fetchFails: bool)
      ensures this.cfg == cfg && this.store == store
      ensures View() == Spawned(store.Saved(cfg.name), !fetchFails)
    {
      this.cfg, this.store := cfg, store;
      doc, aware, connections, departed := Nothing, map[], map[], map[];
      dirty, firstDirtyAt, lastChangeAt, lastOrigin, storing := false, None, None, Local, false;
      broadcastBase, broadcastPending := None, false;
      inflight, written, clock, published := None, false, 0, [];
      new;
      if !fetchFails {
        var fetched := store.Fetch(cfg.name);
        if fetched.Some? {
          doc := Merge(doc, fetched.value);
        }
      }
      assert Merge(Nothing, Nothing) == Nothing;
    }

    // ----- sending -----

    /** `try_send` on a connection's queue; only a full one is reported. */
    method SendOn(id: nat, c: Conn, m: Out) returns (sender: Conn, roomLeft: bool)
      ensures sender == TrySend(cfg, id, c, m)
      ensures roomLeft <==> !Lags(cfg, id, c)
    {
      var outcome := cfg.net(id, c.attempts);
      sender := c.(attempts := c.attempts + 1);
      match outcome {
        case Accepted => sender := sender.(sent := sender.sent + [m]);
        case Full =>
        case Gone => sender := sender.(severed := true);
      }
      roomLeft := outcome != Full;
    }

    method TrySendTo(id: nat, m: Out) returns (roomLeft: bool)
      requires id in connections
      modifies `connections
      ensures connections == old(connections)[id := TrySend(cfg, id, old(connections[id]), m)]
      ensures roomLeft <==> !Lags(cfg, id, old(connections[id]))
    {
      var c;
      c, roomLeft := SendOn(id, connections[id], m);
      connections := connections[id := c];
    }

    /** A reply whose send result is ignored. */
    method SendReply(id: nat, body: Body)
      modifies `connections
      ensures Room() == Reply(cfg, old(Room()), id, body)
    {
      if id in connections {
        var _ := TrySendTo(id, Frame(connections[id].address, body));
      }
    }

    method SendCloseTo(id: nat, code: nat)
      modifies `connections
      ensures Room() == SendClose(cfg, old(Room()), id, code)
    {
      if id in connections {
        var _ := TrySendTo(id, Close(code));
      }
    }

    // ----- fan-out -----

    method RemoveStates(cids: set<nat>)
      modifies `aware
      ensures aware == old(aware) - cids
    {
      var todo := cids;
      while todo != {}
        invariant todo <= cids && aware == old(aware) - (cids - todo)
        decreases |todo|
      {
        var cid :| cid in todo;
        aware := aware - {cid};
        todo := todo - {cid};
      }
    }

    ghost function EvictedFrom(conns: map<nat, Conn>, ids: set<nat>): map<nat, Departed> {
      map id | id in ids && id in conns :: Evict(cfg, id, conns[id])
    }

    /** The room once the connections `ids` are evicted from it. */
    ghost function Swept(cl: Clients, ids: set<nat>): Clients {
      Clients(cl.conns - ids, cl.aware - ClientsOf(cl.conns, ids), cl.gone + EvictedFrom(cl.conns, ids))
    }

    ghost function SweptOf(cl: Clients, id: nat): Clients
      requires id in cl.conns
    {
      Clients(cl.conns - {id}, cl.aware - cl.conns[id].clientIds,
              cl.gone[id := Evict(cfg, id, cl.conns[id])])
    }

    lemma EvictingOneMore(conns: map<nat, Conn>, ids: set<nat>, id: nat)
      requires id in conns && id !in ids
      ensures EvictedFrom(conns, ids + {id}) == EvictedFrom(conns, ids)[id := Evict(cfg, id, conns[id])]
      ensures ClientsOf(conns, ids + {id}) == ClientsOf(conns, ids) + conns[id].clientIds
      ensures conns - (ids + {id}) == conns - ids - {id}
    {
    }

    lemma EvictingNobodyMore(conns: map<nat, Conn>, ids: set<nat>, id: nat)
      requires id !in conns || id in ids
      ensures EvictedFrom(conns, ids + {id}) == EvictedFrom(conns, ids)
      ensures ClientsOf(conns, ids + {id}) == ClientsOf(conns, ids)
      ensures conns - (ids + {id}) == conns - ids
    {
    }

    lemma SweepingOneMore(cl: Clients, ids: set<nat>, id: nat)
      ensures Swept(cl, ids + {id}) ==
        if id in Swept(cl, ids).conns then SweptOf(Swept(cl, ids), id) else Swept(cl, ids)
    {
      if id in cl.conns && id !in ids {
        EvictingOneMore(cl.conns, ids, id);
        RemovingTwice(cl.aware, ClientsOf(cl.conns, ids), cl.conns[id].clientIds);
        AddingLast(cl.gone, EvictedFrom(cl.conns, ids), id, Evict(cfg, id, cl.conns[id]));
      } else {
        EvictingNobodyMore(cl.conns, ids, id);
      }
    }

    method EvictOne(id: nat)
      requires id in connections
      modifies `connections, `aware, `departed
      ensures Room() == SweptOf(old(Room()), id)
    {
      var conn := connections[id];
      connections := connections - {id};
      RemoveStates(conn.clientIds);
      var final, _ := SendOn(id, conn, Close(ResetConnection));
      departed := departed[id := Departed(conn, final, Evicted)];
    }

    method EvictLagging(ids: seq<nat>, ghost lagging: set<nat>)
      requires forall id :: id in ids <==> id in lagging
      modifies `connections, `aware, `departed
      ensures Room() == Swept(old(Room()), lagging)
    {
      ghost var before, done := Room(), {};
      assert Swept(before, {}) == before;
      for k := 0 to |ids|
        invariant forall id :: id in done <==> id in ids[..k]
        invariant Room() == Swept(before, done)
      {
        var id := ids[k];
        assert ids[..k + 1] == ids[..k] + [id];
        SweepingOneMore(before, done, id);
        if id in connections {
          EvictOne(id);
        }
        done := done + {id};
      }
      assert ids[..|ids|] == ids;
      assert done == lagging;
    }

    /** `conns` after everyone outside `todo` has been offered the frame. */
    ghost function Offered(conns: map<nat, Conn>, body: Body, todo: set<nat>): map<nat, Conn> {
      map id | id in conns ::
        if id in todo then conns[id]
        else Offer(cfg, id, conns[id], body)
    }

    lemma OfferingKeepsClients(conns: map<nat, Conn>, body: Body, ids: set<nat>)
      ensures ClientsOf(Offered(conns, body, {}), ids) == ClientsOf(conns, ids)
    {
      var offered := Offered(conns, body, {});
      assert forall id | id in conns :: offered[id].clientIds == conns[id].clientIds;
      forall cid | cid in ClientsOf(conns, ids)
        ensures cid in ClientsOf(offered, ids)
      {
        var id :| id in ids && id in conns && cid in conns[id].clientIds;
        assert cid in offered[id].clientIds;
      }
    }

    /** One frame per distinct address; whoever has no room is collected. */
    method OfferToAll(body: Body) returns (lagging: seq<nat>)
      modifies `connections
      ensures connections == Offered(old(connections), body, {})
      ensures forall id :: id in lagging <==> id in Lagging(cfg, old(connections))
    {
      ghost var before := connections;
      var defaultFrame := Frame(cfg.name, body);
      lagging := [];
      var todo := connections.Keys;
      while todo != {}
        invariant todo <= before.Keys
        invariant connections == Offered(before, body, todo)
        invariant forall id :: id in lagging <==> id in Lagging(cfg, before) && id !in todo
        decreases |todo|
      {
        var id :| id in todo;
        assert connections[id] == before[id];
        var address := connections[id].address;
        var frame := if address == cfg.name then defaultFrame else Frame(address, body);
        var roomLeft := TrySendTo(id, frame);
        if !roomLeft {
          lagging := lagging + [id];
        }
        todo := todo - {id};
      }
    }

    lemma OfferAndEvict(cl: Clients, body: Body)
      ensures Broadcast(cfg, cl, body) ==
        Swept(cl.(conns := Offered(cl.conns, body, {})), Lagging(cfg, cl.conns))
    {
      var out, offered := Lagging(cfg, cl.conns), Offered(cl.conns, body, {});
      OfferingKeepsClients(cl.conns, body, out);
      assert offered - out == Broadcast(cfg, cl, body).conns;
      assert EvictedFrom(offered, out) ==
        map id | id in out :: Evict(cfg, id, Offer(cfg, id, cl.conns[id], body));
    }

    method BroadcastWith(body: Body)
      modifies `connections, `aware, `departed
      ensures Room() == Broadcast(cfg, old(Room()), body)
    {
      ghost var out, expected := Lagging(cfg, connections), Broadcast(cfg, Room(), body);
      OfferAndEvict(Room(), body);
      var lagging := OfferToAll(body);
      EvictLagging(lagging, out);
      assert Room() == expected;
    }

    // ----- connections come and go -----

    method AddConn(id: nat, address: string, readOnly: bool, encodes: bool)
      modifies `connections
      ensures Room() == AddConnection(cfg, old(Room()), id, address, readOnly, encodes)
    {
      connections := connections[id := Conn(address, readOnly, {}, 0, [], false)];
      if aware != map[] && encodes {
        var _ := TrySendTo(id, Frame(address, Awareness(aware.Keys)));
      }
    }

    method RemoveConn(id: nat, encodes: bool)
      modifies `connections, `aware, `departed
      ensures Room() == RemoveConnection(cfg, old(Room()), id, encodes)
    {
      if id !in connections {
        return;
      }
      var handle := connections[id];
      var removed := handle.clientIds;
      connections := connections - {id};
      departed := departed[id := Departed(handle, handle, Removed)];
      RemoveStates(removed);
      if removed != {} && encodes {
        BroadcastWith(Awareness(removed));
      }
    }

    method CloseConn(id: nat, code: nat, encodes: bool)
      modifies `connections, `aware, `departed
      ensures Room() == CloseConnection(cfg, old(Room()), id, code, encodes)
    {
      SendCloseTo(id, code);
      RemoveConn(id, encodes);
    }

    // ----- updates and the coalesced broadcast -----

    method MarkDirtyNow(origin: Origin)
      modifies `dirty, `firstDirtyAt, `lastChangeAt, `lastOrigin
      ensures Books() == MarkDirty(old(Books()), clock, origin)
    {
      dirty := true;
      if firstDirtyAt.None? {
        firstDirtyAt := Some(clock);
      }
      lastChangeAt := Some(clock);
      lastOrigin := origin;
    }

    /** The document has changed from `before`: hold the base, mark dirty, publish. */
    method NoteChange(before: Content, origin: Origin)
      modifies `broadcastBase, `broadcastPending, `published,
               `dirty, `firstDirtyAt, `lastChangeAt, `lastOrigin
      ensures View() == old(View()).(
        base := if old(broadcastBase).None? then Some(Vector(before)) else old(broadcastBase),
        pending := true,
        ledger := MarkDirty(old(Books()), clock, origin),
        published := if origin.Redis? then old(published)
                     else old(published) + [PeerUpdate(Delta(before, doc))])
    {
      if broadcastBase.None? {
        broadcastBase := Some(Vector(before));
      }
      broadcastPending := true;
      MarkDirtyNow(origin);
      if !origin.Redis? {
        published := published + [PeerUpdate(Delta(before, doc))];
      }
    }

    method ApplyUpdate(u: Incoming, origin: Origin)
      modifies `doc, `broadcastBase, `broadcastPending, `published,
               `dirty, `firstDirtyAt, `lastChangeAt, `lastOrigin
      ensures View() == ApplyAndBroadcast(cfg, old(View()), u, origin)
    {
      if !u.Decoded? {
        return;
      }
      var before := doc;
      doc := Merge(doc, u.update);
      if cfg.elidesEmpty && doc == before {
        return;
      }
      NoteChange(before, origin);
    }

    method Flush()
      modifies `broadcastBase, `broadcastPending, `connections, `aware, `departed
      ensures View() == FlushBroadcast(cfg, old(View()))
    {
      if !broadcastPending {
        return;
      }
      broadcastPending := false;
      if broadcastBase.None? {
        return;
      }
      var base := broadcastBase.value;
      broadcastBase := None;
      var merged := EncodeDiff(doc, base);
      if cfg.elidesEmpty && merged == Nothing {
        return;
      }
      BroadcastWith(SyncUpdate(merged));
    }

    // ----- frames -----

    method BeforeHandleMessage(id: nat, hooks: seq<Verdict>) returns (pass: bool)
      requires id in connections
      modifies `connections
      ensures pass <==> Rejection(hooks).None?
      ensures pass ==> connections == old(connections)
      ensures !pass ==> Room() == SendClose(cfg, old(Room()), id, Rejection(hooks).value)
    {
      pass := true;
      for k := 0 to |hooks|
        invariant pass && connections == old(connections)
        invariant Rejection(hooks) == Rejection(hooks[k..])
      {
        assert hooks[k..][1..] == hooks[k + 1..];
        if hooks[k].Reject? {
          SendCloseTo(id, if hooks[k].close.Some? then hooks[k].close.value else ResetConnection);
          return false;
        }
      }
    }

    method Sync(id: nat, sync: Sync, hooks: seq<Verdict>)
      requires id in connections
      modifies this
      ensures View() == HandleSync(cfg, old(View()), id, sync, hooks)
    {
      match sync {
        case Step1(sv) =>
          var step2, serverSv := EncodeDiff(doc, sv), Vector(doc);
          SendReply(id, SyncStep2(sv, step2));
          SendReply(id, SyncStep1(serverSv));
        case Update(u) =>
          if connections[id].readOnly {
            SendReply(id, SyncStatus(false));
            return;
          }
          var pass := BeforeHandleMessage(id, hooks);
          if !pass {
            return;
          }
          ApplyUpdate(u, Connection(id));
          SendReply(id, SyncStatus(true));
      }
    }

    /** Applies the newer entries one by one, then records who is responsible for them. */
    method AwarenessUpdate(entries: map<nat, bool>, newer: set<nat>, origin: Origin, encodes: bool)
      modifies `connections, `aware, `departed
      ensures Room() == HandleAwareness(cfg, old(Room()), entries, newer, origin, encodes)
    {
      MergeStates(entries, newer, origin);
      if origin.Connection? && origin.id in connections {
        var c := connections[origin.id];
        connections := connections[origin.id := c.(clientIds := c.clientIds + entries.Keys)];
      }
      if encodes {
        BroadcastWith(Awareness(entries.Keys));
      }
    }

    /** Entry by entry: `after` is `before` with the newer entries in it. */
    ghost predicate Merged(before: map<nat, Origin>, after: map<nat, Origin>, entries: map<nat, bool>,
                           newer: set<nat>, origin: Origin) {
      && (forall cid :: cid in after <==>
            if cid in entries && cid in newer then entries[cid] else cid in before)
      && (forall cid | cid in after ::
            after[cid] == if cid in entries && cid in newer then origin else before[cid])
    }

    lemma MergedIsApplied(before: map<nat, Origin>, after: map<nat, Origin>, entries: map<nat, bool>,
                          newer: set<nat>, origin: Origin)
      requires Merged(before, after, entries, newer, origin)
      ensures after == ApplyAwareness(before, entries, newer, origin)
    {
    }

    method MergeStates(entries: map<nat, bool>, newer: set<nat>, origin: Origin)
      modifies `aware
      ensures aware == ApplyAwareness(old(aware), entries, newer, origin)
    {
      ghost var before := aware;
      MergeEach(entries, newer, origin);
      MergedIsApplied(before, aware, entries, newer, origin);
    }

    method MergeEach(entries: map<nat, bool>, newer: set<nat>, origin: Origin)
      modifies `aware
      ensures Merged(old(aware), aware, entries, newer, origin)
    {
      ghost var before := aware;
      var todo := entries.Keys;
      while todo != {}
        invariant todo <= entries.Keys
        invariant Merged(before, aware, entries, newer - todo, origin)
        decreases |todo|
      {
        var cid :| cid in todo;
        if cid in newer {
          if entries[cid] {
            aware := aware[cid := origin];
          } else {
            aware := aware - {cid};
          }
        }
        todo := todo - {cid};
      }
    }

    method ClientFrame(id: nat, msg: Message, hooks: seq<Verdict>, encodes: bool)
      modifies this
      ensures View() == HandleClientFrame(cfg, old(View()), id, msg, hooks, encodes)
    {
      if id !in connections {
        return;
      }
      match msg {
        case SyncMsg(sync) => Sync(id, sync, hooks);
        case AwarenessMsg(entries, newer) =>
          AwarenessUpdate(entries, newer, Connection(id), encodes);
          if encodes {
            published := published + [PeerAwareness(entries.Keys)];
          }
        case QueryAwareness =>
          if encodes {
            SendReply(id, Awareness(aware.Keys));
          }
        case CloseMsg => CloseConn(id, ProviderInitiated, encodes);
        case BroadcastStateless(_) => CloseConn(id, ResetConnection, encodes);
        case _ =>
      }
    }

    method ExternalFrame(msg: Message, reply: bool, encodes: bool)
      modifies this
      ensures View() == HandleExternalFrame(cfg, old(View()), msg, reply, encodes)
    {
      match msg {
        case SyncMsg(Step1(sv)) =>
          if reply {
            published := published + [PeerStep2(EncodeDiff(doc, sv))];
          }
        case SyncMsg(Update(u)) => ApplyUpdate(u, Redis);
        case AwarenessMsg(entries, newer) => AwarenessUpdate(entries, newer, Redis, encodes);
        case QueryAwareness =>
          if reply && encodes {
            published := published + [PeerAwareness(aware.Keys)];
          }
        case BroadcastStateless(payload) => BroadcastWith(Stateless(payload));
        case _ =>
      }
    }

    // ----- persistence -----

    /** `store_deadline` only reads. */
    method StoreDeadline() returns (due: Option<nat>)
      ensures due == Deadline(cfg, Books())
    {
      if !dirty || storing || lastChangeAt.None? || firstDirtyAt.None? {
        return None;
      }
      var soft := lastChangeAt.value + cfg.debounce;
      var hard := firstDirtyAt.value + cfg.maxDebounce;
      return Some(Min(soft, hard));
    }

    method SpawnStoreTask()
      modifies `storing, `inflight, `written, `dirty, `firstDirtyAt, `lastChangeAt
      ensures Books() == SpawnStore(old(Books()), doc)
    {
      if !dirty || storing {
        return;
      }
      inflight, written, storing := Some(EncodeState(doc)), false, true;
      dirty, firstDirtyAt, lastChangeAt := false, None, None;
    }

    method RunStoreInline(outcome: StoreOutcome)
      modifies `dirty, `firstDirtyAt, `lastChangeAt, store
      ensures Books() == RunStore(old(Books()), doc, outcome)
      ensures store.Others(cfg.name) == old(store.Others(cfg.name))
    {
      if !dirty {
        return;
      }
      if outcome.Stored? || outcome.wrote {
        store.Store(cfg.name, EncodeState(doc));
      }
      if outcome.Stored? {
        dirty, firstDirtyAt, lastChangeAt := false, None, None;
      }
    }

    method MaybeUnloadNow(env: Unload) returns (exit: bool)
      modifies `dirty, `firstDirtyAt, `lastChangeAt, store
      ensures (View(), exit) == MaybeUnload(cfg, old(View()), env)
      ensures store.Others(cfg.name) == old(store.Others(cfg.name))
    {
      if connections != map[] || storing {
        return false;
      }
      if !cfg.unloadImmediately && dirty {
        return false;
      }
      if dirty {
        RunStoreInline(env.store);
      }
      for k := 0 to |env.hooks|
        invariant forall i | 0 <= i < k :: env.hooks[i]
      {
        if !env.hooks[k] {
          return false;
        }
      }
      exit := true;
    }

    // ----- the event loop -----

    method Disconnect(id: nat, unload: Unload, encodes: bool) returns (exit: bool)
      modifies this, store
      ensures (View(), exit) == MaybeUnload(cfg,
        old(View()).(clients := RemoveConnection(cfg, old(Room()), id, encodes)), unload)
      ensures store.Others(cfg.name) == old(store.Others(cfg.name))
    {
      RemoveConn(id, encodes);
      exit := MaybeUnloadNow(unload);
    }

    method Command(i: Input) returns (exit: bool)
      modifies this, store
      ensures (View(), exit) == HandleCommand(cfg, old(View()), i)
      ensures store.Others(cfg.name) == old(store.Others(cfg.name))
    {
      clock := Max(clock, i.at);
      exit := false;
      match i.cmd {
        case AddConn(id, address, readOnly) => AddConn(id, address, readOnly, i.encodes);
        case ClientFrame(id, msg, hooks) => ClientFrame(id, msg, hooks, i.encodes);
        case RemoveConn(id, unload) => exit := Disconnect(id, unload, i.encodes);
        case ExternalFrame(msg, reply) => ExternalFrame(msg, reply, i.encodes);
        case DirectApply(u) => ApplyUpdate(u, Local);
      }
    }

    /** Takes what is already in the mailbox, at most one batch of it. */
    static method Drain(mailbox: seq<Input>) returns (batch: seq<Input>)
      requires mailbox != []
      ensures batch <= mailbox && |batch| == if |mailbox| < 512 then |mailbox| else 512
    {
      batch := [mailbox[0]];
      while |batch| < MaxCoalesceBatch && |batch| < |mailbox|
        invariant 0 < |batch| <= Min(|mailbox|, MaxCoalesceBatch)
        invariant batch == mailbox[..|batch|]
      {
        batch := batch + [mailbox[|batch|]];
      }
    }

    method Receive(batch: seq<Input>) returns (exit: bool)
      modifies this, store
      ensures (View(), exit) == HandleMail(cfg, old(View()), batch)
      ensures store.Others(cfg.name) == old(store.Others(cfg.name))
    {
      exit := false;
      var k := 0;
      while k < |batch| && !exit
        invariant k <= |batch|
        invariant store.Others(cfg.name) == old(store.Others(cfg.name))
        invariant HandleBatch(cfg, old(View()), batch) ==
          if exit then (View(), true) else HandleBatch(cfg, View(), batch[k..])
      {
        assert batch[k..][1..] == batch[k + 1..];
        exit := Command(batch[k]);
        k := k + 1;
      }
      Flush();
    }

    method FinishStoreTask(ok: bool)
      modifies `storing, `inflight, `written, `dirty, `firstDirtyAt, `lastChangeAt, `lastOrigin
      ensures Books() == FinishStore(old(Books()), clock, ok)
    {
      storing, inflight, written := false, None, false;
      if !ok {
        MarkDirtyNow(lastOrigin);
      }
    }

    method OnStoreResult(at: nat, ok: bool, unload: Unload) returns (exit: bool)
      modifies this, store
      ensures (View(), exit) == HandleStoreResult(cfg, old(View()), at, ok, unload)
      ensures store.Others(cfg.name) == old(store.Others(cfg.name))
    {
      clock := Max(clock, at);
      ghost var ticked := View();
      FinishStoreTask(ok);
      assert View() == ticked.(ledger := FinishStore(ticked.ledger, clock, ok));
      exit := MaybeUnloadNow(unload);
    }

    method OnTimer(at: nat, outcome: StoreOutcome, unload: Unload) returns (exit: bool)
      modifies this, store
      ensures (View(), exit) == HandleTimer(cfg, old(View()), at, outcome, unload)
      ensures store.Others(cfg.name) == old(store.Others(cfg.name))
    {
      clock := Max(clock, at);
      exit := false;
      if connections == map[] {
        RunStoreInline(outcome);
        exit := MaybeUnloadNow(unload);
      } else {
        SpawnStoreTask();
      }
    }

    method React(e: Event) returns (exit: bool)
      modifies this, store
      ensures (View(), exit) == Step(cfg, old(View()), e)
      ensures store.Others(cfg.name) == old(store.Others(cfg.name))
    {
      match e {
        case Mail(batch) => exit := Receive(batch);
        case BackgroundWrite =>
          if inflight.Some? {
            store.Store(cfg.name, inflight.value);
            written := true;
          }
          exit := false;
        case StoreResult(at, ok, unload) => exit := OnStoreResult(at, ok, unload);
        case Timer(at, outcome, unload) => exit := OnTimer(at, outcome, unload);
        case MailboxClosed => exit := true;
      }
    }

    /** The loop: one event at a time until the actor exits or the events end. */
    method Run(events: seq<Event>)
      requires IsRun(cfg, View(), events)
      modifies this, store
      ensures View() == After(cfg, old(View()), events)
      ensures store.Others(cfg.name) == old(store.Others(cfg.name))
    {
      var k := 0;
      var exit := false;
      while k < |events| && !exit
        invariant k <= |events|
        invariant !exit ==> IsRun(cfg, View(), events[k..])
        invariant exit ==> k == |events|
        invariant store.Others(cfg.name) == old(store.Others(cfg.name))
        invariant After(cfg, old(View()), events) == After(cfg, View(), events[k..])
      {
        assert events[k..][1..] == events[k + 1..];
        exit := React(events[k]);
        k := k + 1;
      }
    }
  }
}
