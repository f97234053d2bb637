/**
 What one document actor does, as functions on its state. Every answer the actor gets from
 outside (hooks, storage, the client's outbound queue, the clock, foreign encoders) is an
 argument, so a statement about all arguments is a statement about all environments.
 */
module ActorSpec {
  import opened Common
  import opened Crdt

  // ----- connections -----

  /** `try_send` on a client's bounded outbound queue. */
  datatype SendOutcome = Accepted | Full | Gone

  datatype Origin = Connection(id: nat) | Redis | Local

  datatype Body =
    | SyncStep2(asked: StateVector, update: Content)  // `asked`: the vector being answered
    | SyncStep1(sv: StateVector)
    | SyncUpdate(update: Content)
    | Awareness(clients: set<nat>)
    | SyncStatus(saved: bool)
    | Stateless(payload: string)

  datatype Out = Frame(address: string, body: Body) | Close(code: nat)

  /** `sent` is everything that really entered the client's queue, oldest first. */
  datatype Conn = Conn(
    address: string,
    readOnly: bool,
    clientIds: set<nat>,
    attempts: nat,
    sent: seq<Out>,
    severed: bool)  // some send found the receiving end gone

  datatype Config = Config(
    name: string,
    debounce: nat,
    maxDebounce: nat,
    unloadImmediately: bool,
    elidesEmpty: bool,                    // whether an empty update encodes to zero bytes
    net: (nat, nat) -> SendOutcome)       // outcome of the k-th send to a connection

  const ProviderInitiated := 1000

  function TrySend(cfg: Config, id: nat, c: Conn, m: Out): Conn {
    match cfg.net(id, c.attempts)
    case Accepted => c.(attempts := c.attempts + 1, sent := c.sent + [m])
    case Full => c.(attempts := c.attempts + 1)
    case Gone => c.(attempts := c.attempts + 1, severed := true)
  }

  /** `send_frame` answers false only for a full queue. */
  predicate Lags(cfg: Config, id: nat, c: Conn) {
    cfg.net(id, c.attempts) == Full
  }

  // ----- the actor -----

  /** What the Redis extension is given to publish. */
  datatype Peer =
    | PeerUpdate(delta: Content)
    | PeerAwareness(clients: set<nat>)
    | PeerStep2(update: Content)

  /** Evicted for a full queue, or removed because it disconnected or was closed. */
  datatype Exit = Evicted | Removed

  /** A connection out of the map: as it was taken out, and after what was still sent to it. */
  datatype Departed = Departed(last: Conn, final: Conn, how: Exit)

  /**
   The connections, the live awareness states with who wrote each last, and the connections
   that have left.
   */
  datatype Clients = Clients(
    conns: map<nat, Conn>,
    aware: map<nat, Origin>,
    gone: map<nat, Departed>)

  /** The store bookkeeping, the background store, and the storage it writes to. */
  datatype Ledger = Ledger(
    dirty: bool,
    firstDirty: Option<nat>,
    lastChange: Option<nat>,
    lastOrigin: Origin,
    storing: bool,
    inflight: Option<Content>,       // snapshot held by the background store
    written: bool,                   // that snapshot has reached storage
    storage: Content)

  datatype State = State(
    doc: Content,
    base: Option<StateVector>,
    pending: bool,
    clock: nat,
    ledger: Ledger,
    clients: Clients,
    published: seq<Peer>)

  function Tick(s: State, at: nat): State {
    s.(clock := Max(s.clock, at))
  }

  function Reply(cfg: Config, cl: Clients, id: nat, body: Body): Clients {
    if id in cl.conns then
      var c := cl.conns[id];
      cl.(conns := cl.conns[id := TrySend(cfg, id, c, Frame(c.address, body))])
    else cl
  }

  function SendClose(cfg: Config, cl: Clients, id: nat, code: nat): Clients {
    if id in cl.conns then
      cl.(conns := cl.conns[id := TrySend(cfg, id, cl.conns[id], Close(code))])
    else cl
  }

  // ----- fan-out and eviction -----

  function Lagging(cfg: Config, conns: map<nat, Conn>): set<nat> {
    set id | id in conns && Lags(cfg, id, conns[id])
  }

  function ClientsOf(conns: map<nat, Conn>, ids: set<nat>): set<nat> {
    set id, cid | id in ids && id in conns && cid in conns[id].clientIds :: cid
  }

  function Offer(cfg: Config, id: nat, c: Conn, body: Body): Conn {
    TrySend(cfg, id, c, Frame(c.address, body))
  }

  /** The Close of an eviction goes into the very queue that has just been full. */
  function Evict(cfg: Config, id: nat, c: Conn): Departed {
    Departed(c, TrySend(cfg, id, c, Close(ResetConnection)), Evicted)
  }

  /** Everyone is sent the frame at their own address; whoever has no room is evicted. */
  function Broadcast(cfg: Config, cl: Clients, body: Body): Clients {
    var out := Lagging(cfg, cl.conns);
    Clients(map id | id in cl.conns && id !in out :: Offer(cfg, id, cl.conns[id], body),
            cl.aware - ClientsOf(cl.conns, out),
            cl.gone + map id | id in out :: Evict(cfg, id, Offer(cfg, id, cl.conns[id], body)))
  }

  // ----- connections come and go -----

  function AddConnection(cfg: Config, cl: Clients, id: nat, address: string, readOnly: bool,
                         encodes: bool): Clients {
    var blank := Conn(address, readOnly, {}, 0, [], false);
    var greeted :=
      if cl.aware != map[] && encodes
      then TrySend(cfg, id, blank, Frame(address, Awareness(cl.aware.Keys)))
      else blank;
    cl.(conns := cl.conns[id := greeted])
  }

  function TakeOut(cl: Clients, id: nat): Clients
    requires id in cl.conns
  {
    var c := cl.conns[id];
    Clients(cl.conns - {id}, cl.aware - c.clientIds, cl.gone[id := Departed(c, c, Removed)])
  }

  function RemoveConnection(cfg: Config, cl: Clients, id: nat, encodes: bool): Clients {
    if id !in cl.conns then cl
    else
      var gone := cl.conns[id].clientIds;
      var cl' := TakeOut(cl, id);
      if gone != {} && encodes then Broadcast(cfg, cl', Awareness(gone)) else cl'
  }

  function CloseConnection(cfg: Config, cl: Clients, id: nat, code: nat, encodes: bool): Clients {
    RemoveConnection(cfg, SendClose(cfg, cl, id, code), id, encodes)
  }

  // ----- awareness -----

  function ApplyAwareness(aware: map<nat, Origin>, entries: map<nat, bool>, newer: set<nat>,
                          origin: Origin): map<nat, Origin> {
    var wins := entries.Keys * newer;
    var live := set cid | cid in wins && entries[cid];
    (aware - wins) + (map cid | cid in live :: origin)
  }

  /** The writing connection becomes responsible for every client id it mentioned. */
  function TrackClients(cl: Clients, origin: Origin, cids: set<nat>): Clients {
    if origin.Connection? && origin.id in cl.conns then
      var c := cl.conns[origin.id];
      cl.(conns := cl.conns[origin.id := c.(clientIds := c.clientIds + cids)])
    else cl
  }

  function HandleAwareness(cfg: Config, cl: Clients, entries: map<nat, bool>, newer: set<nat>,
                           origin: Origin, encodes: bool): Clients {
    var cl1 := cl.(aware := ApplyAwareness(cl.aware, entries, newer, origin));
    var cl2 := TrackClients(cl1, origin, entries.Keys);
    if encodes then Broadcast(cfg, cl2, Awareness(entries.Keys)) else cl2
  }

  // ----- document updates -----

  function MarkDirty(l: Ledger, now: nat, origin: Origin): Ledger {
    l.(dirty := true,
       firstDirty := if l.firstDirty.None? then Some(now) else l.firstDirty,
       lastChange := Some(now),
       lastOrigin := origin)
  }

  /** Whether `apply_and_broadcast` gets past its three early returns. */
  predicate TakesEffect(cfg: Config, d: Content, u: Incoming) {
    u.Decoded? && !(cfg.elidesEmpty && u.ApplyTo(d) == d)
  }

  function ApplyAndBroadcast(cfg: Config, s: State, u: Incoming, origin: Origin): State {
    if !TakesEffect(cfg, s.doc, u) then s
    else
      s.(doc := u.ApplyTo(s.doc),
         base := if s.base.None? then Some(Vector(s.doc)) else s.base,
         pending := true,
         ledger := MarkDirty(s.ledger, s.clock, origin),
         published := if origin.Redis? then s.published
                      else s.published + [PeerUpdate(Delta(s.doc, u.ApplyTo(s.doc)))])
  }

  /** What the coalesced broadcast still owes to every client. */
  function Owed(s: State): Content {
    if s.base.Some? then EncodeDiff(s.doc, s.base.value) else Nothing
  }

  function FlushBroadcast(cfg: Config, s: State): State {
    if !s.pending || s.base.None? then s.(pending := false)
    else
      var s' := s.(pending := false, base := None);
      if cfg.elidesEmpty && Owed(s) == Nothing then s'
      else s'.(clients := Broadcast(cfg, s.clients, SyncUpdate(Owed(s))))
  }

  // ----- frames -----

  datatype Sync = Step1(sv: StateVector) | Update(update: Incoming)

  datatype Message =
    | Malformed
    | SyncMsg(sync: Sync)
    | AwarenessMsg(entries: map<nat, bool>, newer: set<nat>)  // live or null; newer by clock
    | QueryAwareness
    | StatelessMsg
    | CloseMsg
    | AuthMsg
    | BroadcastStateless(payload: string)
    | Ignored

  datatype Verdict = Accept | Reject(close: Option<nat>)

  /** The close code of the first `before_handle_message` hook that rejects. */
  function Rejection(hooks: seq<Verdict>): Option<nat> {
    if hooks == [] then None
    else if hooks[0].Reject? then
      Some(if hooks[0].close.Some? then hooks[0].close.value else ResetConnection)
    else Rejection(hooks[1..])
  }

  function AnswerStep1(cfg: Config, cl: Clients, id: nat, d: Content, sv: StateVector): Clients {
    Reply(cfg, Reply(cfg, cl, id, SyncStep2(sv, EncodeDiff(d, sv))), id, SyncStep1(Vector(d)))
  }

  function HandleSync(cfg: Config, s: State, id: nat, sync: Sync, hooks: seq<Verdict>): State
    requires id in s.clients.conns
  {
    match sync
    case Step1(sv) => s.(clients := AnswerStep1(cfg, s.clients, id, s.doc, sv))
    case Update(u) =>
      if s.clients.conns[id].readOnly then
        s.(clients := Reply(cfg, s.clients, id, SyncStatus(false)))
      else if Rejection(hooks).Some? then
        s.(clients := SendClose(cfg, s.clients, id, Rejection(hooks).value))
      else
        ApplyAndBroadcast(cfg, s, u, Connection(id))
          .(clients := Reply(cfg, s.clients, id, SyncStatus(true)))
  }

  function HandleClientFrame(cfg: Config, s: State, id: nat, msg: Message, hooks: seq<Verdict>,
                             encodes: bool): State {
    if id !in s.clients.conns then s
    else
      match msg
      case SyncMsg(sync) => HandleSync(cfg, s, id, sync, hooks)
      case AwarenessMsg(entries, newer) =>
        s.(clients := HandleAwareness(cfg, s.clients, entries, newer, Connection(id), encodes),
           published := if encodes then s.published + [PeerAwareness(entries.Keys)] else s.published)
      case QueryAwareness =>
        if encodes
        then s.(clients := Reply(cfg, s.clients, id, Awareness(s.clients.aware.Keys)))
        else s
      case CloseMsg =>
        s.(clients := CloseConnection(cfg, s.clients, id, ProviderInitiated, encodes))
      case BroadcastStateless(_) =>
        s.(clients := CloseConnection(cfg, s.clients, id, ResetConnection, encodes))
      case _ => s
  }

  function HandleExternalFrame(cfg: Config, s: State, msg: Message, reply: bool, encodes: bool)
    : State
  {
    match msg
    case SyncMsg(Step1(sv)) =>
      if reply then s.(published := s.published + [PeerStep2(EncodeDiff(s.doc, sv))]) else s
    case SyncMsg(Update(u)) => ApplyAndBroadcast(cfg, s, u, Redis)
    case AwarenessMsg(entries, newer) =>
      s.(clients := HandleAwareness(cfg, s.clients, entries, newer, Redis, encodes))
    case QueryAwareness =>
      if reply && encodes
      then s.(published := s.published + [PeerAwareness(s.clients.aware.Keys)])
      else s
    case BroadcastStateless(payload) =>
      s.(clients := Broadcast(cfg, s.clients, Stateless(payload)))
    case _ => s
  }

  // ----- persistence and unloading -----

  /** The store hooks all succeed, or one fails before or after storage was overwritten. */
  datatype StoreOutcome = Stored | Failed(wrote: bool)

  datatype Unload = Unload(store: StoreOutcome, hooks: seq<bool>)

  function Deadline(cfg: Config, l: Ledger): Option<nat> {
    if !l.dirty || l.storing || l.lastChange.None? || l.firstDirty.None? then None
    else Some(Min(l.lastChange.value + cfg.debounce, l.firstDirty.value + cfg.maxDebounce))
  }

  function Clean(l: Ledger): Ledger {
    l.(dirty := false, firstDirty := None, lastChange := None)
  }

  function SpawnStore(l: Ledger, d: Content): Ledger {
    if !l.dirty || l.storing then l
    else Clean(l).(storing := true, inflight := Some(EncodeState(d)), written := false)
  }

  function RunStore(l: Ledger, d: Content, outcome: StoreOutcome): Ledger {
    if !l.dirty then l
    else
      match outcome
      case Stored => Clean(l).(storage := EncodeState(d))
      case Failed(wrote) => if wrote then l.(storage := EncodeState(d)) else l
  }

  /** The guard of `maybe_unload`: nobody connected, no store in flight, nothing kept warm. */
  predicate MayUnload(cfg: Config, s: State) {
    s.clients.conns == map[] && !s.ledger.storing && (cfg.unloadImmediately || !s.ledger.dirty)
  }

  /** The state after the idle check, and whether the actor exits. */
  function MaybeUnload(cfg: Config, s: State, env: Unload): (State, bool) {
    if MayUnload(cfg, s) then
      (s.(ledger := RunStore(s.ledger, s.doc, env.store)), AllPass(env.hooks))
    else (s, false)
  }

  function FinishStore(l: Ledger, now: nat, ok: bool): Ledger {
    var l' := l.(storing := false, inflight := None, written := false);
    if ok then l' else MarkDirty(l', now, l.lastOrigin)
  }

  // ----- the event loop -----

  datatype Command =
    | AddConn(id: nat, address: string, readOnly: bool)
    | ClientFrame(id: nat, msg: Message, hooks: seq<Verdict>)
    | RemoveConn(id: nat, unload: Unload)
    | ExternalFrame(msg: Message, reply: bool)
    | DirectApply(update: Incoming)

  /** A command, when it is handled, and whether awareness states encode at that moment. */
  datatype Input = Input(at: nat, encodes: bool, cmd: Command)

  function HandleCommand(cfg: Config, s0: State, i: Input): (State, bool) {
    var s := Tick(s0, i.at);
    match i.cmd
    case AddConn(id, address, readOnly) =>
      (s.(clients := AddConnection(cfg, s.clients, id, address, readOnly, i.encodes)), false)
    case ClientFrame(id, msg, hooks) => (HandleClientFrame(cfg, s, id, msg, hooks, i.encodes), false)
    case RemoveConn(id, unload) =>
      MaybeUnload(cfg, s.(clients := RemoveConnection(cfg, s.clients, id, i.encodes)), unload)
    case ExternalFrame(msg, reply) => (HandleExternalFrame(cfg, s, msg, reply, i.encodes), false)
    case DirectApply(u) => (ApplyAndBroadcast(cfg, s, u, Local), false)
  }

  /** The state after a frame of connection `id`. */
  function FromClient(cfg: Config, s: State, at: nat, encodes: bool, id: nat, msg: Message,
                      hooks: seq<Verdict>): State {
    HandleCommand(cfg, s, Input(at, encodes, ClientFrame(id, msg, hooks))).0
  }

  /** The state after a frame of another node. */
  function FromPeer(cfg: Config, s: State, at: nat, encodes: bool, msg: Message, reply: bool): State {
    HandleCommand(cfg, s, Input(at, encodes, ExternalFrame(msg, reply))).0
  }

  /** A drained batch; commands behind an exit are dropped. */
  function HandleBatch(cfg: Config, s: State, batch: seq<Input>): (State, bool)
    decreases |batch|
  {
    if batch == [] then (s, false)
    else
      var (s', exit) := HandleCommand(cfg, s, batch[0]);
      if exit then (s', true) else HandleBatch(cfg, s', batch[1..])
  }

  datatype Event =
    | Mail(batch: seq<Input>)
    | BackgroundWrite
    | StoreResult(at: nat, ok: bool, unload: Unload)
    | Timer(at: nat, store: StoreOutcome, unload: Unload)
    | MailboxClosed

  const MaxCoalesceBatch := 512

  /** When the event can happen. */
  predicate Enabled(cfg: Config, s: State, e: Event) {
    match e
    case Mail(batch) => 0 < |batch| <= MaxCoalesceBatch
    case BackgroundWrite => s.ledger.storing && !s.ledger.written
    case StoreResult(_, ok, _) => s.ledger.storing && (ok ==> s.ledger.written)
    case Timer(at, _, _) =>
      var due := Deadline(cfg, s.ledger);
      due.Some? && due.value <= Max(s.clock, at)
    case MailboxClosed => true
  }

  function HandleMail(cfg: Config, s: State, batch: seq<Input>): (State, bool) {
    var (s', exit) := HandleBatch(cfg, s, batch);
    (FlushBroadcast(cfg, s'), exit)
  }

  function HandleStoreResult(cfg: Config, s0: State, at: nat, ok: bool, unload: Unload)
    : (State, bool)
  {
    var s := Tick(s0, at);
    MaybeUnload(cfg, s.(ledger := FinishStore(s.ledger, s.clock, ok)), unload)
  }

  function HandleTimer(cfg: Config, s0: State, at: nat, store: StoreOutcome, unload: Unload)
    : (State, bool)
  {
    var s := Tick(s0, at);
    if s.clients.conns == map[] then
      MaybeUnload(cfg, s.(ledger := RunStore(s.ledger, s.doc, store)), unload)
    else (s.(ledger := SpawnStore(s.ledger, s.doc)), false)
  }

  function BackgroundWriteLands(l: Ledger): Ledger {
    if l.inflight.Some? then l.(storage := l.inflight.value, written := true) else l
  }

  function Step(cfg: Config, s: State, e: Event): (State, bool) {
    match e
    case Mail(batch) => HandleMail(cfg, s, batch)
    case BackgroundWrite => (s.(ledger := BackgroundWriteLands(s.ledger)), false)
    case StoreResult(at, ok, unload) => HandleStoreResult(cfg, s, at, ok, unload)
    case Timer(at, store, unload) => HandleTimer(cfg, s, at, store, unload)
    case MailboxClosed => (s, true)
  }

  /** A freshly spawned actor: the stored state applied, or nothing when the load failed. */
  function Spawned(storage: Content, loaded: bool): State {
    State(if loaded then Merge(Nothing, storage) else Nothing, None, false, 0,
          Ledger(false, None, None, Local, false, None, false, storage),
          Clients(map[], map[], map[]), [])
  }

  /** `es` is a run from `s`: every event is enabled, and nothing follows an exit. */
  predicate IsRun(cfg: Config, s: State, es: seq<Event>)
    decreases |es|
  {
    es == [] ||
    (Enabled(cfg, s, es[0]) &&
     var (s', exit) := Step(cfg, s, es[0]);
     if exit then |es| == 1 else IsRun(cfg, s', es[1..]))
  }

  function After(cfg: Config, s: State, es: seq<Event>): State
    decreases |es|
  {
    if es == [] then s else After(cfg, Step(cfg, s, es[0]).0, es[1..])
  }
}
