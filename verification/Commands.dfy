/**
 What each command leaves in the queues, the awareness states and the publications, said about
 the command itself: which connection is sent what, who else hears of it, and what stays as it
 was. An event that is dropped, answered to the wrong client or not passed on shows here.
 */
module Commands {
  import opened Common
  import opened Crdt
  import opened ActorSpec
  import D = Durability
  import F = Fanout
  import R = Replies

  // ----- words for what happened -----

  /** Everything else is as it was, except that time has moved on. */
  predicate OnlyClients(s: State, s': State, at: nat) {
    s' == s.(clock := if s.clock < at then at else s.clock, clients := s'.clients)
  }

  predicate Untouched(s: State, s': State, at: nat) {
    OnlyClients(s, s', at) && s'.clients == s.clients
  }

  /** The queue of `c` once it has been offered `m`. */
  function Queued(cfg: Config, id: nat, c: Conn, m: Out): seq<Out> {
    if cfg.net(id, c.attempts) == Accepted then c.sent + [m] else c.sent
  }

  predicate SameHandle(c: Conn, c': Conn) {
    c'.address == c.address && c'.readOnly == c.readOnly && c'.clientIds == c.clientIds
  }

  /** One send, and all that shows of it: in the queue, refused, or lost on a gone receiver. */
  predicate Offered(cfg: Config, id: nat, c: Conn, c': Conn, m: Out) {
    && SameHandle(c, c')
    && c'.sent == Queued(cfg, id, c, m)
    && c'.attempts == c.attempts + 1
    && (c'.severed <==> c.severed || cfg.net(id, c.attempts) == Gone)
  }

  /** `id` was offered `m`, and nobody else anything. */
  predicate Told(cfg: Config, cl: Clients, cl': Clients, id: nat, m: Out)
    requires id in cl.conns
  {
    && cl'.aware == cl.aware && cl'.gone == cl.gone
    && cl'.conns.Keys == cl.conns.Keys
    && (forall x | x in cl.conns && x != id :: cl'.conns[x] == cl.conns[x])
    && Offered(cfg, id, cl.conns[id], cl'.conns[id], m)
  }

  /** Everyone was offered `body`, and exactly those without room are out. */
  ghost predicate Heard(cfg: Config, conns: map<nat, Conn>, conns': map<nat, Conn>, body: Body) {
    && (forall id :: id in conns' <==> id in conns && cfg.net(id, conns[id].attempts) != Full)
    && (forall id | id in conns' ::
          Offered(cfg, id, conns[id], conns'[id], Frame(conns[id].address, body)))
  }

  /** A state is gone exactly if some connection that had mentioned it is. */
  predicate StatesFollow(cl: Clients, cl': Clients) {
    && (forall cid | cid in cl'.aware :: cid in cl.aware && cl'.aware[cid] == cl.aware[cid])
    && (forall cid | cid in cl.aware ::
          cid !in cl'.aware <==>
          exists id | id in cl.conns && id !in cl'.conns :: cid in cl.conns[id].clientIds)
  }

  /** `id` is out of the map, and those who stay were told which states went with it. */
  ghost predicate Left(cfg: Config, cl: Clients, cl': Clients, id: nat, encodes: bool)
    requires id in cl.conns
  {
    var mine := cl.conns[id].clientIds;
    && id !in cl'.conns && id in cl'.gone && cl'.gone[id].how.Removed?
    && StatesFollow(cl, cl')
    && if mine != {} && encodes then Heard(cfg, cl.conns - {id}, cl'.conns, Awareness(mine))
       else cl'.conns == cl.conns - {id}
  }

  lemma BroadcastIsHeard(cfg: Config, cl: Clients, body: Body)
    ensures var cl' := Broadcast(cfg, cl, body);
      Heard(cfg, cl.conns, cl'.conns, body) && StatesFollow(cl, cl')
  {
    var cl' := Broadcast(cfg, cl, body);
    assert forall id | id in cl.conns :: id !in cl'.conns <==> id in Lagging(cfg, cl.conns);
    forall cid | cid in cl.aware
      ensures cid !in cl'.aware <==>
        exists id | id in cl.conns && id !in cl'.conns :: cid in cl.conns[id].clientIds
    {
      if cid in ClientsOf(cl.conns, Lagging(cfg, cl.conns)) {
        var id :| id in Lagging(cfg, cl.conns) && id in cl.conns && cid in cl.conns[id].clientIds;
        assert id !in cl'.conns;
      }
    }
  }

  // ----- sync frames -----

  lemma AnswersAreOffered(cfg: Config, cl: Clients, id: nat, d: Content, sv: StateVector)
    requires id in cl.conns
    ensures var c, cl' := cl.conns[id], AnswerStep1(cfg, cl, id, d, sv);
      && cl'.aware == cl.aware && cl'.gone == cl.gone && cl'.conns.Keys == cl.conns.Keys
      && (forall x | x in cl.conns && x != id :: cl'.conns[x] == cl.conns[x])
      && SameHandle(c, cl'.conns[id])
      && cl'.conns[id].sent == c.sent
           + (if cfg.net(id, c.attempts) == Accepted
              then [Frame(c.address, SyncStep2(sv, EncodeDiff(d, sv)))] else [])
           + (if cfg.net(id, c.attempts + 1) == Accepted
              then [Frame(c.address, SyncStep1(Vector(d)))] else [])
  {
  }

  /**
   A SyncStep1 frame is offered its two answers in order, whichever of them finds room: the
   content above the client's vector, and the server's own vector.
   */
  lemma Step1FrameIsAnswered(cfg: Config, s: State, at: nat, encodes: bool, id: nat, sv: StateVector,
                             hooks: seq<Verdict>)
    requires id in s.clients.conns
    ensures var c := s.clients.conns[id];
      var s' := FromClient(cfg, s, at, encodes, id, SyncMsg(Step1(sv)), hooks);
      var step2, step1 := Frame(c.address, SyncStep2(sv, EncodeDiff(s.doc, sv))),
                          Frame(c.address, SyncStep1(Vector(s.doc)));
      && OnlyClients(s, s', at)
      && s'.clients.aware == s.clients.aware && s'.clients.gone == s.clients.gone
      && s'.clients.conns.Keys == s.clients.conns.Keys
      && (forall x | x in s.clients.conns && x != id :: s'.clients.conns[x] == s.clients.conns[x])
      && SameHandle(c, s'.clients.conns[id])
      && s'.clients.conns[id].sent == c.sent
           + (if cfg.net(id, c.attempts) == Accepted then [step2] else [])
           + (if cfg.net(id, c.attempts + 1) == Accepted then [step1] else [])
  {
    AnswersAreOffered(cfg, s.clients, id, s.doc, sv);
  }

  /** A client that may not write is told that nothing was saved, and nothing was. */
  lemma ReaderUpdateIsRefused(cfg: Config, s: State, at: nat, encodes: bool, id: nat, u: Incoming,
                              hooks: seq<Verdict>)
    requires id in s.clients.conns && s.clients.conns[id].readOnly
    ensures var s' := FromClient(cfg, s, at, encodes, id, SyncMsg(Update(u)), hooks);
      && OnlyClients(s, s', at)
      && Told(cfg, s.clients, s'.clients, id, Frame(s.clients.conns[id].address, SyncStatus(false)))
  {
  }

  /** The first hook to reject decides, with its own close code or the default one. */
  lemma {:induction false} FirstRejection(hooks: seq<Verdict>, k: nat)
    requires k < |hooks| && hooks[k].Reject? && forall j | 0 <= j < k :: hooks[j].Accept?
    ensures Rejection(hooks) == Some(if hooks[k].close.Some? then hooks[k].close.value else 4205)
    decreases k
  {
    if k > 0 {
      assert forall j | 0 <= j < k - 1 :: hooks[1..][j] == hooks[j + 1];
      FirstRejection(hooks[1..], k - 1);
    }
  }

  lemma {:induction false} NoRejection(hooks: seq<Verdict>)
    requires forall j | 0 <= j < |hooks| :: hooks[j].Accept?
    ensures Rejection(hooks).None?
    decreases |hooks|
  {
    if hooks != [] {
      NoRejection(hooks[1..]);
    }
  }

  /** A rejected update of a writer: only a Close is offered, with the first rejection's code. */
  lemma RejectedUpdateCloses(cfg: Config, s: State, at: nat, encodes: bool, id: nat, u: Incoming,
                             hooks: seq<Verdict>, k: nat)
    requires id in s.clients.conns && !s.clients.conns[id].readOnly
    requires k < |hooks| && hooks[k].Reject? && forall j | 0 <= j < k :: hooks[j].Accept?
    ensures var s' := FromClient(cfg, s, at, encodes, id, SyncMsg(Update(u)), hooks);
      && OnlyClients(s, s', at)
      && Told(cfg, s.clients, s'.clients, id,
              Close(if hooks[k].close.Some? then hooks[k].close.value else 4205))
  {
    FirstRejection(hooks, k);
  }

  /** The update changed the document, or changes without content are passed on as well. */
  predicate Matters(cfg: Config, d: Content, u: Incoming) {
    u.Decoded? && (!cfg.elidesEmpty || Merge(d, u.update) != d)
  }

  /**
   What an update that is let in does, whoever sent it: it is merged, it makes the actor dirty
   at this moment, it awaits the broadcast, and it is published unless it came from a peer.
   */
  predicate LetIn(cfg: Config, s: State, s': State, at: nat, u: Incoming, fromPeer: bool) {
    var now := if s.clock < at then at else s.clock;
    if !Matters(cfg, s.doc, u) then
      && s'.doc == s.doc && s'.ledger == s.ledger && s'.published == s.published
      && s'.base == s.base && s'.pending == s.pending && s'.clock == now
    else
      && s'.doc == Merge(s.doc, u.update) && s'.pending && s'.clock == now
      && s'.base == (if s.base.Some? then s.base else Some(Vector(s.doc)))
      && s'.ledger.dirty && s'.ledger.lastChange == Some(now)
      && s'.ledger.firstDirty == (if s.ledger.firstDirty.Some? then s.ledger.firstDirty else Some(now))
      && s'.ledger.storing == s.ledger.storing && s'.ledger.inflight == s.ledger.inflight
      && s'.ledger.storage == s.ledger.storage && s'.ledger.written == s.ledger.written
      && s'.published == s.published +
           if fromPeer then [] else [PeerUpdate(Delta(s.doc, Merge(s.doc, u.update)))]
  }

  lemma ApplyingIsLettingIn(cfg: Config, s: State, at: nat, u: Incoming, origin: Origin)
    ensures LetIn(cfg, s, ApplyAndBroadcast(cfg, Tick(s, at), u, origin), at, u, origin.Redis?)
  {
    assert s.published + [] == s.published;
  }

  /** A writer's update that every hook accepts is let in and acknowledged. */
  lemma WriterUpdateIsLetIn(cfg: Config, s: State, at: nat, encodes: bool, id: nat, u: Incoming,
                            hooks: seq<Verdict>)
    requires id in s.clients.conns && !s.clients.conns[id].readOnly
    requires forall j | 0 <= j < |hooks| :: hooks[j].Accept?
    ensures var s' := FromClient(cfg, s, at, encodes, id, SyncMsg(Update(u)), hooks);
      && LetIn(cfg, s, s', at, u, false)
      && Told(cfg, s.clients, s'.clients, id, Frame(s.clients.conns[id].address, SyncStatus(true)))
  {
    NoRejection(hooks);
    ApplyingIsLettingIn(cfg, s, at, u, Connection(id));
  }

  /** So is a server-side edit, with nobody to answer. */
  lemma DirectEditIsLetIn(cfg: Config, s: State, at: nat, encodes: bool, u: Incoming)
    ensures var s' := HandleCommand(cfg, s, Input(at, encodes, DirectApply(u))).0;
      LetIn(cfg, s, s', at, u, false) && s'.clients == s.clients
  {
    ApplyingIsLettingIn(cfg, s, at, u, Local);
  }

  /** And a peer's update, which is not published again. */
  lemma PeerUpdateIsLetIn(cfg: Config, s: State, at: nat, encodes: bool, u: Incoming, reply: bool)
    ensures var s' := FromPeer(cfg, s, at, encodes, SyncMsg(Update(u)), reply);
      LetIn(cfg, s, s', at, u, true) && s'.clients == s.clients
  {
    ApplyingIsLettingIn(cfg, s, at, u, Redis);
  }

  // ----- awareness -----

  /** Everyone was offered the change, and the sender answers for the ids it mentioned. */
  ghost predicate HeardAbout(cfg: Config, conns: map<nat, Conn>, conns': map<nat, Conn>, cids: set<nat>,
                             origin: Origin, encodes: bool) {
    && (forall id :: id in conns' <==>
          id in conns && (encodes ==> cfg.net(id, conns[id].attempts) != Full))
    && (forall id | id in conns' ::
          var c, c' := conns[id], conns'[id];
          var tracked := c.(clientIds := c.clientIds + if origin == Connection(id) then cids else {});
          if encodes then Offered(cfg, id, tracked, c', Frame(c.address, Awareness(cids))) else c' == tracked)
  }

  /**
   An awareness update of anyone: who is live and who wrote it, the sender's responsibility for
   the ids it mentioned, and the change offered to everyone, the sender included.
   */
  ghost predicate AwarenessSpread(cfg: Config, cl: Clients, cl': Clients, entries: map<nat, bool>,
                            newer: set<nat>, origin: Origin, encodes: bool) {
    && HeardAbout(cfg, cl.conns, cl'.conns, entries.Keys, origin, encodes)
    && (forall cid :: WriterAfter(cl', cid) ==
          if R.LostItsOwner(cl, cl', entries, origin, cid) then None
          else R.WriterOf(cl.aware, entries, newer, origin, cid))
  }

  function WriterAfter(cl: Clients, cid: nat): Option<Origin> {
    if cid in cl.aware then Some(cl.aware[cid]) else None
  }

  lemma AwarenessSpreads(cfg: Config, cl: Clients, entries: map<nat, bool>, newer: set<nat>,
                         origin: Origin, encodes: bool)
    ensures AwarenessSpread(cfg, cl, HandleAwareness(cfg, cl, entries, newer, origin, encodes),
                            entries, newer, origin, encodes)
  {
    var cl' := HandleAwareness(cfg, cl, entries, newer, origin, encodes);
    forall cid
      ensures WriterAfter(cl', cid) ==
        if R.LostItsOwner(cl, cl', entries, origin, cid) then None
        else R.WriterOf(cl.aware, entries, newer, origin, cid)
    {
      R.AwarenessIsLastWriterWins(cfg, cl, entries, newer, origin, encodes, cid);
    }
    AwarenessIsHeard(cfg, cl, entries, newer, origin, encodes);
  }

  lemma AwarenessIsHeard(cfg: Config, cl: Clients, entries: map<nat, bool>, newer: set<nat>,
                         origin: Origin, encodes: bool)
    ensures HeardAbout(cfg, cl.conns, HandleAwareness(cfg, cl, entries, newer, origin, encodes).conns,
                       entries.Keys, origin, encodes)
  {
    var cl1 := cl.(aware := ApplyAwareness(cl.aware, entries, newer, origin));
    var cl2 := TrackClients(cl1, origin, entries.Keys);
    BroadcastIsHeard(cfg, cl2, Awareness(entries.Keys));
    R.TrackingIsQuiet(cl1, origin, entries.Keys);
  }

  /** A client's awareness frame is spread to the clients here and published for the others. */
  lemma AwarenessFrameIsSpread(cfg: Config, s: State, at: nat, encodes: bool, id: nat,
                               entries: map<nat, bool>, newer: set<nat>, hooks: seq<Verdict>)
    requires id in s.clients.conns
    ensures var s' := FromClient(cfg, s, at, encodes, id, AwarenessMsg(entries, newer), hooks);
      && AwarenessSpread(cfg, s.clients, s'.clients, entries, newer, Connection(id), encodes)
      && s'.published == s.published + (if encodes then [PeerAwareness(entries.Keys)] else [])
      && s'.doc == s.doc && s'.ledger == s.ledger
  {
    AwarenessSpreads(cfg, s.clients, entries, newer, Connection(id), encodes);
    assert s.published + [] == s.published;
  }

  /** A peer's is spread here and not published again. */
  lemma PeerAwarenessIsSpread(cfg: Config, s: State, at: nat, encodes: bool,
                              entries: map<nat, bool>, newer: set<nat>, reply: bool)
    ensures var s' := FromPeer(cfg, s, at, encodes, AwarenessMsg(entries, newer), reply);
      && OnlyClients(s, s', at)
      && AwarenessSpread(cfg, s.clients, s'.clients, entries, newer, Redis, encodes)
  {
    AwarenessSpreads(cfg, s.clients, entries, newer, Redis, encodes);
  }

  /** Whoever asks for the awareness states is offered all live ones. */
  lemma QueryIsAnswered(cfg: Config, s: State, at: nat, encodes: bool, id: nat, hooks: seq<Verdict>)
    requires id in s.clients.conns
    ensures var s' := FromClient(cfg, s, at, encodes, id, QueryAwareness, hooks);
      && OnlyClients(s, s', at)
      && if encodes
         then Told(cfg, s.clients, s'.clients, id,
                   Frame(s.clients.conns[id].address, Awareness(s.clients.aware.Keys)))
         else s'.clients == s.clients
  {
  }

  // ----- coming and going -----

  /** A new connection is in the map, greeted with the live states if there are any. */
  lemma NewConnectionIsGreeted(cfg: Config, s: State, at: nat, encodes: bool, id: nat,
                               address: string, readOnly: bool)
    ensures var s' := HandleCommand(cfg, s, Input(at, encodes, AddConn(id, address, readOnly))).0;
      && OnlyClients(s, s', at)
      && s'.clients.aware == s.clients.aware && s'.clients.gone == s.clients.gone
      && s'.clients.conns.Keys == s.clients.conns.Keys + {id}
      && (forall x | x in s.clients.conns && x != id :: s'.clients.conns[x] == s.clients.conns[x])
      && (var c := s'.clients.conns[id];
          && c.address == address && c.readOnly == readOnly && c.clientIds == {}
          && c.sent == if s.clients.aware != map[] && encodes && cfg.net(id, 0) == Accepted
                       then [Frame(address, Awareness(s.clients.aware.Keys))] else [])
  {
  }

  lemma LeavingIsTold(cfg: Config, cl: Clients, id: nat, encodes: bool)
    requires id in cl.conns
    ensures var cl' := RemoveConnection(cfg, cl, id, encodes);
      Left(cfg, cl, cl', id, encodes) && cl'.gone[id].final == cl.conns[id]
  {
    var out := TakeOut(cl, id);
    var body := Awareness(cl.conns[id].clientIds);
    BroadcastIsHeard(cfg, out, body);
    var cl' := RemoveConnection(cfg, cl, id, encodes);
    forall cid | cid in cl.aware
      ensures cid !in cl'.aware <==>
        exists x | x in cl.conns && x !in cl'.conns :: cid in cl.conns[x].clientIds
    {
      if cid !in cl'.aware && cid in out.aware {
        var x :| x in out.conns && x !in cl'.conns && cid in out.conns[x].clientIds;
        assert x in cl.conns && cid in cl.conns[x].clientIds;
      } else if cid !in out.aware {
        assert cid in cl.conns[id].clientIds;
      } else {
        assert forall x | x in cl.conns && x != id :: out.conns[x] == cl.conns[x];
      }
    }
  }

  /**
   A disconnect takes the connection out and tells the others; the document is as it was. The
   actor then goes exactly if nobody is left, no store is in flight, nothing unsaved keeps it warm
   and no unload hook objects, and it has stored what was unsaved if that store works.
   */
  lemma DisconnectIsTold(cfg: Config, s: State, at: nat, encodes: bool, id: nat, unload: Unload)
    ensures var (s', exit) := HandleCommand(cfg, s, Input(at, encodes, RemoveConn(id, unload)));
      var l, l' := s.ledger, s'.ledger;
      var idle := s'.clients.conns == map[] && !l.storing && (cfg.unloadImmediately || !l.dirty);
      && s'.doc == s.doc && s'.published == s.published
      && (exit <==> idle && false !in unload.hooks)
      && (!(idle && l.dirty) ==> l' == l)
      && (idle && l.dirty ==>
            && (l'.dirty <==> unload.store.Failed?)
            && l'.storage == if unload.store == Failed(false) then l.storage else s.doc)
      && if id in s.clients.conns then Left(cfg, s.clients, s'.clients, id, encodes)
         else s'.clients == s.clients
  {
    if id in s.clients.conns {
      LeavingIsTold(cfg, s.clients, id, encodes);
    }
  }

  /** The code for a frame that makes the actor close its own connection. */
  function ClosingCode(msg: Message): Option<nat> {
    match msg
    case CloseMsg => Some(1000)
    case BroadcastStateless(_) => Some(4205)
    case _ => None
  }

  /** A provider's close, or a broadcast a client may not send: it is offered a Close and is out. */
  lemma ClosingFrameCloses(cfg: Config, s: State, at: nat, encodes: bool, id: nat, msg: Message,
                           hooks: seq<Verdict>)
    requires id in s.clients.conns && ClosingCode(msg).Some?
    ensures var s' := FromClient(cfg, s, at, encodes, id, msg, hooks);
      && OnlyClients(s, s', at)
      && Left(cfg, s.clients, s'.clients, id, encodes)
      && s'.clients.gone[id].final.sent ==
           Queued(cfg, id, s.clients.conns[id], Close(ClosingCode(msg).value))
  {
    var code := ClosingCode(msg).value;
    var told := SendClose(cfg, s.clients, id, code);
    LeavingIsTold(cfg, told, id, encodes);
    assert told.conns - {id} == s.clients.conns - {id};
    var cl' := RemoveConnection(cfg, told, id, encodes);
    assert forall x | x in s.clients.conns :: told.conns[x].clientIds == s.clients.conns[x].clientIds;
    assert StatesFollow(s.clients, cl');
    assert FromClient(cfg, s, at, encodes, id, msg, hooks).clients == cl';
  }

  // ----- a synced client -----

  /** There are synced clients: one that connects and asks with room in its queue is one. */
  lemma AskingClientIsSynced(cfg: Config, storage: Content, loaded: bool, address: string, sv: StateVector)
    requires cfg.net(1, 0) == Accepted
    ensures var join := Mail([Input(0, false, AddConn(1, address, false))]);
      var ask := Mail([Input(0, false, ClientFrame(1, SyncMsg(Step1(sv)), []))]);
      var s0 := Spawned(storage, loaded);
      var s := After(cfg, s0, [join, ask]);
      && IsRun(cfg, s0, [join, ask])
      && 1 in s.clients.conns && sv in F.Asked(s.clients.conns[1].sent)
      && Frame(address, SyncStep2(sv, EncodeDiff(s.doc, sv))) in s.clients.conns[1].sent
  {
    var join := Mail([Input(0, false, AddConn(1, address, false))]);
    var asking := Input(0, false, ClientFrame(1, SyncMsg(Step1(sv)), []));
    var s0 := Spawned(storage, loaded);
    D.VisitorJoins(cfg, s0, address);
    var s1 := Step(cfg, s0, join).0;
    D.OneCommand(cfg, s1, asking);
    D.TwoEvents(cfg, s0, join, Mail([asking]));
    Step1FrameIsAnswered(cfg, s1, 0, false, 1, sv, []);
    var sent := After(cfg, s0, [join, Mail([asking])]).clients.conns[1].sent;
    assert sent[0] == Frame(address, SyncStep2(sv, EncodeDiff(s1.doc, sv)));
    assert F.IsAnswer(sent[0]);
  }

  // ----- frames from peers, and frames without effect -----

  /** A peer's stateless text is offered to every client. */
  lemma PeerTextIsHeard(cfg: Config, s: State, at: nat, encodes: bool, text: string, reply: bool)
    ensures var s' := FromPeer(cfg, s, at, encodes, BroadcastStateless(text), reply);
      && OnlyClients(s, s', at)
      && Heard(cfg, s.clients.conns, s'.clients.conns, Stateless(text))
      && StatesFollow(s.clients, s'.clients)
  {
    BroadcastIsHeard(cfg, s.clients, Stateless(text));
  }

  /** A peer's question is answered by one publication, if an answer was asked for. */
  lemma PeerQuestionIsAnswered(cfg: Config, s: State, at: nat, encodes: bool, sv: StateVector, reply: bool)
    ensures var s' := FromPeer(cfg, s, at, encodes, SyncMsg(Step1(sv)), reply);
      && s'.(published := s.published, clock := s.clock) == s
      && s'.published == s.published + if reply then [PeerStep2(EncodeDiff(s.doc, sv))] else []
    ensures var s' := FromPeer(cfg, s, at, encodes, QueryAwareness, reply);
      && s'.(published := s.published, clock := s.clock) == s
      && s'.published == s.published +
           if reply && encodes then [PeerAwareness(s.clients.aware.Keys)] else []
  {
    assert s.published + [] == s.published;
  }

  /** Frames of unknown connections, and frames without meaning here, do nothing at all. */
  lemma OtherFramesDoNothing(cfg: Config, s: State, at: nat, encodes: bool, id: nat, msg: Message,
                             hooks: seq<Verdict>, reply: bool)
    ensures id !in s.clients.conns || msg in {Malformed, StatelessMsg, AuthMsg, Ignored} ==>
      Untouched(s, FromClient(cfg, s, at, encodes, id, msg, hooks), at)
    ensures msg in {Malformed, StatelessMsg, CloseMsg, AuthMsg, Ignored} ==>
      Untouched(s, FromPeer(cfg, s, at, encodes, msg, reply), at)
  {
  }

  // ----- the broadcast at the end of a batch -----

  /** What was let in is offered to everyone as one diff, and then nothing is pending. */
  lemma BatchIsHeard(cfg: Config, s: State, batch: seq<Input>)
    ensures var t, s' := HandleBatch(cfg, s, batch).0, HandleMail(cfg, s, batch).0;
      && !s'.pending && s'.doc == t.doc && s'.ledger == t.ledger && s'.published == t.published
      && if t.pending && t.base.Some? && !(cfg.elidesEmpty && EncodeDiff(t.doc, t.base.value) == Nothing)
         then Heard(cfg, t.clients.conns, s'.clients.conns, SyncUpdate(EncodeDiff(t.doc, t.base.value)))
              && StatesFollow(t.clients, s'.clients) && s'.base.None?
         else s'.clients == t.clients
  {
    var t := HandleBatch(cfg, s, batch).0;
    if t.base.Some? {
      BroadcastIsHeard(cfg, t.clients, SyncUpdate(EncodeDiff(t.doc, t.base.value)));
    }
  }
}
