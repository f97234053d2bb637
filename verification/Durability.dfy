/**
 Where an applied update is at any moment: still dirty, in the snapshot of the one store in
 flight, or in storage; and when the debounce timer must write it.
 */
module Durability {
  import opened Common
  import opened Crdt
  import opened ActorSpec

  /** The store bookkeeping is consistent, and no applied update is outside it. */
  predicate Accounted(l: Ledger, d: Content, now: nat) {
    && (l.storing <==> l.inflight.Some?)
    && (l.written ==> l.storing && l.storage == l.inflight.value)
    && (!l.dirty && !l.storing ==> Covers(l.storage, d))
    && (!l.dirty && l.storing ==> l.inflight.value == d)
    && (l.storing ==> Covers(d, l.inflight.value))
    && (l.dirty <==> l.firstDirty.Some?)
    && (l.dirty <==> l.lastChange.Some?)
    && (l.dirty ==> l.firstDirty.value <= l.lastChange.value <= now)
  }

  predicate Inv(s: State) {
    Accounted(s.ledger, s.doc, s.clock)
  }

  // ----- every command moves the ledger in one of three ways -----

  /** What a command did to document, clock and ledger. */
  datatype Effect = Untouched | Edited(update: Incoming, origin: Origin) | Idle(unload: Unload)

  function EffectOf(s: State, cmd: Command): Effect {
    match cmd
    case DirectApply(u) => Edited(u, Local)
    case ExternalFrame(SyncMsg(Update(u)), _) => Edited(u, Redis)
    case ClientFrame(id, SyncMsg(Update(u)), hooks) =>
      if id in s.clients.conns && !s.clients.conns[id].readOnly && Rejection(hooks).None?
      then Edited(u, Connection(id)) else Untouched
    case RemoveConn(_, unload) => Idle(unload)
    case _ => Untouched
  }

  function EditedLedger(cfg: Config, s: State, u: Incoming, origin: Origin): Ledger {
    if TakesEffect(cfg, s.doc, u) then MarkDirty(s.ledger, s.clock, origin) else s.ledger
  }

  lemma CommandEffect(cfg: Config, s0: State, i: Input)
    ensures var s := Tick(s0, i.at);
      var s' := HandleCommand(cfg, s0, i).0;
      && s'.clock == s.clock
      && match EffectOf(s0, i.cmd)
         case Untouched => s'.doc == s.doc && s'.ledger == s.ledger
         case Edited(u, origin) =>
           && s'.doc == (if TakesEffect(cfg, s.doc, u) then u.ApplyTo(s.doc) else s.doc)
           && s'.ledger == EditedLedger(cfg, s, u, origin)
         case Idle(unload) =>
           && s'.doc == s.doc
           && (s'.ledger == s.ledger ||
               (s'.ledger == RunStore(s.ledger, s.doc, unload.store) && !s.ledger.storing))
  {
  }

  // ----- the invariant -----

  lemma RunStoreKeeps(l: Ledger, d: Content, now: nat, outcome: StoreOutcome)
    requires Accounted(l, d, now) && !l.storing
    ensures Accounted(RunStore(l, d, outcome), d, now)
  {
  }

  lemma HandleCommandKeeps(cfg: Config, s: State, i: Input)
    requires Inv(s)
    ensures Inv(HandleCommand(cfg, s, i).0)
  {
    CommandEffect(cfg, s, i);
    if EffectOf(s, i.cmd).Idle? && !s.ledger.storing {
      RunStoreKeeps(s.ledger, s.doc, Tick(s, i.at).clock, EffectOf(s, i.cmd).unload.store);
    }
  }

  lemma {:induction false} HandleBatchKeeps(cfg: Config, s: State, batch: seq<Input>)
    requires Inv(s)
    ensures Inv(HandleBatch(cfg, s, batch).0)
    decreases |batch|
  {
    if batch != [] {
      HandleCommandKeeps(cfg, s, batch[0]);
      var (s', exit) := HandleCommand(cfg, s, batch[0]);
      if !exit {
        HandleBatchKeeps(cfg, s', batch[1..]);
      }
    }
  }

  lemma IdleCheckKeeps(cfg: Config, s: State, env: Unload)
    requires Inv(s)
    ensures Inv(MaybeUnload(cfg, s, env).0)
  {
    if MayUnload(cfg, s) {
      RunStoreKeeps(s.ledger, s.doc, s.clock, env.store);
    }
  }

  lemma FinishStoreKeeps(l: Ledger, d: Content, now: nat, ok: bool)
    requires Accounted(l, d, now) && l.storing && (ok ==> l.written)
    ensures Accounted(FinishStore(l, now, ok), d, now)
  {
  }

  lemma StepKeeps(cfg: Config, s: State, e: Event)
    requires Inv(s) && Enabled(cfg, s, e)
    ensures Inv(Step(cfg, s, e).0)
  {
    match e
    case Mail(batch) => HandleBatchKeeps(cfg, s, batch);
    case StoreResult(at, ok, unload) =>
      var t := Tick(s, at);
      FinishStoreKeeps(t.ledger, t.doc, t.clock, ok);
      IdleCheckKeeps(cfg, t.(ledger := FinishStore(t.ledger, t.clock, ok)), unload);
    case Timer(at, store, unload) =>
      var t := Tick(s, at);
      RunStoreKeeps(t.ledger, t.doc, t.clock, store);
      IdleCheckKeeps(cfg, t.(ledger := RunStore(t.ledger, t.doc, store)), unload);
    case _ =>
  }

  lemma {:induction false} RunKeeps(cfg: Config, s: State, es: seq<Event>)
    requires Inv(s) && IsRun(cfg, s, es)
    ensures Inv(After(cfg, s, es))
    decreases |es|
  {
    if es != [] {
      StepKeeps(cfg, s, es[0]);
      var (s', exit) := Step(cfg, s, es[0]);
      if exit {
        assert es[1..] == [];
      } else {
        RunKeeps(cfg, s', es[1..]);
      }
    }
  }

  /**
   Durability accounting, in every reachable state: a clean idle actor has everything in
   storage; a clean actor with a store in flight has exactly the document in that snapshot.
   */
  lemma NothingFallsOut(cfg: Config, storage: Content, loaded: bool, es: seq<Event>)
    requires IsRun(cfg, Spawned(storage, loaded), es)
    ensures var s := After(cfg, Spawned(storage, loaded), es);
      && (!s.ledger.dirty && !s.ledger.storing ==> Covers(s.ledger.storage, s.doc))
      && (!s.ledger.dirty && s.ledger.storing ==> s.ledger.inflight == Some(s.doc))
  {
    RunKeeps(cfg, Spawned(storage, loaded), es);
  }

  // ----- stores never overlap -----

  lemma {:induction false} BatchLeavesInflightStoreAlone(cfg: Config, s: State, batch: seq<Input>)
    requires s.ledger.storing
    ensures var l := HandleBatch(cfg, s, batch).0.ledger;
      l.storing && l.inflight == s.ledger.inflight && l.written == s.ledger.written
      && l.storage == s.ledger.storage
    ensures !HandleBatch(cfg, s, batch).1
    decreases |batch|
  {
    if batch != [] {
      CommandEffect(cfg, s, batch[0]);
      BatchLeavesInflightStoreAlone(cfg, HandleCommand(cfg, s, batch[0]).0, batch[1..]);
    }
  }

  /**
   While a background store is in flight, nothing but that store touches storage, no second
   store starts, and the actor does not unload.
   */
  lemma StoresNeverOverlap(cfg: Config, s: State, e: Event)
    requires s.ledger.storing && Enabled(cfg, s, e) && !e.StoreResult?
    ensures var (s', exit) := Step(cfg, s, e);
      && s'.ledger.storing && s'.ledger.inflight == s.ledger.inflight
      && (!e.BackgroundWrite? ==> s'.ledger.storage == s.ledger.storage)
      && (exit ==> e.MailboxClosed?)
  {
    if e.Mail? {
      BatchLeavesInflightStoreAlone(cfg, s, e.batch);
    }
  }

  // ----- stores do happen -----

  /**
   With clients connected, a due timer puts exactly the document in flight, clears the
   bookkeeping and leaves no deadline until there is a new change.
   */
  lemma DueTimerStartsTheStore(cfg: Config, s: State, timer: Event)
    requires Inv(s) && timer.Timer? && Enabled(cfg, s, timer) && s.clients.conns != map[]
    ensures var (s', exit) := Step(cfg, s, timer);
      var l := s'.ledger;
      && !exit && s'.doc == s.doc && s'.clients == s.clients && s'.clock == Max(s.clock, timer.at)
      && l.storing && l.inflight == Some(s.doc) && !l.written && l.storage == s.ledger.storage
      && !l.dirty && l.firstDirty.None? && l.lastChange.None? && Deadline(cfg, l).None?
  {
  }

  /**
   With nobody connected it stores inline: after a success everything is in storage and the actor
   exits unless a hook objects, kept warm or not. If the attempt fails, the actor stays dirty; it
   tries once more only when it is about to unload.
   */
  lemma DueTimerStoresInline(cfg: Config, s: State, at: nat, store: StoreOutcome, unload: Unload)
    requires Inv(s) && Enabled(cfg, s, Timer(at, store, unload)) && s.clients.conns == map[]
    ensures var (s', exit) := Step(cfg, s, Timer(at, store, unload));
      && s'.doc == s.doc && !s'.ledger.storing && s'.clock == Max(s.clock, at)
      && (store.Stored? ==> s'.ledger.storage == s.doc && !s'.ledger.dirty && exit == AllPass(unload.hooks))
      && (store.Failed? && !cfg.unloadImmediately ==>
            !exit && s'.ledger.dirty
            && s'.ledger.storage == if store.wrote then s.doc else s.ledger.storage)
      && (store.Failed? && cfg.unloadImmediately ==>
            && exit == AllPass(unload.hooks)
            && (s'.ledger.dirty <==> unload.store.Failed?)
            && s'.ledger.storage ==
                 if store.wrote || unload.store != Failed(false) then s.doc else s.ledger.storage)
  {
  }

  /** The background store's write is its snapshot, and nothing else moves. */
  lemma BackgroundWriteIsTheSnapshot(cfg: Config, s: State)
    requires Inv(s) && Enabled(cfg, s, BackgroundWrite)
    ensures Step(cfg, s, BackgroundWrite).0 ==
      s.(ledger := s.ledger.(storage := s.ledger.inflight.value, written := true))
    ensures !Step(cfg, s, BackgroundWrite).1
  {
  }

  /**
   The result of a background store ends it. A success leaves the actor as dirty as the changes
   made meanwhile have made it; a failure makes it dirty, so that a new deadline is set. With
   clients connected that is all.
   */
  lemma StoreResultEndsTheStore(cfg: Config, s: State, at: nat, ok: bool, unload: Unload)
    requires Inv(s) && Enabled(cfg, s, StoreResult(at, ok, unload)) && s.clients.conns != map[]
    ensures var (s', exit) := Step(cfg, s, StoreResult(at, ok, unload));
      var l, l' := s.ledger, s'.ledger;
      && !exit && s'.doc == s.doc && s'.clients == s.clients && s'.clock == Max(s.clock, at)
      && !l'.storing && l'.inflight.None? && l'.storage == l.storage
      && (l'.dirty <==> l.dirty || !ok)
      && (Deadline(cfg, l').Some? <==> l.dirty || !ok)
      && (ok ==> l'.firstDirty == l.firstDirty && l'.lastChange == l.lastChange)
      && (!ok ==> l'.lastChange == Some(if s.clock < at then at else s.clock)
                  && (l.dirty ==> l'.firstDirty == l.firstDirty))
  {
  }

  /** With nobody connected any more, it also decides whether the actor goes. */
  lemma StoreResultLetsGo(cfg: Config, s: State, at: nat, ok: bool, unload: Unload)
    requires Inv(s) && Enabled(cfg, s, StoreResult(at, ok, unload)) && s.clients.conns == map[]
    ensures var (s', exit) := Step(cfg, s, StoreResult(at, ok, unload));
      var wasDirty := s.ledger.dirty || !ok;
      && s'.doc == s.doc && !s'.ledger.storing
      && (exit <==> AllPass(unload.hooks) && (cfg.unloadImmediately || !wasDirty))
      && (s'.ledger.dirty <==> wasDirty && !(cfg.unloadImmediately && unload.store.Stored?))
      && s'.ledger.storage ==
           if wasDirty && cfg.unloadImmediately && unload.store != Failed(false) then s.doc
           else s.ledger.storage
  {
  }

  // ----- the unload boundary -----

  /**
   The exact unload boundary. When `maybe_unload` says exit, nobody is connected and no store
   is in flight; the document is lost exactly if it was dirty, the inline store of this very
   call did not write it, and storage did not already hold it. Keeping documents warm
   (`unload_immediately` off) rules the loss out.
   */
  lemma UnloadBoundary(cfg: Config, s: State, env: Unload)
    requires Inv(s) && MaybeUnload(cfg, s, env).1
    ensures var s' := MaybeUnload(cfg, s, env).0;
      && s'.clients.conns == map[] && !s'.ledger.storing && s'.doc == s.doc
      && (Covers(s'.ledger.storage, s'.doc) <==>
            !(s.ledger.dirty && env.store == Failed(false) && !Covers(s.ledger.storage, s.doc)))
      && (!cfg.unloadImmediately ==> Covers(s'.ledger.storage, s'.doc))
  {
  }

  /** The idle check that made the event exit, and the state it looked at. */
  ghost predicate ExitsThrough(cfg: Config, e: Event, last: State, env: Unload, end: State) {
    && MaybeUnload(cfg, last, env).1
    && end.ledger == MaybeUnload(cfg, last, env).0.ledger
    && end.doc == last.doc
    && match e
       case Mail(batch) => exists k | 0 <= k < |batch| :: batch[k].cmd.RemoveConn? && batch[k].cmd.unload == env
       case StoreResult(_, _, unload) => unload == env
       case Timer(_, _, unload) => unload == env
       case _ => false
  }

  lemma {:induction false} BatchExit(cfg: Config, s: State, batch: seq<Input>)
    returns (last: State, k: nat)
    requires Inv(s) && HandleBatch(cfg, s, batch).1
    ensures k < |batch| && batch[k].cmd.RemoveConn? && Inv(last)
    ensures MaybeUnload(cfg, last, batch[k].cmd.unload) == HandleBatch(cfg, s, batch)
    decreases |batch|
  {
    HandleCommandKeeps(cfg, s, batch[0]);
    var (s', exit) := HandleCommand(cfg, s, batch[0]);
    if exit {
      var t := Tick(s, batch[0].at);
      last := t.(clients := RemoveConnection(cfg, t.clients, batch[0].cmd.id, batch[0].encodes));
      k := 0;
    } else {
      var j;
      last, j := BatchExit(cfg, s', batch[1..]);
      k := j + 1;
    }
  }

  /**
   Every exit of every run other than a closed mailbox goes through one idle check on a
   consistent state: nobody is connected, no store is in flight, and either storage covers
   every update the actor applied, or the inline store of that check failed.
   */
  lemma EveryExitIsAccountedFor(cfg: Config, s: State, e: Event)
    returns (last: State, env: Unload)
    requires Inv(s) && Enabled(cfg, s, e) && Step(cfg, s, e).1 && !e.MailboxClosed?
    ensures Inv(last) && ExitsThrough(cfg, e, last, env, Step(cfg, s, e).0)
    ensures var s' := Step(cfg, s, e).0;
      && !s'.ledger.storing
      && (Covers(s'.ledger.storage, s'.doc) || (last.ledger.dirty && env.store == Failed(false)))
  {
    match e
    case Mail(batch) =>
      var k;
      last, k := BatchExit(cfg, s, batch);
      env := batch[k].cmd.unload;
    case StoreResult(at, ok, unload) =>
      var t := Tick(s, at);
      last, env := t.(ledger := FinishStore(t.ledger, t.clock, ok)), unload;
    case Timer(at, store, unload) =>
      var t := Tick(s, at);
      RunStoreKeeps(t.ledger, t.doc, t.clock, store);
      last, env := t.(ledger := RunStore(t.ledger, t.doc, store)), unload;
    UnloadBoundary(cfg, last, env);
  }

  /**
   With `unload_immediately` off no exit through the idle check loses anything. The other exit,
   a closed mailbox, is the business of `Losses`.
   */
  lemma WarmActorsLoseNothing(cfg: Config, storage: Content, loaded: bool, es: seq<Event>, e: Event)
    requires !cfg.unloadImmediately && IsRun(cfg, Spawned(storage, loaded), es)
    requires var s := After(cfg, Spawned(storage, loaded), es);
      Enabled(cfg, s, e) && Step(cfg, s, e).1 && !e.MailboxClosed?
    ensures var s' := Step(cfg, After(cfg, Spawned(storage, loaded), es), e).0;
      Covers(s'.ledger.storage, s'.doc)
  {
    RunKeeps(cfg, Spawned(storage, loaded), es);
    var last, env := EveryExitIsAccountedFor(cfg, After(cfg, Spawned(storage, loaded), es), e);
    UnloadBoundary(cfg, last, env);
  }

  /**
   The good path: the last client leaves, the store and the hooks succeed, and the actor exits
   with the whole document in storage.
   */
  lemma LastDisconnectPersistsAndUnloads(cfg: Config, s: State, i: Input)
    requires Inv(s) && cfg.unloadImmediately && !s.ledger.storing
    requires i.cmd.RemoveConn? && s.clients.conns.Keys <= {i.cmd.id}
    requires i.cmd.unload.store.Stored? && AllPass(i.cmd.unload.hooks)
    ensures var (s', exit) := HandleCommand(cfg, s, i);
      exit && !s'.ledger.dirty && s'.doc == s.doc && Covers(s'.ledger.storage, s.doc)
  {
    var t := Tick(s, i.at);
    var cl := RemoveConnection(cfg, t.clients, i.cmd.id, i.encodes);
    assert cl.conns == map[];
  }

  predicate NoResultYet(es: seq<Event>) {
    forall i | 0 <= i < |es| :: !es[i].StoreResult?
  }

  /** Until its result comes in, the store in flight keeps its snapshot. */
  lemma {:induction false} SnapshotSurvives(cfg: Config, s: State, es: seq<Event>)
    requires Inv(s) && s.ledger.storing && IsRun(cfg, s, es) && NoResultYet(es)
    ensures var s' := After(cfg, s, es);
      Inv(s') && s'.ledger.storing && s'.ledger.inflight == s.ledger.inflight
    decreases |es|
  {
    if es != [] {
      StepKeeps(cfg, s, es[0]);
      StoresNeverOverlap(cfg, s, es[0]);
      var (s', exit) := Step(cfg, s, es[0]);
      if exit {
        assert es[1..] == [];
      } else {
        SnapshotSurvives(cfg, s', es[1..]);
      }
    }
  }

  /**
   A debounced store that succeeds has put everything of its moment into storage, whatever
   happened while it was running.
   */
  lemma StoreCycleCompletes(cfg: Config, s: State, timer: Event, es: seq<Event>, done: nat, unload: Unload)
    requires Inv(s) && timer.Timer? && Enabled(cfg, s, timer) && s.clients.conns != map[]
    requires var s1 := Step(cfg, s, timer).0;
      IsRun(cfg, s1, es) && NoResultYet(es)
      && Enabled(cfg, After(cfg, s1, es), StoreResult(done, true, unload))
    ensures var s2 := After(cfg, Step(cfg, s, timer).0, es);
      Covers(Step(cfg, s2, StoreResult(done, true, unload)).0.ledger.storage, s.doc)
  {
    StepKeeps(cfg, s, timer);
    SnapshotSurvives(cfg, Step(cfg, s, timer).0, es);
  }

  // ----- one client comes, edits and leaves -----

  /** A client connects; it then edits and disconnects in one batch. */
  function Visit(address: string, u: Content, unload: Unload): seq<Event> {
    [Mail([Input(0, false, AddConn(1, address, false))]),
     Mail([Input(0, false, ClientFrame(1, SyncMsg(Update(Decoded(u))), [])),
           Input(0, false, RemoveConn(1, unload))])]
  }

  lemma TwoEvents(cfg: Config, s: State, a: Event, b: Event)
    ensures After(cfg, s, [a]) == Step(cfg, s, a).0
    ensures After(cfg, s, [a, b]) == Step(cfg, Step(cfg, s, a).0, b).0
    ensures Enabled(cfg, s, a) && !Step(cfg, s, a).1 && Enabled(cfg, Step(cfg, s, a).0, b) ==>
      IsRun(cfg, s, [a, b])
  {
    var s' := Step(cfg, s, a).0;
    assert [a][1..] == [] && [a, b][1..] == [b] && [b][1..] == [];
    assert After(cfg, s', [b]) == Step(cfg, s', b).0;
    assert Enabled(cfg, s', b) ==> IsRun(cfg, s', [b]);
  }

  lemma VisitorJoins(cfg: Config, s0: State, address: string)
    requires s0.clients == Clients(map[], map[], map[]) && !s0.pending
    ensures var s1 := s0.(clients := Clients(map[1 := Conn(address, false, {}, 0, [], false)], map[], map[]));
      Step(cfg, s0, Mail([Input(0, false, AddConn(1, address, false))])) == (s1, false)
  {
    var join := Input(0, false, AddConn(1, address, false));
    assert HandleBatch(cfg, HandleCommand(cfg, s0, join).0, [join][1..]) == (HandleCommand(cfg, s0, join).0, false);
  }

  lemma VisitorLeaves(cfg: Config, s: State, edit: Input, leave: Input)
    requires edit.cmd.ClientFrame? && leave.cmd.RemoveConn?
    ensures Step(cfg, s, Mail([edit, leave])).0.doc
         == HandleCommand(cfg, HandleCommand(cfg, s, edit).0, leave).0.doc
    ensures Step(cfg, s, Mail([edit, leave])).0.ledger
         == HandleCommand(cfg, HandleCommand(cfg, s, edit).0, leave).0.ledger
    ensures Step(cfg, s, Mail([edit, leave])).1
         == HandleCommand(cfg, HandleCommand(cfg, s, edit).0, leave).1
  {
    var s1 := HandleCommand(cfg, s, edit).0;
    assert [edit, leave][1..] == [leave];
    assert HandleBatch(cfg, s, [edit, leave]) == HandleBatch(cfg, s1, [leave]);
    assert HandleBatch(cfg, s1, [leave]).0 == HandleCommand(cfg, s1, leave).0;
  }

  /** Where a visitor's edit is once the store of the last disconnect has had its `outcome`. */
  lemma VisitEnds(cfg: Config, storage: Content, loaded: bool, address: string, u: Content,
                  outcome: StoreOutcome, hooks: seq<bool>)
    requires cfg.unloadImmediately && AllPass(hooks) && !Covers(Spawned(storage, loaded).doc, u)
    ensures var s0, es := Spawned(storage, loaded), Visit(address, u, Unload(outcome, hooks));
      var s := After(cfg, s0, es);
      && IsRun(cfg, s0, es) && Step(cfg, After(cfg, s0, es[..1]), es[1]).1
      && s.doc == Merge(s0.doc, u) && (s.ledger.dirty <==> outcome.Failed?)
      && s.ledger.storage == if outcome == Failed(false) then storage else s.doc
  {
    var s0, es := Spawned(storage, loaded), Visit(address, u, Unload(outcome, hooks));
    VisitorJoins(cfg, s0, address);
    var s1 := Step(cfg, s0, es[0]).0;
    var edit, leave := es[1].batch[0], es[1].batch[1];
    assert es[1].batch == [edit, leave];
    VisitorLeaves(cfg, s1, edit, leave);
    assert Merge(s0.doc, u) != s0.doc;
    var s2 := HandleCommand(cfg, s1, edit).0;
    assert s2.doc == Merge(s0.doc, u) && s2.ledger.dirty;
    assert RemoveConnection(cfg, s2.clients, 1, false).conns == map[];
    assert es[..1] == [es[0]] && es == [es[0], es[1]];
    TwoEvents(cfg, s0, es[0], es[1]);
  }

  /**
   The documented retry does not happen with the default configuration: one edit, one failed
   store on the last disconnect, and the actor exits with the edit nowhere.
   */
  lemma FailedStoreStillUnloads(cfg: Config, address: string, u: Content, hooks: seq<bool>)
    requires cfg.unloadImmediately && AllPass(hooks) && u != Nothing
    ensures var s0, es := Spawned(Nothing, true), Visit(address, u, Unload(Failed(false), hooks));
      var s := After(cfg, s0, es);
      && IsRun(cfg, s0, es) && Step(cfg, After(cfg, s0, es[..1]), es[1]).1
      && s.doc == u && s.ledger.dirty && s.ledger.storage == Nothing
  {
    assert Merge(Nothing, u) == u && Spawned(Nothing, true).doc == Nothing;
    VisitEnds(cfg, Nothing, true, address, u, Failed(false), hooks);
  }

  // ----- what is behind an exit -----

  /** Before the call: this disconnect leaves nobody, nothing keeps the actor, no hook objects. */
  predicate Leaves(cfg: Config, s: State, i: Input) {
    && i.cmd.RemoveConn?
    && (var t := Tick(s, i.at);
        MayUnload(cfg, t.(clients := RemoveConnection(cfg, t.clients, i.cmd.id, i.encodes))))
    && AllPass(i.cmd.unload.hooks)
  }

  lemma ExitIsLeaving(cfg: Config, s: State, i: Input)
    ensures HandleCommand(cfg, s, i).1 <==> Leaves(cfg, s, i)
  {
  }

  lemma {:induction false} BatchContinues(cfg: Config, s: State, a: seq<Input>, b: seq<Input>)
    ensures HandleBatch(cfg, s, a + b) ==
      if HandleBatch(cfg, s, a).1 then HandleBatch(cfg, s, a)
      else HandleBatch(cfg, HandleBatch(cfg, s, a).0, b)
    decreases |a|
  {
    if a == [] {
      assert a + b == b;
    } else {
      assert (a + b)[0] == a[0] && (a + b)[1..] == a[1..] + b;
      var (s', exit) := HandleCommand(cfg, s, a[0]);
      if !exit {
        BatchContinues(cfg, s', a[1..], b);
      }
    }
  }

  /** The state before command `j` of the batch, if the batch gets that far. */
  function Before(cfg: Config, s: State, batch: seq<Input>, j: nat): State
    requires j <= |batch|
  {
    HandleBatch(cfg, s, batch[..j]).0
  }

  /**
   Commands behind an exit in the same batch are dropped, server-side edits included: the first
   `k` commands make the actor exit if and only if one of them is a disconnect that, as things
   stand before it, leaves the actor with no reason to stay; and then the whole batch does exactly
   what those `k` do.
   */
  lemma {:induction false} ExitDropsTheRestOfTheBatch(cfg: Config, s: State, batch: seq<Input>, k: nat)
    requires k <= |batch|
    ensures HandleBatch(cfg, s, batch[..k]).1 <==>
      exists j | 0 <= j < k :: Leaves(cfg, Before(cfg, s, batch, j), batch[j])
    ensures HandleBatch(cfg, s, batch[..k]).1 ==>
      HandleBatch(cfg, s, batch) == HandleBatch(cfg, s, batch[..k])
    decreases k
  {
    assert batch == batch[..k] + batch[k..];
    BatchContinues(cfg, s, batch[..k], batch[k..]);
    if k > 0 {
      var front, i := batch[..k - 1], batch[k - 1];
      assert batch[..k] == front + [i];
      ExitDropsTheRestOfTheBatch(cfg, s, batch, k - 1);
      BatchContinues(cfg, s, front, [i]);
      var t := Before(cfg, s, batch, k - 1);
      ExitIsLeaving(cfg, t, i);
      OneCommand(cfg, t, i);
    }
  }

  lemma OneCommand(cfg: Config, s: State, i: Input)
    ensures HandleBatch(cfg, s, [i]) == HandleCommand(cfg, s, i)
  {
    assert [i][1..] == [];
  }

  /** The actor works off a mailbox in batches, with no other event in between, until it exits. */
  function WorkOff(cfg: Config, s: State, mailbox: seq<Input>): (State, bool)
    decreases |mailbox|
  {
    if mailbox == [] then (s, false)
    else
      var n := Min(|mailbox|, MaxCoalesceBatch);
      var (s', exit) := HandleMail(cfg, s, mailbox[..n]);
      if exit then (s', true) else WorkOff(cfg, s', mailbox[n..])
  }

  lemma {:induction false} BatchExitIndex(cfg: Config, s: State, batch: seq<Input>) returns (k: nat)
    requires HandleBatch(cfg, s, batch).1
    ensures k < |batch| && batch[k].cmd.RemoveConn? && HandleBatch(cfg, s, batch[..k + 1]).1
    decreases |batch|
  {
    assert batch[..|batch|] == batch;
    ExitDropsTheRestOfTheBatch(cfg, s, batch, |batch|);
    k :| 0 <= k < |batch| && Leaves(cfg, Before(cfg, s, batch, k), batch[k]);
    ExitDropsTheRestOfTheBatch(cfg, s, batch, k + 1);
  }

  /** Everything up to an exit inside the first batch decides that batch, whatever follows. */
  lemma FirstBatchDecides(cfg: Config, s: State, head: seq<Input>, m: seq<Input>)
    requires HandleBatch(cfg, s, head).1 && |head| <= MaxCoalesceBatch && head <= m
    ensures WorkOff(cfg, s, m) == HandleMail(cfg, s, head)
  {
    var n := Min(|m|, MaxCoalesceBatch);
    assert head != [];
    assert m[..n][..|head|] == head;
    ExitDropsTheRestOfTheBatch(cfg, s, m[..n], |head|);
  }

  lemma NextBatch(cfg: Config, s: State, m: seq<Input>)
    requires |m| > MaxCoalesceBatch && !HandleMail(cfg, s, m[..MaxCoalesceBatch]).1
    ensures WorkOff(cfg, s, m) ==
      WorkOff(cfg, HandleMail(cfg, s, m[..MaxCoalesceBatch]).0, m[MaxCoalesceBatch..])
  {
  }

  /**
   And not only in the batch: when the actor exits while working off its mailbox, everything
   behind the disconnect that made it exit is without effect, however much it is and whether it
   was drained already, still waiting, or only sent meanwhile.
   */
  lemma {:induction false} ExitDropsTheMailbox(cfg: Config, s: State, mailbox: seq<Input>) returns (k: nat)
    requires WorkOff(cfg, s, mailbox).1
    ensures k < |mailbox| && mailbox[k].cmd.RemoveConn?
    ensures forall m | mailbox[..k + 1] <= m :: WorkOff(cfg, s, m) == WorkOff(cfg, s, mailbox)
    decreases |mailbox|
  {
    var n := Min(|mailbox|, MaxCoalesceBatch);
    var (s', exit) := HandleMail(cfg, s, mailbox[..n]);
    if exit {
      k := BatchExitIndex(cfg, s, mailbox[..n]);
      var head := mailbox[..k + 1];
      assert mailbox[..n][..k + 1] == head;
      FirstBatchDecides(cfg, s, head, mailbox);
      forall m | head <= m
        ensures WorkOff(cfg, s, m) == WorkOff(cfg, s, mailbox)
      {
        FirstBatchDecides(cfg, s, head, m);
      }
    } else {
      NextBatch(cfg, s, mailbox);
      var j := ExitDropsTheMailbox(cfg, s', mailbox[n..]);
      k := n + j;
      forall m | mailbox[..k + 1] <= m
        ensures WorkOff(cfg, s, m) == WorkOff(cfg, s, mailbox)
      {
        SharedFront(mailbox, m, n, k + 1);
        NextBatch(cfg, s, m);
      }
    }
  }

  /**
   The concrete loss: behind the last disconnect a server-side edit is in neither the document
   nor storage when the actor exits, although the caller is told that it succeeded.
   */
  lemma EditBehindTheExitIsLost(cfg: Config, address: string, u: Content, hooks: seq<bool>)
    requires cfg.unloadImmediately && u != Nothing && AllPass(hooks)
    ensures var s0 := Spawned(Nothing, true);
      var join := Input(0, false, AddConn(1, address, false));
      var leave := Input(0, false, RemoveConn(1, Unload(Stored, hooks)));
      var edit := Input(0, false, DirectApply(Decoded(u)));
      var es := [Mail([join]), Mail([leave, edit])];
      var s := After(cfg, s0, es);
      && IsRun(cfg, s0, es) && Step(cfg, After(cfg, s0, [Mail([join])]), Mail([leave, edit])).1
      && s.doc == s.ledger.storage == Nothing
  {
    var s0 := Spawned(Nothing, true);
    var join := Input(0, false, AddConn(1, address, false));
    var leave := Input(0, false, RemoveConn(1, Unload(Stored, hooks)));
    var edit := Input(0, false, DirectApply(Decoded(u)));
    VisitorJoins(cfg, s0, address);
    var s1 := Step(cfg, s0, Mail([join])).0;
    assert RemoveConnection(cfg, s1.clients, 1, false).conns == map[];
    assert HandleBatch(cfg, s1, [leave, edit]) == HandleCommand(cfg, s1, leave);
    TwoEvents(cfg, s0, Mail([join]), Mail([leave, edit]));
  }

  // ----- what storage may forget -----

  /** An actor whose load succeeded never holds less than storage does. */
  predicate Grounded(s: State) {
    && Covers(s.doc, s.ledger.storage)
    && (s.ledger.storing ==> s.ledger.inflight.Some? && Covers(s.ledger.inflight.value, s.ledger.storage))
  }

  lemma {:induction false} BatchGrowsStorage(cfg: Config, s: State, batch: seq<Input>)
    requires Inv(s) && Grounded(s)
    ensures var s' := HandleBatch(cfg, s, batch).0;
      Grounded(s') && Covers(s'.ledger.storage, s.ledger.storage)
    decreases |batch|
  {
    if batch != [] {
      CommandEffect(cfg, s, batch[0]);
      HandleCommandKeeps(cfg, s, batch[0]);
      var (s', exit) := HandleCommand(cfg, s, batch[0]);
      if !exit {
        BatchGrowsStorage(cfg, s', batch[1..]);
      }
    }
  }

  lemma IdleCheckGrowsStorage(cfg: Config, s: State, env: Unload)
    requires Grounded(s)
    ensures var s' := MaybeUnload(cfg, s, env).0;
      Grounded(s') && Covers(s'.ledger.storage, s.ledger.storage)
  {
  }

  lemma StepGrowsStorage(cfg: Config, s: State, e: Event)
    requires Inv(s) && Grounded(s) && Enabled(cfg, s, e)
    ensures var s' := Step(cfg, s, e).0;
      Grounded(s') && Covers(s'.ledger.storage, s.ledger.storage)
  {
    match e
    case Mail(batch) => BatchGrowsStorage(cfg, s, batch);
    case StoreResult(at, ok, unload) =>
      var t := Tick(s, at);
      IdleCheckGrowsStorage(cfg, t.(ledger := FinishStore(t.ledger, t.clock, ok)), unload);
    case Timer(at, store, unload) =>
      var t := Tick(s, at);
      IdleCheckGrowsStorage(cfg, t.(ledger := RunStore(t.ledger, t.doc, store)), unload);
    case _ =>
  }

  /** Within one actor every stored version covers the one before. */
  lemma {:induction false} RunGrowsStorage(cfg: Config, s: State, es: seq<Event>)
    requires Inv(s) && Grounded(s) && IsRun(cfg, s, es)
    ensures var s' := After(cfg, s, es);
      Grounded(s') && Covers(s'.ledger.storage, s.ledger.storage)
    decreases |es|
  {
    if es != [] {
      StepGrowsStorage(cfg, s, es[0]);
      StepKeeps(cfg, s, es[0]);
      var (s', exit) := Step(cfg, s, es[0]);
      if exit {
        assert es[1..] == [];
      } else {
        RunGrowsStorage(cfg, s', es[1..]);
      }
    }
  }

  // ----- debounce timing -----

  /** From here on, every dirty mark is at least as late as `first` and `last`. */
  predicate NoEarlierThan(s: State, first: nat, last: nat) {
    && first <= last <= s.clock
    && (s.ledger.firstDirty.Some? ==> first <= s.ledger.firstDirty.value)
    && (s.ledger.lastChange.Some? ==> last <= s.ledger.lastChange.value)
  }

  lemma {:induction false} BatchKeepsTime(cfg: Config, s: State, batch: seq<Input>, first: nat, last: nat)
    requires NoEarlierThan(s, first, last)
    ensures NoEarlierThan(HandleBatch(cfg, s, batch).0, first, last)
    decreases |batch|
  {
    if batch != [] {
      CommandEffect(cfg, s, batch[0]);
      var (s', exit) := HandleCommand(cfg, s, batch[0]);
      if !exit {
        BatchKeepsTime(cfg, s', batch[1..], first, last);
      }
    }
  }

  lemma IdleCheckKeepsTime(cfg: Config, s: State, env: Unload, first: nat, last: nat)
    requires NoEarlierThan(s, first, last)
    ensures NoEarlierThan(MaybeUnload(cfg, s, env).0, first, last)
  {
  }

  lemma ResultKeepsTime(cfg: Config, s: State, at: nat, ok: bool, unload: Unload, first: nat, last: nat)
    requires NoEarlierThan(s, first, last)
    ensures NoEarlierThan(HandleStoreResult(cfg, s, at, ok, unload).0, first, last)
  {
    var t := Tick(s, at);
    IdleCheckKeepsTime(cfg, t.(ledger := FinishStore(t.ledger, t.clock, ok)), unload, first, last);
  }

  lemma TimerKeepsTime(cfg: Config, s: State, at: nat, store: StoreOutcome, unload: Unload, first: nat, last: nat)
    requires NoEarlierThan(s, first, last)
    ensures NoEarlierThan(HandleTimer(cfg, s, at, store, unload).0, first, last)
  {
    var t := Tick(s, at);
    IdleCheckKeepsTime(cfg, t.(ledger := RunStore(t.ledger, t.doc, store)), unload, first, last);
  }

  lemma StepKeepsTime(cfg: Config, s: State, e: Event, first: nat, last: nat)
    requires NoEarlierThan(s, first, last)
    ensures NoEarlierThan(Step(cfg, s, e).0, first, last)
  {
    match e
    case Mail(batch) =>
      BatchKeepsTime(cfg, s, batch, first, last);
    case StoreResult(at, ok, unload) => ResultKeepsTime(cfg, s, at, ok, unload, first, last);
    case Timer(at, store, unload) => TimerKeepsTime(cfg, s, at, store, unload, first, last);
    case _ =>
  }

  lemma {:induction false} RunKeepsTime(cfg: Config, s: State, es: seq<Event>, first: nat, last: nat)
    requires NoEarlierThan(s, first, last)
    ensures NoEarlierThan(After(cfg, s, es), first, last)
    decreases |es|
  {
    if es != [] {
      StepKeepsTime(cfg, s, es[0], first, last);
      RunKeepsTime(cfg, Step(cfg, s, es[0]).0, es[1..], first, last);
    }
  }

  /**
   Debounce timing, in every reachable state: dirty holds exactly when both timestamps are
   set, a deadline exists exactly when dirty and not storing, and it is at most `max_debounce`
   after the first unsaved change.
   */
  lemma DeadlineExistsWhenDirty(cfg: Config, storage: Content, loaded: bool, es: seq<Event>)
    requires IsRun(cfg, Spawned(storage, loaded), es)
    ensures var s := After(cfg, Spawned(storage, loaded), es);
      var l, due := s.ledger, Deadline(cfg, s.ledger);
      && (l.dirty <==> l.firstDirty.Some?) && (l.dirty <==> l.lastChange.Some?)
      && (due.Some? <==> l.dirty && !l.storing)
      && (due.Some? ==>
            && due.value <= l.firstDirty.value + cfg.maxDebounce
            && due.value <= l.lastChange.value + cfg.debounce
            && l.lastChange.value <= s.clock
            && (l.lastChange.value + cfg.debounce <= due.value
                || l.firstDirty.value + cfg.maxDebounce <= due.value))
  {
    RunKeeps(cfg, Spawned(storage, loaded), es);
  }

  /** When the present stretch of being dirty began, from what can be seen after each command. */
  function Began(s: State, began: Option<nat>): Option<nat> {
    if !s.ledger.dirty then None else if began.Some? then began else Some(s.clock)
  }

  function BeganInBatch(cfg: Config, s: State, batch: seq<Input>, began: Option<nat>): Option<nat>
    decreases |batch|
  {
    if batch == [] then began
    else
      var (s', exit) := HandleCommand(cfg, s, batch[0]);
      if exit then Began(s', began) else BeganInBatch(cfg, s', batch[1..], Began(s', began))
  }

  function BeganInRun(cfg: Config, s: State, es: seq<Event>, began: Option<nat>): Option<nat>
    decreases |es|
  {
    if es == [] then began
    else
      var s' := Step(cfg, s, es[0]).0;
      BeganInRun(cfg, s', es[1..],
                 if es[0].Mail? then BeganInBatch(cfg, s, es[0].batch, began) else Began(s', began))
  }

  lemma {:induction false} BatchRemembersWhen(cfg: Config, s: State, batch: seq<Input>)
    requires Inv(s)
    ensures HandleBatch(cfg, s, batch).0.ledger.firstDirty ==
      BeganInBatch(cfg, s, batch, s.ledger.firstDirty)
    decreases |batch|
  {
    if batch != [] {
      CommandEffect(cfg, s, batch[0]);
      HandleCommandKeeps(cfg, s, batch[0]);
      var (s', exit) := HandleCommand(cfg, s, batch[0]);
      assert s'.ledger.firstDirty == Began(s', s.ledger.firstDirty);
      if !exit {
        BatchRemembersWhen(cfg, s', batch[1..]);
      }
    }
  }

  lemma EventRemembersWhen(cfg: Config, s: State, e: Event)
    requires Inv(s) && Enabled(cfg, s, e) && !e.Mail?
    ensures Step(cfg, s, e).0.ledger.firstDirty == Began(Step(cfg, s, e).0, s.ledger.firstDirty)
  {
    match e
    case StoreResult(at, ok, unload) =>
      var t := Tick(s, at);
      var l := FinishStore(t.ledger, t.clock, ok);
      IdleCheckRemembersWhen(cfg, t.(ledger := l), unload);
    case Timer(at, store, unload) =>
      var t := Tick(s, at);
      IdleCheckRemembersWhen(cfg, t.(ledger := RunStore(t.ledger, t.doc, store)), unload);
    case _ =>
  }

  lemma IdleCheckRemembersWhen(cfg: Config, s: State, env: Unload)
    ensures var l := MaybeUnload(cfg, s, env).0.ledger;
      || (l.firstDirty == s.ledger.firstDirty && l.dirty == s.ledger.dirty)
      || (!l.dirty && l.firstDirty.None?)
  {
  }

  lemma {:induction false} RunRemembersWhen(cfg: Config, s: State, es: seq<Event>)
    requires Inv(s) && IsRun(cfg, s, es)
    ensures After(cfg, s, es).ledger.firstDirty == BeganInRun(cfg, s, es, s.ledger.firstDirty)
    decreases |es|
  {
    if es != [] {
      StepKeeps(cfg, s, es[0]);
      if es[0].Mail? {
        BatchRemembersWhen(cfg, s, es[0].batch);
      } else {
        EventRemembersWhen(cfg, s, es[0]);
      }
      var (s', exit) := Step(cfg, s, es[0]);
      if exit {
        assert es[1..] == [];
      } else {
        RunRemembersWhen(cfg, s', es[1..]);
      }
    }
  }

  /**
   However often the soft deadline is pushed back, over every run a store is due at most
   `max_debounce` after the actor became dirty, as seen from outside.
   */
  lemma EditsCannotPostponeTheStore(cfg: Config, storage: Content, loaded: bool, es: seq<Event>)
    requires IsRun(cfg, Spawned(storage, loaded), es)
    ensures var s0 := Spawned(storage, loaded);
      var l, began := After(cfg, s0, es).ledger, BeganInRun(cfg, s0, es, None);
      && (l.dirty <==> began.Some?)
      && (l.dirty && !l.storing ==>
            Deadline(cfg, l).Some? && Deadline(cfg, l).value <= began.value + cfg.maxDebounce)
  {
    RunKeeps(cfg, Spawned(storage, loaded), es);
    RunRemembersWhen(cfg, Spawned(storage, loaded), es);
  }

  /** However the run goes on, a later deadline is never earlier than one seen before. */
  lemma DeadlinesNeverMoveEarlier(cfg: Config, s: State, es: seq<Event>)
    requires Inv(s)
    requires Deadline(cfg, s.ledger).Some? && Deadline(cfg, After(cfg, s, es).ledger).Some?
    ensures Deadline(cfg, s.ledger).value <= Deadline(cfg, After(cfg, s, es).ledger).value
  {
    RunKeepsTime(cfg, s, es, s.ledger.firstDirty.value, s.ledger.lastChange.value);
  }
}
