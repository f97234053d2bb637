/**
 Who may change the document, and what a batch's single broadcast means: the document is
 exactly its starting point with the authorized writes applied in order.
 */
module Authority {
  import opened Common
  import opened Crdt
  import opened ActorSpec
  import D = Durability
  import F = Fanout

  /** The update an input is entitled to apply, if any. */
  function Entitled(s: State, cmd: Command): seq<Incoming> {
    var effect := D.EffectOf(s, cmd);
    if effect.Edited? then [effect.update] else []
  }

  function BatchWrites(cfg: Config, s: State, batch: seq<Input>): seq<Incoming>
    decreases |batch|
  {
    if batch == [] then []
    else
      var (s', exit) := HandleCommand(cfg, s, batch[0]);
      Entitled(s, batch[0].cmd) + if exit then [] else BatchWrites(cfg, s', batch[1..])
  }

  function StepWritten(cfg: Config, s: State, e: Event): seq<Incoming> {
    if e.Mail? then BatchWrites(cfg, s, e.batch) else []
  }

  function RunWrites(cfg: Config, s: State, es: seq<Event>): seq<Incoming>
    decreases |es|
  {
    if es == [] then []
    else
      StepWritten(cfg, s, es[0]) + RunWrites(cfg, Step(cfg, s, es[0]).0, es[1..])
  }

  lemma {:induction false} ApplyEachConcat(d: Content, a: seq<Incoming>, b: seq<Incoming>)
    ensures ApplyEach(d, a + b) == ApplyEach(ApplyEach(d, a), b)
    decreases |a|
  {
    if a == [] {
      assert a + b == b;
    } else {
      assert (a + b)[0] == a[0] && (a + b)[1..] == a[1..] + b;
      ApplyEachConcat(a[0].ApplyTo(d), a[1..], b);
    }
  }

  lemma ApplyOne(d: Content, u: Incoming)
    ensures ApplyEach(d, [u]) == u.ApplyTo(d)
  {
    assert [u][1..] == [];
  }

  lemma HandleCommandWrites(cfg: Config, s: State, i: Input)
    ensures HandleCommand(cfg, s, i).0.doc == ApplyEach(s.doc, Entitled(s, i.cmd))
  {
    if Entitled(s, i.cmd) != [] {
      ApplyOne(s.doc, Entitled(s, i.cmd)[0]);
    }
  }

  lemma {:induction false} HandleBatchWrites(cfg: Config, s: State, batch: seq<Input>)
    ensures HandleBatch(cfg, s, batch).0.doc == ApplyEach(s.doc, BatchWrites(cfg, s, batch))
    decreases |batch|
  {
    if batch != [] {
      HandleCommandWrites(cfg, s, batch[0]);
      var (s', exit) := HandleCommand(cfg, s, batch[0]);
      var w := Entitled(s, batch[0].cmd);
      if exit {
        assert w + [] == w;
      } else {
        HandleBatchWrites(cfg, s', batch[1..]);
        ApplyEachConcat(s.doc, w, BatchWrites(cfg, s', batch[1..]));
      }
    }
  }

  lemma StepWrites(cfg: Config, s: State, e: Event)
    ensures Step(cfg, s, e).0.doc == ApplyEach(s.doc, StepWritten(cfg, s, e))
  {
    if e.Mail? {
      HandleBatchWrites(cfg, s, e.batch);
    }
  }

  /**
   Write authority, over every run: the document is the starting document with exactly the
   updates applied that came from DirectApply, from a peer node, or from a connection that at
   that moment was in the map, could write, and passed every hook.
   */
  lemma {:induction false} DocumentIsItsAuthorizedWrites(cfg: Config, s: State, es: seq<Event>)
    ensures After(cfg, s, es).doc == ApplyEach(s.doc, RunWrites(cfg, s, es))
    decreases |es|
  {
    if es != [] {
      var s' := Step(cfg, s, es[0]).0;
      var w := StepWritten(cfg, s, es[0]);
      StepWrites(cfg, s, es[0]);
      DocumentIsItsAuthorizedWrites(cfg, s', es[1..]);
      ApplyEachConcat(s.doc, w, RunWrites(cfg, s', es[1..]));
    }
  }

  // ----- read-only connections -----

  predicate OnlyReaders(cl: Clients) {
    forall id | id in cl.conns :: cl.conns[id].readOnly
  }

  /** Any input at all, except a server-side edit, a peer's update, or a new writer. */
  predicate ReaderInput(cmd: Command) {
    match cmd
    case AddConn(_, _, readOnly) => readOnly
    case DirectApply(_) => false
    case ExternalFrame(SyncMsg(Update(_)), _) => false
    case _ => true
  }

  predicate ReaderBatch(batch: seq<Input>) {
    forall i | 0 <= i < |batch| :: ReaderInput(batch[i].cmd)
  }

  predicate ReaderRun(es: seq<Event>) {
    forall i | 0 <= i < |es| && es[i].Mail? :: ReaderBatch(es[i].batch)
  }

  lemma RemovingKeepsReaders(cfg: Config, cl: Clients, id: nat, encodes: bool)
    requires OnlyReaders(cl)
    ensures OnlyReaders(RemoveConnection(cfg, cl, id, encodes))
  {
    if id in cl.conns {
      var gone := cl.conns[id].clientIds;
      assert OnlyReaders(Broadcast(cfg, TakeOut(cl, id), Awareness(gone)));
    }
  }

  lemma HandleAwarenessKeepsReaders(cfg: Config, cl: Clients, entries: map<nat, bool>,
                                    newer: set<nat>, origin: Origin, encodes: bool)
    requires OnlyReaders(cl)
    ensures OnlyReaders(HandleAwareness(cfg, cl, entries, newer, origin, encodes))
  {
    var cl1 := cl.(aware := ApplyAwareness(cl.aware, entries, newer, origin));
    var cl2 := TrackClients(cl1, origin, entries.Keys);
    assert OnlyReaders(cl2);
    assert OnlyReaders(Broadcast(cfg, cl2, Awareness(entries.Keys)));
  }

  lemma ClientFrameKeepsReaders(cfg: Config, s: State, id: nat, msg: Message, hooks: seq<Verdict>,
                                encodes: bool)
    requires OnlyReaders(s.clients)
    ensures OnlyReaders(HandleClientFrame(cfg, s, id, msg, hooks, encodes).clients)
  {
    if id in s.clients.conns {
      match msg
      case SyncMsg(Step1(sv)) =>
        assert OnlyReaders(Reply(cfg, s.clients, id, SyncStep2(sv, EncodeDiff(s.doc, sv))));
      case AwarenessMsg(entries, newer) =>
        HandleAwarenessKeepsReaders(cfg, s.clients, entries, newer, Connection(id), encodes);
      case CloseMsg =>
        RemovingKeepsReaders(cfg, SendClose(cfg, s.clients, id, ProviderInitiated), id, encodes);
      case BroadcastStateless(_) =>
        RemovingKeepsReaders(cfg, SendClose(cfg, s.clients, id, ResetConnection), id, encodes);
      case _ =>
    }
  }

  lemma HandleCommandKeepsReaders(cfg: Config, s: State, i: Input)
    requires OnlyReaders(s.clients) && ReaderInput(i.cmd)
    ensures OnlyReaders(HandleCommand(cfg, s, i).0.clients) && Entitled(s, i.cmd) == []
  {
    match i.cmd
    case ClientFrame(id, msg, hooks) =>
      ClientFrameKeepsReaders(cfg, Tick(s, i.at), id, msg, hooks, i.encodes);
    case RemoveConn(id, _) => RemovingKeepsReaders(cfg, s.clients, id, i.encodes);
    case ExternalFrame(AwarenessMsg(entries, newer), _) =>
      HandleAwarenessKeepsReaders(cfg, s.clients, entries, newer, Redis, i.encodes);
    case _ =>
  }

  lemma {:induction false} HandleBatchKeepsReaders(cfg: Config, s: State, batch: seq<Input>)
    requires OnlyReaders(s.clients) && ReaderBatch(batch)
    ensures OnlyReaders(HandleBatch(cfg, s, batch).0.clients) && BatchWrites(cfg, s, batch) == []
    decreases |batch|
  {
    if batch != [] {
      HandleCommandKeepsReaders(cfg, s, batch[0]);
      var (s', exit) := HandleCommand(cfg, s, batch[0]);
      if !exit {
        HandleBatchKeepsReaders(cfg, s', batch[1..]);
      }
    }
  }

  lemma StepKeepsReaders(cfg: Config, s: State, e: Event)
    requires OnlyReaders(s.clients) && (e.Mail? ==> ReaderBatch(e.batch))
    ensures OnlyReaders(Step(cfg, s, e).0.clients) && Step(cfg, s, e).0.doc == s.doc
  {
    if e.Mail? {
      HandleBatchKeepsReaders(cfg, s, e.batch);
      HandleBatchWrites(cfg, s, e.batch);
    }
  }

  /** No sequence of frames of any kind from read-only connections alters the document. */
  lemma {:induction false} ReadersCannotWrite(cfg: Config, s: State, es: seq<Event>)
    requires OnlyReaders(s.clients) && ReaderRun(es)
    ensures After(cfg, s, es).doc == s.doc && OnlyReaders(After(cfg, s, es).clients)
    decreases |es|
  {
    if es != [] {
      StepKeepsReaders(cfg, s, es[0]);
      assert forall i | 0 <= i < |es[1..]| :: es[1..][i] == es[i + 1];
      ReadersCannotWrite(cfg, Step(cfg, s, es[0]).0, es[1..]);
    }
  }

  // ----- the coalesced broadcast of one batch -----

  /** While a batch runs, a held base is the state vector the batch started from. */
  predicate BaseIsStart(start: Content, s: State) {
    match s.base
    case None => s.doc == start
    case Some(sv) => sv == Vector(start)
  }

  lemma HandleCommandKeepsBase(cfg: Config, start: Content, s: State, i: Input)
    requires BaseIsStart(start, s)
    ensures BaseIsStart(start, HandleCommand(cfg, s, i).0)
  {
  }

  lemma {:induction false} HandleBatchKeepsBase(cfg: Config, start: Content, s: State,
                                                batch: seq<Input>)
    requires BaseIsStart(start, s)
    ensures BaseIsStart(start, HandleBatch(cfg, s, batch).0)
    decreases |batch|
  {
    if batch != [] {
      HandleCommandKeepsBase(cfg, start, s, batch[0]);
      var (s', exit) := HandleCommand(cfg, s, batch[0]);
      if !exit {
        HandleBatchKeepsBase(cfg, start, s', batch[1..]);
      }
    }
  }

  /**
   The one frame a batch broadcasts does to any replica holding the state before the batch
   exactly what one frame per applied update would have done; a batch that broadcasts nothing
   has changed nothing.
   */
  lemma OneFrameStandsForTheBatch(cfg: Config, s: State, batch: seq<Input>, replica: Content)
    requires F.AtRest(s) && Covers(replica, Visible(s.doc))
    ensures var end := HandleBatch(cfg, s, batch).0;
      && (!end.pending ==> end.doc == s.doc)
      && (end.pending ==>
            Merge(replica, Owed(end)) == MergeAll(replica, EachDelta(s.doc, BatchWrites(cfg, s, batch))))
  {
    HandleBatchKeepsBase(cfg, s.doc, s, batch);
    F.HandleBatchKeeps(cfg, s, batch);
    HandleBatchWrites(cfg, s, batch);
    CoalescingPreservesMeaning(s.doc, BatchWrites(cfg, s, batch), replica);
  }
}
