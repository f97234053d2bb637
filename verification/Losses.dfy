/**
 What the storage holds at the end of any run, and what is lost when the actor stops there:
 every stored version is the document after some prefix of the authorized writes, so a loss is
 exactly what came later and is not in that version.
 */
module Losses {
  import opened Common
  import opened Crdt
  import opened ActorSpec
  import opened Authority
  import D = Durability

  // ----- versions of the document -----

  /** The document after each prefix of the writes `w` to `d`. */
  function Versions(d: Content, w: seq<Incoming>): set<Content>
    decreases |w|
  {
    (if w == [] then {} else Versions(d, w[..|w| - 1])) + {ApplyEach(d, w)}
  }

  lemma {:induction false} VersionsGrow(d: Content, w: seq<Incoming>, more: seq<Incoming>)
    ensures Versions(d, w) <= Versions(d, w + more)
    ensures ApplyEach(d, w + more) in Versions(d, w + more)
    decreases |more|
  {
    if more == [] {
      assert w + more == w;
    } else {
      assert (w + more)[..|w + more| - 1] == w + more[..|more| - 1];
      VersionsGrow(d, w, more[..|more| - 1]);
    }
  }

  lemma {:induction false} VersionIsAPrefix(d: Content, w: seq<Incoming>, c: Content)
    returns (k: nat)
    requires c in Versions(d, w)
    ensures k <= |w| && c == ApplyEach(d, w[..k])
    decreases |w|
  {
    if c == ApplyEach(d, w) {
      k := |w|;
      assert w[..k] == w;
    } else {
      k := VersionIsAPrefix(d, w[..|w| - 1], c);
      assert w[..|w| - 1][..k] == w[..k];
    }
  }

  /**
   After the writes `w` to `d`: storage still holds `found`, or a version; and a snapshot in
   flight is a version.
   */
  predicate Traced(d: Content, found: Content, w: seq<Incoming>, s: State) {
    && s.doc == ApplyEach(d, w)
    && s.ledger.storage in Versions(d, w) + {found}
    && (s.ledger.inflight.Some? ==> s.ledger.inflight.value in Versions(d, w))
  }

  /** Storage got the document, the snapshot, or nothing; the snapshot is the document's, or gone. */
  predicate OnlyCopies(d: Content, l: Ledger, l': Ledger) {
    && (l'.storage in {l.storage, d} || Some(l'.storage) == l.inflight)
    && l'.inflight in {l.inflight, None, Some(d)}
  }

  lemma TracedMoves(d: Content, found: Content, w: seq<Incoming>, s: State, more: seq<Incoming>, s': State)
    requires Traced(d, found, w, s) && s'.doc == ApplyEach(s.doc, more)
    requires OnlyCopies(s.doc, s.ledger, s'.ledger)
    ensures Traced(d, found, w + more, s')
  {
    ApplyEachConcat(d, w, more);
    VersionsGrow(d, w, more);
  }

  lemma CommandIsTraced(cfg: Config, d: Content, found: Content, w: seq<Incoming>, s: State, i: Input)
    requires Traced(d, found, w, s)
    ensures Traced(d, found, w + Entitled(s, i.cmd), HandleCommand(cfg, s, i).0)
  {
    HandleCommandWrites(cfg, s, i);
    D.CommandEffect(cfg, s, i);
    TracedMoves(d, found, w, s, Entitled(s, i.cmd), HandleCommand(cfg, s, i).0);
  }

  /** Writing `more` after `now` is writing both. */
  lemma TracedTogether(d: Content, found: Content, w: seq<Incoming>, now: seq<Incoming>,
                       more: seq<Incoming>, s: State)
    requires Traced(d, found, w + now + more, s)
    ensures Traced(d, found, w + (now + more), s)
  {
    assert w + now + more == w + (now + more);
  }

  lemma {:induction false} BatchIsTraced(cfg: Config, d: Content, found: Content, w: seq<Incoming>,
                                         s: State, batch: seq<Input>)
    requires Traced(d, found, w, s)
    ensures Traced(d, found, w + BatchWrites(cfg, s, batch), HandleBatch(cfg, s, batch).0)
    decreases |batch|
  {
    if batch == [] {
      assert w + [] == w;
    } else {
      var (s', exit) := HandleCommand(cfg, s, batch[0]);
      var now := Entitled(s, batch[0].cmd);
      CommandIsTraced(cfg, d, found, w, s, batch[0]);
      if exit {
        assert now + [] == now;
      } else {
        BatchIsTraced(cfg, d, found, w + now, s', batch[1..]);
        TracedTogether(d, found, w, now, BatchWrites(cfg, s', batch[1..]), HandleBatch(cfg, s', batch[1..]).0);
      }
    }
  }

  lemma IdleCheckOnlyCopies(cfg: Config, s: State, env: Unload, l: Ledger)
    requires OnlyCopies(s.doc, l, s.ledger)
    ensures var s' := MaybeUnload(cfg, s, env).0;
      s'.doc == s.doc && OnlyCopies(s.doc, l, s'.ledger)
  {
  }

  /** Between batches only snapshots move. */
  lemma OtherEventsOnlyCopy(cfg: Config, s: State, e: Event)
    requires !e.Mail?
    ensures var s' := Step(cfg, s, e).0;
      s'.doc == s.doc && OnlyCopies(s.doc, s.ledger, s'.ledger)
  {
    match e
    case StoreResult(at, ok, unload) =>
      var t := Tick(s, at);
      IdleCheckOnlyCopies(cfg, t.(ledger := FinishStore(t.ledger, t.clock, ok)), unload, s.ledger);
    case Timer(at, store, unload) =>
      var t := Tick(s, at);
      IdleCheckOnlyCopies(cfg, t.(ledger := RunStore(t.ledger, t.doc, store)), unload, s.ledger);
    case _ =>
  }

  lemma StepIsTraced(cfg: Config, d: Content, found: Content, w: seq<Incoming>, s: State, e: Event)
    requires Traced(d, found, w, s)
    ensures Traced(d, found, w + StepWritten(cfg, s, e), Step(cfg, s, e).0)
  {
    if e.Mail? {
      BatchIsTraced(cfg, d, found, w, s, e.batch);
    } else {
      OtherEventsOnlyCopy(cfg, s, e);
      TracedMoves(d, found, w, s, [], Step(cfg, s, e).0);
    }
  }

  lemma {:induction false} RunIsTraced(cfg: Config, d: Content, found: Content, w: seq<Incoming>,
                                       s: State, es: seq<Event>)
    requires Traced(d, found, w, s)
    ensures Traced(d, found, w + RunWrites(cfg, s, es), After(cfg, s, es))
    decreases |es|
  {
    if es == [] {
      assert w + [] == w;
    } else {
      var s', now := Step(cfg, s, es[0]).0, StepWritten(cfg, s, es[0]);
      StepIsTraced(cfg, d, found, w, s, es[0]);
      RunIsTraced(cfg, d, found, w + now, s', es[1..]);
      TracedTogether(d, found, w, now, RunWrites(cfg, s', es[1..]), After(cfg, s', es[1..]));
    }
  }

  /**
   Over every run, whatever stores failed and whenever they wrote: storage is what the actor
   found, or the document as it was after the first `k` authorized writes.
   */
  lemma StorageIsAVersion(cfg: Config, storage: Content, loaded: bool, es: seq<Event>)
    returns (k: nat)
    ensures var s0 := Spawned(storage, loaded);
      var s, w := After(cfg, s0, es), RunWrites(cfg, s0, es);
      && k <= |w|
      && s.doc == ApplyEach(s0.doc, w)
      && (s.ledger.storage == ApplyEach(s0.doc, w[..k]) || (k == 0 && s.ledger.storage == storage))
  {
    var s0 := Spawned(storage, loaded);
    var w := RunWrites(cfg, s0, es);
    RunIsTraced(cfg, s0.doc, storage, [], s0, es);
    assert [] + w == w;
    var kept := After(cfg, s0, es).ledger.storage;
    if kept == storage {
      k := 0;
    } else {
      k := VersionIsAPrefix(s0.doc, w, kept);
    }
  }

  // ----- what a version holds -----

  predicate Mentions(us: seq<Incoming>, id: Id) {
    exists i | 0 <= i < |us| :: us[i].Decoded? && id in us[i].update.ops
  }

  predicate MentionsDeletion(us: seq<Incoming>, id: Id) {
    exists i | 0 <= i < |us| :: us[i].Decoded? && id in us[i].update.dels
  }

  /** Every operation and every deletion of `c` is in one of the updates. */
  predicate Resent(us: seq<Incoming>, c: Content) {
    && (forall id | id in c.ops :: Mentions(us, id))
    && (forall id | id in c.dels :: MentionsDeletion(us, id))
  }

  lemma MentionsFirst(us: seq<Incoming>, id: Id)
    requires us != []
    ensures Mentions(us, id) <==> (us[0].Decoded? && id in us[0].update.ops) || Mentions(us[1..], id)
    ensures MentionsDeletion(us, id) <==>
      (us[0].Decoded? && id in us[0].update.dels) || MentionsDeletion(us[1..], id)
  {
    assert us == [us[0]] + us[1..];
    assert forall i | 0 <= i < |us[1..]| :: us[1..][i] == us[i + 1];
    assert forall i | 0 < i < |us| :: us[i] == us[1..][i - 1];
  }

  lemma {:induction false} ApplyingIsTheUnion(d: Content, us: seq<Incoming>, id: Id)
    ensures id in ApplyEach(d, us).ops <==> id in d.ops || Mentions(us, id)
    ensures id in ApplyEach(d, us).dels <==> id in d.dels || MentionsDeletion(us, id)
    decreases |us|
  {
    if us != [] {
      ApplyingIsTheUnion(us[0].ApplyTo(d), us[1..], id);
      MentionsFirst(us, id);
    }
  }

  lemma ResentIsCovered(us: seq<Incoming>, c: Content)
    ensures Covers(ApplyEach(Nothing, us), c) <==> Resent(us, c)
  {
    forall id
      ensures id in ApplyEach(Nothing, us).ops <==> Mentions(us, id)
      ensures id in ApplyEach(Nothing, us).dels <==> MentionsDeletion(us, id)
    {
      ApplyingIsTheUnion(Nothing, us, id);
    }
  }

  // ----- after a failed load -----

  /**
   Why the load must have succeeded. The actor serves on after a failed load, and at the end of
   every run storage is untouched, or it holds some first `k` writes and nothing else; so what
   was stored before survives if and only if no store has replaced it, or each of its
   operations and deletions was sent again among those writes.
   */
  lemma FailedLoadStoresOnlyWhatWasResent(cfg: Config, storage: Content, es: seq<Event>)
    returns (k: nat)
    ensures var s0 := Spawned(storage, false);
      var kept, w := After(cfg, s0, es).ledger.storage, RunWrites(cfg, s0, es);
      && k <= |w|
      && (kept == storage || kept == ApplyEach(Nothing, w[..k]))
      && (Covers(kept, storage) <==> kept == storage || Resent(w[..k], storage))
  {
    k := StorageIsAVersion(cfg, storage, false, es);
    var w := RunWrites(cfg, Spawned(storage, false), es);
    ResentIsCovered(w[..k], storage);
    if k == 0 && storage == Nothing {
      assert w[..0] == [];
    }
  }

  /** The loss: a failed load, one client that edits and leaves, one successful store. */
  lemma FailedLoadLosesData(cfg: Config, address: string, found: Content, u: Content, hooks: seq<bool>)
    requires cfg.unloadImmediately && AllPass(hooks) && u != Nothing && !Covers(u, found)
    ensures var s0, es := Spawned(found, false), D.Visit(address, u, Unload(Stored, hooks));
      var s := After(cfg, s0, es);
      && IsRun(cfg, s0, es) && !s.ledger.dirty
      && s.ledger.storage == u && !Covers(s.ledger.storage, found)
  {
    assert Merge(Nothing, u) == u && Spawned(found, false).doc == Nothing;
    D.VisitEnds(cfg, found, false, address, u, Stored, hooks);
  }

  // ----- a closed mailbox -----

  /** Some update is not in `c`. */
  predicate SomeUnsaved(us: seq<Incoming>, c: Content) {
    exists i | 0 <= i < |us| :: us[i].Decoded? && !Covers(c, us[i].update)
  }

  lemma {:induction false} CoveringAllWrites(c: Content, d: Content, us: seq<Incoming>)
    requires Covers(c, d)
    ensures Covers(c, ApplyEach(d, us)) <==> !SomeUnsaved(us, c)
    decreases |us|
  {
    if us != [] {
      var d' := us[0].ApplyTo(d);
      assert forall i | 0 <= i < |us[1..]| :: us[1..][i] == us[i + 1];
      assert forall i | 0 < i < |us| :: us[i] == us[1..][i - 1];
      if Covers(c, d') {
        CoveringAllWrites(c, d', us[1..]);
      } else {
        assert SomeUnsaved(us, c);
        assert Covers(ApplyEach(d', us[1..]), d');
      }
    }
  }

  lemma VersionLacksWhatCameLater(c: Content, d: Content, w: seq<Incoming>, k: nat)
    requires k <= |w| && (c == ApplyEach(d, w[..k]) || (k == 0 && Covers(c, d)))
    ensures Covers(c, ApplyEach(d, w)) <==> !SomeUnsaved(w[k..], c)
  {
    assert w[..k] + w[k..] == w;
    ApplyEachConcat(d, w[..k], w[k..]);
    CoveringAllWrites(c, ApplyEach(d, w[..k]), w[k..]);
  }

  /**
   The loss at the end of any run: storage lacks part of the document if and only if one of the
   writes after the version it holds is not in that version.
   */
  lemma LossIsWhatCameLater(cfg: Config, storage: Content, loaded: bool, es: seq<Event>)
    returns (k: nat)
    ensures var s0 := Spawned(storage, loaded);
      var s, w := After(cfg, s0, es), RunWrites(cfg, s0, es);
      && k <= |w|
      && (s.ledger.storage == ApplyEach(s0.doc, w[..k]) || (k == 0 && s.ledger.storage == storage))
      && (!Covers(s.ledger.storage, s.doc) <==> SomeUnsaved(w[k..], s.ledger.storage))
  {
    var s0 := Spawned(storage, loaded);
    k := StorageIsAVersion(cfg, storage, loaded, es);
    var w, kept := RunWrites(cfg, s0, es), After(cfg, s0, es).ledger.storage;
    VersionLacksWhatCameLater(kept, s0.doc, w, k);
  }

  /** What the actor leaves behind if its mailbox closes now. */
  datatype Fate =
    | Safe                   // storage has the document
    | InOrphan               // only the background store, which outlives the actor, has it all
    | Lost                   // neither has it all

  function FateOf(l: Ledger, d: Content): Fate {
    if Covers(l.storage, d) then Safe
    else if l.inflight.Some? && !l.written && Covers(l.inflight.value, d) then InOrphan
    else Lost
  }

  /**
   The exit that stores nothing: every sender is gone and the loop breaks. Over every run that
   ends this way, the document is out of storage if and only if a write after the stored version
   is not in it; that needs unsaved changes or a store that has not written yet. If there are no
   unsaved changes, the store in flight, which runs on, holds exactly the document; if there are,
   and they changed the document since the snapshot, they are nowhere.
   */
  lemma ClosedMailboxBoundary(cfg: Config, storage: Content, loaded: bool, es: seq<Event>)
    returns (k: nat)
    requires IsRun(cfg, Spawned(storage, loaded), es)
    ensures var s0 := Spawned(storage, loaded);
      var (s, exit) := Step(cfg, After(cfg, s0, es), MailboxClosed);
      var l, w := s.ledger, RunWrites(cfg, s0, es);
      && exit && k <= |w|
      && (l.storage == ApplyEach(s0.doc, w[..k]) || (k == 0 && l.storage == storage))
      && (FateOf(l, s.doc).Safe? <==> !SomeUnsaved(w[k..], l.storage))
      && (FateOf(l, s.doc).InOrphan? <==>
            SomeUnsaved(w[k..], l.storage) && l.storing && !l.written && l.inflight == Some(s.doc))
      && (FateOf(l, s.doc).Lost? ==> l.dirty)
      && (!l.dirty && !l.storing ==> FateOf(l, s.doc).Safe?)
  {
    k := LossIsWhatCameLater(cfg, storage, loaded, es);
    D.RunKeeps(cfg, Spawned(storage, loaded), es);
    var s := After(cfg, Spawned(storage, loaded), es);
    if s.ledger.storing && Covers(s.ledger.inflight.value, s.doc) {
      assert s.ledger.inflight.value == s.doc;
    }
  }

  /** It happens to every configuration: a server-side edit, and the last handle is dropped. */
  lemma ClosedMailboxLosesEdits(cfg: Config, u: Content)
    requires u != Nothing
    ensures var s0 := Spawned(Nothing, true);
      var es := [Mail([Input(0, false, DirectApply(Decoded(u)))]), MailboxClosed];
      var s := After(cfg, s0, es);
      && IsRun(cfg, s0, es) && s.ledger.dirty
      && s.doc == u && s.ledger.storage == Nothing && FateOf(s.ledger, s.doc).Lost?
  {
    var s0, edit := Spawned(Nothing, true), Input(0, false, DirectApply(Decoded(u)));
    var es := [Mail([edit]), MailboxClosed];
    assert s0.doc == Nothing && Merge(Nothing, u) == u;
    var s1 := HandleCommand(cfg, s0, edit).0;
    assert [edit][1..] == [];
    assert HandleBatch(cfg, s0, [edit]) == (s1, false);
    D.TwoEvents(cfg, s0, es[0], es[1]);
    assert !Covers(Nothing, u);
  }
}
