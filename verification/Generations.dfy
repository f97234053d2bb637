/**
 Successive actors for one document: each loads what storage holds, lives through a run, and
 leaves storage to the next.
 */
module Generations {
  import opened Crdt
  import opened ActorSpec
  import opened Authority
  import D = Durability

  /** One actor's life: whether its load succeeded, and the events it lived through. */
  datatype Life = Life(loaded: bool, events: seq<Event>)

  function Final(cfg: Config, storage: Content, life: Life): State {
    After(cfg, Spawned(storage, life.loaded), life.events)
  }

  /** What storage holds after each of the first `|lives|` actors has left. */
  function StorageAfter(cfg: Config, storage: Content, lives: seq<Life>): Content
    decreases |lives|
  {
    if lives == [] then storage
    else StorageAfter(cfg, Final(cfg, storage, lives[0]).ledger.storage, lives[1..])
  }

  /** Every life is a run with a successful load, and none leaves a store behind in flight. */
  predicate WellLived(cfg: Config, storage: Content, lives: seq<Life>)
    decreases |lives|
  {
    lives == [] ||
    (var life := lives[0];
     && life.loaded
     && IsRun(cfg, Spawned(storage, true), life.events)
     && !Final(cfg, storage, life).ledger.storing
     && WellLived(cfg, Final(cfg, storage, life).ledger.storage, lives[1..]))
  }

  lemma LifeGrowsStorage(cfg: Config, storage: Content, life: Life)
    requires life.loaded && IsRun(cfg, Spawned(storage, true), life.events)
    ensures D.Inv(Final(cfg, storage, life))
    ensures Covers(Final(cfg, storage, life).ledger.storage, storage)
  {
    D.RunKeeps(cfg, Spawned(storage, true), life.events);
    D.RunGrowsStorage(cfg, Spawned(storage, true), life.events);
  }

  /** Each stored version covers every earlier one, across any number of generations. */
  lemma {:induction false} StorageOnlyGrows(cfg: Config, storage: Content, lives: seq<Life>)
    requires WellLived(cfg, storage, lives)
    ensures Covers(StorageAfter(cfg, storage, lives), storage)
    decreases |lives|
  {
    if lives != [] {
      LifeGrowsStorage(cfg, storage, lives[0]);
      StorageOnlyGrows(cfg, Final(cfg, storage, lives[0]).ledger.storage, lives[1..]);
    }
  }

  /** What a life that ended clean has written is in storage after all later lives. */
  lemma CleanLifeIsKept(cfg: Config, storage: Content, lives: seq<Life>)
    requires WellLived(cfg, storage, lives) && lives != []
    requires !Final(cfg, storage, lives[0]).ledger.dirty
    ensures var s := Final(cfg, storage, lives[0]);
      && Covers(StorageAfter(cfg, storage, lives), s.doc)
      && s.doc == ApplyEach(storage, RunWrites(cfg, Spawned(storage, true), lives[0].events))
  {
    LifeGrowsStorage(cfg, storage, lives[0]);
    StorageOnlyGrows(cfg, Final(cfg, storage, lives[0]).ledger.storage, lives[1..]);
    DocumentIsItsAuthorizedWrites(cfg, Spawned(storage, true), lives[0].events);
    assert Merge(Nothing, storage) == storage;
  }

  lemma OneLifeLater(cfg: Config, storage: Content, lives: seq<Life>, j: nat)
    requires 0 < j <= |lives|
    ensures StorageAfter(cfg, storage, lives[..j]) ==
      StorageAfter(cfg, Final(cfg, storage, lives[0]).ledger.storage, lives[1..][..j - 1])
  {
    assert lives[..j][0] == lives[0] && lives[..j][1..] == lives[1..][..j - 1];
  }

  lemma {:induction false} CleanLivesAreKept(cfg: Config, storage: Content, lives: seq<Life>, j: nat)
    requires WellLived(cfg, storage, lives) && j < |lives|
    requires !Final(cfg, StorageAfter(cfg, storage, lives[..j]), lives[j]).ledger.dirty
    ensures var before := StorageAfter(cfg, storage, lives[..j]);
      var s := Final(cfg, before, lives[j]);
      && Covers(StorageAfter(cfg, storage, lives), s.doc)
      && s.doc == ApplyEach(before, RunWrites(cfg, Spawned(before, true), lives[j].events))
    decreases |lives|
  {
    if j == 0 {
      assert lives[..0] == [];
      CleanLifeIsKept(cfg, storage, lives);
    } else {
      OneLifeLater(cfg, storage, lives, j);
      assert lives[1..][j - 1] == lives[j];
      CleanLivesAreKept(cfg, Final(cfg, storage, lives[0]).ledger.storage, lives[1..], j - 1);
    }
  }

  /**
   The reload theorem. If some actor left with a clean ledger, then whatever actor loads after
   any number of further generations starts from a document that covers every update the
   earlier actor was authorized to apply.
   */
  lemma {:induction false} ReloadCoversEarlierWork(cfg: Config, storage: Content, lives: seq<Life>, j: nat)
    requires WellLived(cfg, storage, lives) && j < |lives|
    requires !Final(cfg, StorageAfter(cfg, storage, lives[..j]), lives[j]).ledger.dirty
    ensures var before := StorageAfter(cfg, storage, lives[..j]);
      var reloaded := Spawned(StorageAfter(cfg, storage, lives), true);
      && Covers(reloaded.doc, Final(cfg, before, lives[j]).doc)
      && Final(cfg, before, lives[j]).doc
           == ApplyEach(before, RunWrites(cfg, Spawned(before, true), lives[j].events))
  {
    CleanLivesAreKept(cfg, storage, lives, j);
  }
}
