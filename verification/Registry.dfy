/**
 Double-checked creation of document actors: any number of concurrent `document(name)` calls,
 each a sequence of atomic steps, in any interleaving. Nothing is removed from the registry.
 */
module Registry {
  import opened Common

  /** Where a caller is. From `Holding` to `Releasing` it owns its creation lock. */
  datatype Pc =
    | Start
    | WantLock
    | Waiting(lock: nat)
    | Holding(lock: nat)
    | Spawning(lock: nat)
    | Inserting(lock: nat, handle: nat)
    | Clearing(lock: nat, handle: nat)
    | Releasing(lock: nat, result: Option<nat>)
    | Returned(result: Option<nat>)

  datatype Caller = Caller(name: string, pc: Pc)

  datatype State = State(
    documents: map<string, nat>,
    creating: map<string, nat>,
    holder: map<nat, nat>,       // lock -> the caller that owns it
    nextLock: nat,
    spawned: seq<string>,        // actor handle -> the name it was spawned for
    callers: map<nat, Caller>)

  const Init := State(map[], map[], map[], 0, [], map[])

  predicate OwnsLock(pc: Pc) {
    pc.Holding? || pc.Spawning? || pc.Inserting? || pc.Clearing? || pc.Releasing?
  }

  /** One atomic step of one caller, or the arrival of a new caller. */
  datatype Action = Arrive(id: nat, name: string) | Advance(id: nat, spawnWorks: bool)

  predicate Enabled(s: State, a: Action) {
    match a
    case Arrive(id, _) => id !in s.callers
    case Advance(id, _) =>
      && id in s.callers
      && !s.callers[id].pc.Returned?
      && (s.callers[id].pc.Waiting? ==> s.callers[id].pc.lock !in s.holder)
  }

  function Goto(s: State, id: nat, pc: Pc): State
    requires id in s.callers
  {
    s.(callers := s.callers[id := s.callers[id].(pc := pc)])
  }

  function Step(s: State, a: Action): State
    requires Enabled(s, a)
  {
    match a
    case Arrive(id, name) => s.(callers := s.callers[id := Caller(name, Start)])
    case Advance(id, spawnWorks) =>
      var name := s.callers[id].name;
      match s.callers[id].pc
      case Start =>
        Goto(s, id, if name in s.documents then Returned(Some(s.documents[name])) else WantLock)
      case WantLock =>
        if name in s.creating then Goto(s, id, Waiting(s.creating[name]))
        else Goto(s.(creating := s.creating[name := s.nextLock], nextLock := s.nextLock + 1),
                  id, Waiting(s.nextLock))
      case Waiting(lock) => Goto(s.(holder := s.holder[lock := id]), id, Holding(lock))
      case Holding(lock) =>
        Goto(s, id, if name in s.documents then Releasing(lock, Some(s.documents[name]))
                    else Spawning(lock))
      case Spawning(lock) =>
        if spawnWorks
        then Goto(s.(spawned := s.spawned + [name]), id, Inserting(lock, |s.spawned|))
        else Goto(s, id, Releasing(lock, None))
      case Inserting(lock, h) =>
        Goto(s.(documents := s.documents[name := h]), id, Clearing(lock, h))
      case Clearing(lock, h) =>
        Goto(s.(creating := s.creating - {name}), id, Releasing(lock, Some(h)))
      case Releasing(lock, result) => Goto(s.(holder := s.holder - {lock}), id, Returned(result))
      case Returned(_) => s
  }

  predicate IsRun(s: State, actions: seq<Action>)
    decreases |actions|
  {
    actions == [] || (Enabled(s, actions[0]) && IsRun(Step(s, actions[0]), actions[1..]))
  }

  function After(s: State, actions: seq<Action>): State
    requires IsRun(s, actions)
    decreases |actions|
  {
    if actions == [] then s else After(Step(s, actions[0]), actions[1..])
  }

  // ----- the invariant -----

  /** A lock is owned by exactly the caller that is inside its critical section. */
  predicate LocksAreExclusive(s: State) {
    && (forall id | id in s.callers && OwnsLock(s.callers[id].pc) ::
          s.callers[id].pc.lock in s.holder && s.holder[s.callers[id].pc.lock] == id)
    && (forall l | l in s.holder ::
          s.holder[l] in s.callers && OwnsLock(s.callers[s.holder[l]].pc)
          && s.callers[s.holder[l]].pc.lock == l)
  }

  /** While a name is not registered, all its callers meet at the one lock in `creating`. */
  predicate OneMeetingPoint(s: State) {
    forall id | id in s.callers :: Meets(s.documents, s.creating, s.callers[id])
  }

  predicate PointsAgree(s: State) {
    forall id | id in s.callers :: PointAgrees(s.documents, s.spawned, s.callers[id])
  }

  /** Every spawned actor is registered under its name or about to be. */
  predicate NoStrayActor(s: State) {
    && (forall h | 0 <= h < |s.spawned| ::
          Registered(s, h) || BeingInserted(s, h))
    && (forall name | name in s.documents ::
          s.documents[name] < |s.spawned| && s.spawned[s.documents[name]] == name)
  }

  predicate BeingInserted(s: State, h: nat) {
    exists id | id in s.callers :: s.callers[id].pc.Inserting? && s.callers[id].pc.handle == h
                                   && h < |s.spawned| && s.callers[id].name == s.spawned[h]
  }

  predicate Inv(s: State) {
    LocksAreExclusive(s) && OneMeetingPoint(s) && PointsAgree(s) && NoStrayActor(s)
  }

  // ----- every step keeps it -----

  /** Two callers of one unregistered name cannot both be past their lock. */
  lemma CriticalSectionIsExclusive(s: State, a: nat, b: nat)
    requires LocksAreExclusive(s) && OneMeetingPoint(s)
    requires a in s.callers && b in s.callers && s.callers[a].name == s.callers[b].name
    requires s.callers[a].name !in s.documents
    requires OwnsLock(s.callers[a].pc) && OwnsLock(s.callers[b].pc)
    ensures a == b
  {
    assert Meets(s.documents, s.creating, s.callers[a]) && Meets(s.documents, s.creating, s.callers[b]);
    assert s.callers[a].pc.lock == s.callers[b].pc.lock;
  }

  /** The lock operations in one step: take a free lock, give up one's own, or neither. */
  predicate LockMove(s: State, s': State, id: nat) {
    && id in s.callers && s'.callers.Keys == s.callers.Keys
    && (forall x | x in s.callers && x != id :: s'.callers[x] == s.callers[x])
    && var was, now := s.callers[id].pc, s'.callers[id].pc;
       match was
       case Waiting(lock) =>
         lock !in s.holder && now == Holding(lock) && s'.holder == s.holder[lock := id]
       case Releasing(lock, result) => now == Returned(result) && s'.holder == s.holder - {lock}
       case _ =>
         s'.holder == s.holder && (OwnsLock(now) <==> OwnsLock(was))
         && (OwnsLock(was) ==> now.lock == was.lock)
  }

  lemma LockMoveKeepsExclusion(s: State, s': State, id: nat)
    requires LocksAreExclusive(s) && LockMove(s, s', id)
    ensures LocksAreExclusive(s')
  {
  }

  lemma StepIsALockMove(s: State, a: Action)
    requires Enabled(s, a) && a.Advance?
    ensures LockMove(s, Step(s, a), a.id)
  {
  }

  lemma StepKeepsLocks(s: State, a: Action)
    requires Enabled(s, a) && LocksAreExclusive(s)
    ensures LocksAreExclusive(Step(s, a))
  {
    if a.Advance? {
      StepIsALockMove(s, a);
      LockMoveKeepsExclusion(s, Step(s, a), a.id);
    }
  }

  /** The caller meets the others of its name, if that name is not registered. */
  predicate Meets(documents: map<string, nat>, creating: map<string, nat>, c: Caller) {
    c.name !in documents && (c.pc.Waiting? || OwnsLock(c.pc)) ==>
      c.name in creating && creating[c.name] == c.pc.lock
  }

  lemma MoverMeets(s: State, a: Action)
    requires Enabled(s, a) && OneMeetingPoint(s) && PointsAgree(s)
    ensures Meets(Step(s, a).documents, Step(s, a).creating, Step(s, a).callers[a.id])
  {
    if a.Advance? {
      assert Meets(s.documents, s.creating, s.callers[a.id]);
      assert PointAgrees(s.documents, s.spawned, s.callers[a.id]);
    }
  }

  lemma BystanderMeets(s: State, a: Action, c: Caller)
    requires Enabled(s, a) && PointsAgree(s) && Meets(s.documents, s.creating, c)
    ensures Meets(Step(s, a).documents, Step(s, a).creating, c)
  {
    if a.Advance? {
      assert PointAgrees(s.documents, s.spawned, s.callers[a.id]);
    }
  }

  lemma OthersStay(s: State, a: Action, id: nat)
    requires Enabled(s, a) && id in Step(s, a).callers && id != a.id
    ensures id in s.callers && Step(s, a).callers[id] == s.callers[id]
  {
  }

  lemma StepKeepsMeetingPoint(s: State, a: Action)
    requires Enabled(s, a) && OneMeetingPoint(s) && PointsAgree(s)
    ensures OneMeetingPoint(Step(s, a))
  {
    var s' := Step(s, a);
    forall id | id in s'.callers
      ensures Meets(s'.documents, s'.creating, s'.callers[id])
    {
      if id == a.id {
        MoverMeets(s, a);
      } else {
        OthersStay(s, a, id);
        BystanderMeets(s, a, s.callers[id]);
      }
    }
  }

  /** What one program point knows about the registry. */
  predicate PointAgrees(documents: map<string, nat>, spawned: seq<string>, c: Caller) {
    match c.pc
    case Spawning(_) => c.name !in documents
    case Inserting(_, h) => c.name !in documents && h < |spawned| && spawned[h] == c.name
    case Clearing(_, h) => c.name in documents && documents[c.name] == h
    case Releasing(_, Some(h)) => c.name in documents && documents[c.name] == h
    case Returned(Some(h)) => c.name in documents && documents[c.name] == h
    case _ => true
  }

  lemma StepKeepsPoints(s: State, a: Action)
    requires Enabled(s, a) && Inv(s)
    ensures PointsAgree(Step(s, a))
  {
    var s' := Step(s, a);
    forall id | id in s'.callers
      ensures PointAgrees(s'.documents, s'.spawned, s'.callers[id])
    {
      if id == a.id {
        MoverAgrees(s, a);
      } else {
        OthersStay(s, a, id);
        BystanderAgrees(s, a, id);
      }
    }
  }

  lemma MoverAgrees(s: State, a: Action)
    requires Enabled(s, a) && PointsAgree(s)
    ensures PointAgrees(Step(s, a).documents, Step(s, a).spawned, Step(s, a).callers[a.id])
  {
    if a.Advance? {
      assert PointAgrees(s.documents, s.spawned, s.callers[a.id]);
    }
  }

  /** Only an insertion changes what others know, and then nobody of that name is inside. */
  lemma BystanderAgrees(s: State, a: Action, id: nat)
    requires Enabled(s, a) && Inv(s) && id in s.callers && id != a.id
    ensures PointAgrees(Step(s, a).documents, Step(s, a).spawned, s.callers[id])
  {
    assert PointAgrees(s.documents, s.spawned, s.callers[id]);
    if a.Advance? && s.callers[a.id].pc.Inserting? {
      assert PointAgrees(s.documents, s.spawned, s.callers[a.id]);
      if s.callers[id].name == s.callers[a.id].name && OwnsLock(s.callers[id].pc) {
        CriticalSectionIsExclusive(s, id, a.id);
      }
    }
  }

  /** A caller about to spawn has no rival actor for its name. */
  lemma SpawningFindsNoActor(s: State, id: nat, h: nat)
    requires Inv(s) && id in s.callers && s.callers[id].pc.Spawning? && h < |s.spawned|
    ensures s.spawned[h] != s.callers[id].name
  {
    if s.spawned[h] == s.callers[id].name {
      assert PointAgrees(s.documents, s.spawned, s.callers[id]);
      assert BeingInserted(s, h);
      var other :| other in s.callers && s.callers[other].pc.Inserting?
                   && s.callers[other].pc.handle == h && s.callers[other].name == s.spawned[h];
      CriticalSectionIsExclusive(s, id, other);
      assert false;
    }
  }

  /** Registered under its own name. */
  predicate Registered(s: State, h: nat)
    requires h < |s.spawned|
  {
    s.spawned[h] in s.documents && s.documents[s.spawned[h]] == h
  }

  lemma StepKeepsActor(s: State, a: Action, h: nat)
    requires Enabled(s, a) && PointsAgree(s) && h < |s.spawned|
    requires Registered(s, h) || BeingInserted(s, h)
    ensures h < |Step(s, a).spawned| && Step(s, a).spawned[h] == s.spawned[h]
    ensures Registered(Step(s, a), h) || BeingInserted(Step(s, a), h)
  {
    var s' := Step(s, a);
    assert a.Advance? ==> PointAgrees(s.documents, s.spawned, s.callers[a.id]);
    if BeingInserted(s, h) {
      var id :| id in s.callers && s.callers[id].pc.Inserting? && s.callers[id].pc.handle == h
                && s.callers[id].name == s.spawned[h];
      if a.Advance? && a.id == id {
        assert s'.documents == s.documents[s.spawned[h] := h];
      } else {
        assert s'.callers[id] == s.callers[id];
      }
    }
  }

  lemma StepKeepsActors(s: State, a: Action)
    requires Enabled(s, a) && Inv(s)
    ensures NoStrayActor(Step(s, a))
  {
    var s' := Step(s, a);
    forall h | 0 <= h < |s'.spawned|
      ensures Registered(s', h) || BeingInserted(s', h)
    {
      if h < |s.spawned| {
        StepKeepsActor(s, a, h);
      } else {
        assert s'.callers[a.id].pc == Inserting(s.callers[a.id].pc.lock, h);
      }
    }
    assert a.Advance? ==> PointAgrees(s.documents, s.spawned, s.callers[a.id]);
  }

  lemma StepKeeps(s: State, a: Action)
    requires Enabled(s, a) && Inv(s)
    ensures Inv(Step(s, a))
  {
    StepKeepsLocks(s, a);
    StepKeepsMeetingPoint(s, a);
    StepKeepsPoints(s, a);
    StepKeepsActors(s, a);
  }

  /** No two actors were ever spawned for one name. */
  predicate OneActorPerName(s: State) {
    forall g, h | 0 <= g < h < |s.spawned| :: s.spawned[g] != s.spawned[h]
  }

  lemma StepKeepsUniqueness(s: State, a: Action)
    requires Enabled(s, a) && Inv(s) && OneActorPerName(s)
    ensures OneActorPerName(Step(s, a))
  {
    if a.Advance? && s.callers[a.id].pc.Spawning? {
      forall h | 0 <= h < |s.spawned|
        ensures s.spawned[h] != s.callers[a.id].name
      {
        SpawningFindsNoActor(s, a.id, h);
      }
    }
  }

  lemma {:induction false} RunKeeps(s: State, actions: seq<Action>)
    requires IsRun(s, actions) && Inv(s) && OneActorPerName(s)
    ensures Inv(After(s, actions)) && OneActorPerName(After(s, actions))
    decreases |actions|
  {
    if actions != [] {
      StepKeeps(s, actions[0]);
      StepKeepsUniqueness(s, actions[0]);
      RunKeeps(Step(s, actions[0]), actions[1..]);
    }
  }

  // ----- main results -----

  /**
   Registry creation, over every interleaving of any number of callers: at most one actor is
   ever spawned per name, and every caller that returns a handle returns the handle of that one
   actor, registered under the caller's name.
   */
  lemma CreationIsUnique(actions: seq<Action>)
    requires IsRun(Init, actions)
    ensures var s := After(Init, actions);
      && (forall g, h | 0 <= g < h < |s.spawned| :: s.spawned[g] != s.spawned[h])
      && (forall id, h: nat | id in s.callers && s.callers[id].pc == Returned(Some(h)) ::
            && s.callers[id].name in s.documents && s.documents[s.callers[id].name] == h
            && h < |s.spawned| && s.spawned[h] == s.callers[id].name)
  {
    RunKeeps(Init, actions);
    var s := After(Init, actions);
    assert PointsAgree(s);
  }

  /** A registered name is answered at once, with the registered handle and without a lock. */
  lemma RegisteredNameIsAnsweredAtOnce(s: State, id: nat, works: bool)
    requires id in s.callers && s.callers[id].pc.Start? && s.callers[id].name in s.documents
    ensures Enabled(s, Advance(id, works))
    ensures Step(s, Advance(id, works)) ==
      s.(callers := s.callers[id := Caller(s.callers[id].name, Returned(Some(s.documents[s.callers[id].name])))])
  {
  }

  /** The creator takes its lock out of the table again, and no other. */
  lemma CreatorClearsItsLock(s: State, id: nat, works: bool)
    requires id in s.callers && s.callers[id].pc.Clearing?
    ensures Step(s, Advance(id, works)).creating == s.creating - {s.callers[id].name}
  {
  }

  predicate SpawnsWork(actions: seq<Action>) {
    forall i | 0 <= i < |actions| && actions[i].Advance? :: actions[i].spawnWorks
  }

  predicate NobodyFails(s: State) {
    forall id | id in s.callers :: !Fails(s.callers[id].pc)
  }

  predicate Fails(pc: Pc) {
    (pc.Releasing? || pc.Returned?) && pc.result.None?
  }

  lemma {:induction false} WorkingSpawnsFailNobody(s: State, actions: seq<Action>)
    requires IsRun(s, actions) && NobodyFails(s) && SpawnsWork(actions)
    ensures NobodyFails(After(s, actions))
    decreases |actions|
  {
    if actions != [] {
      assert NobodyFails(Step(s, actions[0]));
      assert forall i | 0 <= i < |actions[1..]| :: actions[1..][i] == actions[i + 1];
      WorkingSpawnsFailNobody(Step(s, actions[0]), actions[1..]);
    }
  }

  /**
   Exactly one: over every interleaving in which spawning works, every caller that returns has a
   handle, and one actor was spawned for its name, that one and no other.
   */
  lemma CreationSucceeds(actions: seq<Action>, id: nat)
    requires IsRun(Init, actions) && SpawnsWork(actions)
    requires id in After(Init, actions).callers && After(Init, actions).callers[id].pc.Returned?
    ensures var s := After(Init, actions);
      exists h: nat | h < |s.spawned| ::
        && s.callers[id].pc == Returned(Some(h))
        && forall g | 0 <= g < |s.spawned| :: s.spawned[g] == s.callers[id].name <==> g == h
  {
    WorkingSpawnsFailNobody(Init, actions);
    CreationIsUnique(actions);
    var s := After(Init, actions);
    assert !Fails(s.callers[id].pc);
    var h := s.callers[id].pc.result.value;
    assert s.callers[id].pc == Returned(Some(h));
    assert h < |s.spawned| && s.spawned[h] == s.callers[id].name;
  }

  /** How many steps a call still has before it. */
  function StepsLeft(pc: Pc): nat {
    match pc
    case Start => 8
    case WantLock => 7
    case Waiting(_) => 6
    case Holding(_) => 5
    case Spawning(_) => 4
    case Inserting(_, _) => 3
    case Clearing(_, _) => 2
    case Releasing(_, _) => 1
    case Returned(_) => 0
  }

  function StepsOf(actions: seq<Action>, id: nat): nat
    decreases |actions|
  {
    if actions == [] then 0
    else (if actions[0].Advance? && actions[0].id == id then 1 else 0) + StepsOf(actions[1..], id)
  }

  function LeftOf(s: State, id: nat): nat {
    if id in s.callers then StepsLeft(s.callers[id].pc) else 8
  }

  lemma StepIsProgress(s: State, a: Action, id: nat)
    requires Enabled(s, a)
    ensures LeftOf(Step(s, a), id) + (if a.Advance? && a.id == id then 1 else 0) <= LeftOf(s, id)
  {
    if id in Step(s, a).callers && id != a.id {
      OthersStay(s, a, id);
    }
  }

  /** No call goes in circles: it has returned after eight steps of its own. */
  lemma {:induction false} CallsAreShort(s: State, actions: seq<Action>, id: nat)
    requires IsRun(s, actions)
    ensures StepsOf(actions, id) + LeftOf(After(s, actions), id) <= LeftOf(s, id)
    decreases |actions|
  {
    if actions != [] {
      StepIsProgress(s, actions[0], id);
      CallsAreShort(Step(s, actions[0]), actions[1..], id);
    }
  }

  /** As long as some call has not returned, some step is possible: the locks never deadlock. */
  lemma CreationNeverDeadlocks(actions: seq<Action>, id: nat)
    requires IsRun(Init, actions)
    requires id in After(Init, actions).callers && !After(Init, actions).callers[id].pc.Returned?
    ensures exists next :: Enabled(After(Init, actions), Advance(next, true))
  {
    RunKeeps(Init, actions);
    var s := After(Init, actions);
    var pc := s.callers[id].pc;
    if pc.Waiting? && pc.lock in s.holder {
      assert Enabled(s, Advance(s.holder[pc.lock], true));
    } else {
      assert Enabled(s, Advance(id, true));
    }
  }
}
