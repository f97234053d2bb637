/**
 The Redis lock around persistence. Part one: the hook order and the break-on-error loop that
 puts the lock in front of the database. Part two: many nodes, one expiring key.
 */
module StoreLock {
  import opened Common

  // ----- the hook chain -----

  datatype Kind = RedisLock | Database | Other(id: nat)

  datatype Ext = Ext(kind: Kind, priority: int)

  const RedisPriority := 1000
  const DefaultPriority := 100

  predicate Descending(s: seq<Ext>) {
    forall i, j | 0 <= i < j < |s| :: s[i].priority >= s[j].priority
  }

  function OfPriority(s: seq<Ext>, p: int): seq<Ext> {
    if s == [] then []
    else (if s[0].priority == p then [s[0]] else []) + OfPriority(s[1..], p)
  }

  /** Before the first extension of smaller or equal priority. */
  function InsertFirst(e: Ext, s: seq<Ext>): seq<Ext> {
    if s == [] || e.priority >= s[0].priority then [e] + s else [s[0]] + InsertFirst(e, s[1..])
  }

  /** `build`: a stable sort by descending priority. */
  function BuildOrder(exts: seq<Ext>): seq<Ext> {
    if exts == [] then [] else InsertFirst(exts[0], BuildOrder(exts[1..]))
  }

  lemma {:induction false} InsertFirstAdds(e: Ext, s: seq<Ext>, x: Ext)
    ensures x in InsertFirst(e, s) <==> x == e || x in s
    decreases |s|
  {
    if s != [] && e.priority < s[0].priority {
      InsertFirstAdds(e, s[1..], x);
      assert x in s <==> x == s[0] || x in s[1..];
    }
  }

  lemma {:induction false} InsertFirstSorts(e: Ext, s: seq<Ext>)
    requires Descending(s)
    ensures Descending(InsertFirst(e, s))
    decreases |s|
  {
    if s != [] && e.priority < s[0].priority {
      var rest := InsertFirst(e, s[1..]);
      InsertFirstSorts(e, s[1..]);
      forall i | 0 <= i < |rest|
        ensures rest[i].priority <= s[0].priority
      {
        InsertFirstAdds(e, s[1..], rest[i]);
      }
    }
  }

  lemma {:induction false} InsertFirstIsStable(e: Ext, s: seq<Ext>, p: int)
    requires Descending(s)
    ensures OfPriority(InsertFirst(e, s), p) == (if e.priority == p then [e] else []) + OfPriority(s, p)
    decreases |s|
  {
    if s == [] || e.priority >= s[0].priority {
      assert ([e] + s)[1..] == s;
    } else {
      var rest := InsertFirst(e, s[1..]);
      InsertFirstIsStable(e, s[1..], p);
      assert ([s[0]] + rest)[1..] == rest;
      var head, mine := if s[0].priority == p then [s[0]] else [], if e.priority == p then [e] else [];
      assert OfPriority([s[0]] + rest, p) == head + (mine + OfPriority(s[1..], p));
      assert head == [] || mine == [];
      assert head + (mine + OfPriority(s[1..], p)) == mine + (head + OfPriority(s[1..], p));
    }
  }

  /** The build order is descending and keeps registration order within a priority. */
  lemma {:induction false} BuildIsAStableSort(exts: seq<Ext>, p: int)
    ensures Descending(BuildOrder(exts))
    ensures forall x :: x in BuildOrder(exts) <==> x in exts
    ensures OfPriority(BuildOrder(exts), p) == OfPriority(exts, p)
    decreases |exts|
  {
    if exts != [] {
      var rest := BuildOrder(exts[1..]);
      BuildIsAStableSort(exts[1..], p);
      InsertFirstSorts(exts[0], rest);
      InsertFirstIsStable(exts[0], rest, p);
      forall x
        ensures x in BuildOrder(exts) <==> x in exts
      {
        InsertFirstAdds(exts[0], rest, x);
        assert x in exts <==> x == exts[0] || x in exts[1..];
      }
    }
  }

  lemma {:induction false} OfPriorityFinds(s: seq<Ext>, x: Ext)
    ensures x in OfPriority(s, x.priority) <==> x in s
    decreases |s|
  {
    if s != [] {
      OfPriorityFinds(s[1..], x);
      assert x in s <==> x == s[0] || x in s[1..];
    }
  }

  ghost predicate SameByPriority(a: seq<Ext>, b: seq<Ext>) {
    forall p :: SameAt(a, b, p)
  }

  predicate SameAt(a: seq<Ext>, b: seq<Ext>, p: int) {
    OfPriority(a, p) == OfPriority(b, p)
  }

  lemma SameHead(a: seq<Ext>, b: seq<Ext>)
    requires a != [] && Descending(a) && Descending(b)
    requires SameByPriority(a, b)
    ensures b != [] && a[0] == b[0]
  {
    assert SameAt(a, b, a[0].priority);
    OfPriorityFinds(a, a[0]);
    OfPriorityFinds(b, a[0]);
    assert a[0] in b;
    assert SameAt(a, b, b[0].priority);
    OfPriorityFinds(b, b[0]);
    OfPriorityFinds(a, b[0]);
    assert b[0] in a;
    var p := a[0].priority;
    assert b[0].priority == p;
    assert OfPriority(a, p)[0] == a[0] && OfPriority(b, p)[0] == b[0];
  }

  lemma SameTail(a: seq<Ext>, b: seq<Ext>, q: int)
    requires a != [] && b != [] && a[0] == b[0] && SameAt(a, b, q)
    ensures SameAt(a[1..], b[1..], q)
  {
    var head := if a[0].priority == q then [a[0]] else [];
    assert (head + OfPriority(a[1..], q))[|head|..] == OfPriority(a[1..], q);
    assert (head + OfPriority(b[1..], q))[|head|..] == OfPriority(b[1..], q);
  }

  lemma NonEmptyDiffersFromEmpty(b: seq<Ext>)
    requires b != []
    ensures !SameByPriority([], b)
  {
    assert !SameAt([], b, b[0].priority);
  }

  lemma SameTails(a: seq<Ext>, b: seq<Ext>)
    requires a != [] && b != [] && a[0] == b[0] && SameByPriority(a, b)
    ensures SameByPriority(a[1..], b[1..])
  {
    forall q
      ensures SameAt(a[1..], b[1..], q)
    {
      assert SameAt(a, b, q);
      SameTail(a, b, q);
    }
  }

  /** Any stable descending sort gives the same order, so the algorithm does not matter. */
  lemma {:induction false} StableSortIsUnique(a: seq<Ext>, b: seq<Ext>)
    requires Descending(a) && Descending(b)
    requires SameByPriority(a, b)
    ensures a == b
    decreases |a|
  {
    if a == [] {
      if b != [] {
        NonEmptyDiffersFromEmpty(b);
      }
    } else {
      SameHead(a, b);
      SameTails(a, b);
      StableSortIsUnique(a[1..], b[1..]);
      assert a == [a[0]] + a[1..] && b == [b[0]] + b[1..];
    }
  }

  /** How many store hooks run: all, or up to and including the first failure. */
  function Ran(results: seq<bool>): nat {
    if results == [] then 0 else if results[0] then 1 + Ran(results[1..]) else 1
  }

  method RunStoreHooks(exts: seq<Ext>, results: seq<bool>) returns (ok: bool, ran: nat)
    requires |exts| == |results|
    ensures ran == Ran(results) <= |exts|
    ensures ran == |exts| || (0 < ran && !results[ran - 1])
    ensures ok <==> forall i | 0 <= i < |results| :: results[i]
    ensures forall i | 0 <= i < ran - 1 :: results[i]
  {
    ok, ran := true, 0;
    while ran < |exts| && ok
      invariant ran <= |exts|
      invariant ok ==> Ran(results) == ran + Ran(results[ran..])
      invariant ok ==> forall i | 0 <= i < ran :: results[i]
      invariant !ok ==> 0 < ran && Ran(results) == ran && !results[ran - 1]
      invariant !ok ==> forall i | 0 <= i < ran - 1 :: results[i]
    {
      assert results[ran..][1..] == results[ran + 1..];
      ok := results[ran];
      ran := ran + 1;
    }
  }

  lemma {:induction false} OnlySuccessesPrecede(results: seq<bool>, k: nat)
    requires k < Ran(results)
    ensures k < |results| && forall i | 0 <= i < k :: results[i]
    decreases |results|
  {
    if k > 0 {
      OnlySuccessesPrecede(results[1..], k - 1);
      assert forall i | 0 < i < k :: results[i] == results[1..][i - 1];
    }
  }

  /**
   However the extensions were registered: whenever the database hook of a store attempt runs,
   the lock hook of the same attempt ran before it and succeeded.
   */
  lemma DatabaseRunsUnderTheLock(registered: seq<Ext>, results: seq<bool>, k: nat)
    requires Ext(RedisLock, RedisPriority) in registered
    requires |results| == |BuildOrder(registered)| && k < Ran(results)
    requires k < |BuildOrder(registered)|
      && BuildOrder(registered)[k] == Ext(Database, DefaultPriority)
    ensures exists j | 0 <= j < k ::
      BuildOrder(registered)[j] == Ext(RedisLock, RedisPriority) && results[j]
  {
    var order := BuildOrder(registered);
    BuildIsAStableSort(registered, 0);
    var j :| 0 <= j < |order| && order[j] == Ext(RedisLock, RedisPriority);
    OnlySuccessesPrecede(results, k);
  }

  // ----- many nodes, one key -----

  /** Where a node's store attempt is: before hook `next`, with the token its lock hook got. */
  datatype Phase = Idle | InChain(next: nat, token: Option<nat>)

  /** `remembered` is the node's entry in its `locks` map. */
  datatype Node = Node(remembered: Option<nat>, phase: Phase)
  {
    predicate Holds() {
      phase.InChain? && phase.token.Some?
    }
  }

  datatype Write = Write(node: nat, token: Option<nat>)

  datatype State = State(
    key: Option<nat>,            // the token stored under the lock key
    nodes: seq<Node>,
    nextToken: nat,
    owner: map<nat, nat>,        // granted token -> node
    expired: set<nat>,
    writes: seq<Write>)          // database writes, oldest first

  datatype Action =
    | Begin(node: nat)                           // a store attempt starts
    | Hook(node: nat, reached: bool, ok: bool)   // its next hook: had its effect, and reported it
    | Finish(node: nat, reaches: bool)           // after_store_document: the release
    | Expire

  predicate Enabled(order: seq<Ext>, s: State, a: Action) {
    match a
    case Expire => s.key.Some?
    case Begin(n) => n < |s.nodes| && s.nodes[n].phase.Idle?
    case Hook(n, reached, ok) =>
      n < |s.nodes| && s.nodes[n].phase.InChain? && s.nodes[n].phase.next < |order| && (ok ==> reached)
    case Finish(n, _) =>
      n < |s.nodes| && s.nodes[n].phase.InChain? && s.nodes[n].phase.next == |order|
  }

  function Start(n: nat): State {
    State(None, seq(n, _ => Node(None, Idle)), 0, map[], {}, [])
  }

  /** The hook loop goes on, or breaks off without after_store_document. */
  function Next(node: Node, ok: bool): Node
    requires node.phase.InChain?
  {
    node.(phase := if ok then node.phase.(next := node.phase.next + 1) else Idle)
  }

  /** SET NX with a fresh token; a lost reply leaves the key taken and the hook failed. */
  function TakeLock(s: State, n: nat, reached: bool, ok: bool): State
    requires n < |s.nodes| && s.nodes[n].phase.InChain?
  {
    var token := s.nextToken;
    var s' := s.(nextToken := token + 1);
    if !reached || s.key.Some? then s'.(nodes := s.nodes[n := Next(s.nodes[n], false)])
    else
      var granted := s'.(key := Some(token), owner := s.owner[token := n]);
      var taken := Node(Some(token), s.nodes[n].phase.(token := Some(token)));
      granted.(nodes := s.nodes[n := Next(if ok then taken else s.nodes[n], ok)])
  }

  function RunHook(s: State, n: nat, kind: Kind, reached: bool, ok: bool): State
    requires n < |s.nodes| && s.nodes[n].phase.InChain?
  {
    match kind
    case RedisLock => TakeLock(s, n, reached, ok)
    case Database =>
      s.(nodes := s.nodes[n := Next(s.nodes[n], ok)],
         writes := if reached then s.writes + [Write(n, s.nodes[n].phase.token)] else s.writes)
    case Other(_) => s.(nodes := s.nodes[n := Next(s.nodes[n], ok)])
  }

  function Step(order: seq<Ext>, s: State, a: Action): State
    requires Enabled(order, s, a)
  {
    match a
    case Begin(n) => s.(nodes := s.nodes[n := s.nodes[n].(phase := InChain(0, None))])
    case Hook(n, reached, ok) => RunHook(s, n, order[s.nodes[n].phase.next].kind, reached, ok)
    case Finish(n, reaches) =>
      var mine := s.nodes[n].remembered;
      s.(nodes := s.nodes[n := Node(None, Idle)],
         key := if reaches && mine.Some? && s.key == mine then None else s.key)
    case Expire => s.(key := None, expired := s.expired + {s.key.value})
  }

  predicate IsRun(order: seq<Ext>, s: State, actions: seq<Action>)
    decreases |actions|
  {
    actions == [] || (Enabled(order, s, actions[0]) && IsRun(order, Step(order, s, actions[0]), actions[1..]))
  }

  function After(order: seq<Ext>, s: State, actions: seq<Action>): State
    requires IsRun(order, s, actions)
    decreases |actions|
  {
    if actions == [] then s else After(order, Step(order, s, actions[0]), actions[1..])
  }

  // ----- what every step keeps -----

  /** The key holds the newest granted token, and it has not expired. */
  predicate KeyIsNewest(s: State) {
    && (forall t | t in s.owner :: t < s.nextToken)
    && (forall t | t in s.expired :: t < s.nextToken)
    && (s.key.Some? ==> s.key.value in s.owner && s.key.value !in s.expired
                        && forall t | t in s.owner :: t <= s.key.value)
  }

  predicate Backed(s: State, n: nat, node: Node) {
    && (node.remembered.Some? ==>
          node.remembered.value in s.owner && s.owner[node.remembered.value] == n)
    && (node.Holds() ==>
          && node.remembered == node.phase.token
          && (s.key == node.phase.token || node.phase.token.value in s.expired))
  }

  /** What a node remembers is its own; past the lock it holds the key unless that expired. */
  predicate HoldersAreBacked(s: State) {
    forall n | 0 <= n < |s.nodes| :: Backed(s, n, s.nodes[n])
  }

  /** Whoever is past a lock hook took the lock in this very attempt. */
  predicate PastTheLock(order: seq<Ext>, node: Node) {
    node.phase.InChain? && node.phase.token.None? ==>
      forall j | 0 <= j < node.phase.next && j < |order| :: order[j].kind != RedisLock
  }

  predicate ChainsAreLocked(order: seq<Ext>, s: State) {
    forall n | 0 <= n < |s.nodes| :: PastTheLock(order, s.nodes[n])
  }

  predicate Inv(order: seq<Ext>, s: State) {
    KeyIsNewest(s) && HoldersAreBacked(s) && ChainsAreLocked(order, s)
  }

  lemma StepKeepsKey(order: seq<Ext>, s: State, a: Action)
    requires Enabled(order, s, a) && Inv(order, s)
    ensures KeyIsNewest(Step(order, s, a))
  {
  }

  lemma StepKeepsBacking(order: seq<Ext>, s: State, a: Action)
    requires Enabled(order, s, a) && Inv(order, s)
    ensures HoldersAreBacked(Step(order, s, a))
  {
    var s' := Step(order, s, a);
    forall n | 0 <= n < |s'.nodes|
      ensures Backed(s', n, s'.nodes[n])
    {
      assert Backed(s, n, s.nodes[n]);
    }
  }

  lemma StepKeepsChains(order: seq<Ext>, s: State, a: Action)
    requires Enabled(order, s, a) && Inv(order, s)
    ensures ChainsAreLocked(order, Step(order, s, a))
  {
    var s' := Step(order, s, a);
    forall n | 0 <= n < |s'.nodes|
      ensures PastTheLock(order, s'.nodes[n])
    {
      assert PastTheLock(order, s.nodes[n]);
    }
  }

  lemma StepKeeps(order: seq<Ext>, s: State, a: Action)
    requires Enabled(order, s, a) && Inv(order, s)
    ensures Inv(order, Step(order, s, a))
  {
    StepKeepsKey(order, s, a);
    StepKeepsBacking(order, s, a);
    StepKeepsChains(order, s, a);
  }

  lemma {:induction false} RunKeeps(order: seq<Ext>, s: State, actions: seq<Action>)
    requires IsRun(order, s, actions) && Inv(order, s)
    ensures Inv(order, After(order, s, actions))
    decreases |actions|
  {
    if actions != [] {
      StepKeeps(order, s, actions[0]);
      RunKeeps(order, Step(order, s, actions[0]), actions[1..]);
    }
  }

  // ----- what the lock is for -----

  /**
   Mutual exclusion, over every interleaving of hook chains, lost replies, expiries, failed
   stores and releases: two nodes are past the lock at once only if the lock of the earlier one
   expired.
   */
  lemma MutualExclusionUnlessExpired(order: seq<Ext>, n: nat, actions: seq<Action>, a: nat, b: nat)
    requires IsRun(order, Start(n), actions)
    requires var s := After(order, Start(n), actions);
      && a < |s.nodes| && b < |s.nodes| && a != b
      && s.nodes[a].Holds() && s.nodes[b].Holds()
      && s.nodes[a].phase.token.value <= s.nodes[b].phase.token.value
    ensures var s := After(order, Start(n), actions);
      s.nodes[a].phase.token.value in s.expired
  {
    RunKeeps(order, Start(n), actions);
    var s := After(order, Start(n), actions);
    assert Backed(s, a, s.nodes[a]) && Backed(s, b, s.nodes[b]);
  }

  /** Each write was made under a token granted to its node, and no later than its turn. */
  predicate WriteIsLocked(s: State, i: nat)
    requires i < |s.writes|
  {
    && s.writes[i].token.Some?
    && s.writes[i].token.value in s.owner && s.owner[s.writes[i].token.value] == s.writes[i].node
    && forall j | 0 <= j < i && s.writes[j].token.Some? ::
         s.writes[j].token.value <= s.writes[i].token.value || s.writes[i].token.value in s.expired
  }

  predicate WritesAreLocked(s: State) {
    forall i | 0 <= i < |s.writes| :: WriteIsLocked(s, i)
  }

  /** The lock hook stands before every database hook. */
  predicate LockComesFirst(order: seq<Ext>) {
    forall k | 0 <= k < |order| && order[k].kind == Database ::
      exists j | 0 <= j < k :: order[j].kind == RedisLock
  }

  lemma NewWriteIsLocked(order: seq<Ext>, s: State, a: Action)
    requires Enabled(order, s, a) && Inv(order, s) && LockComesFirst(order) && WritesAreLocked(s)
    requires a.Hook? && a.reached && order[s.nodes[a.node].phase.next].kind == Database
    ensures WriteIsLocked(Step(order, s, a), |s.writes|)
  {
    var node, s' := s.nodes[a.node], Step(order, s, a);
    assert PastTheLock(order, node) && Backed(s, a.node, node);
    var j :| 0 <= j < node.phase.next && order[j].kind == RedisLock;
    assert node.Holds();
    forall j | 0 <= j < |s.writes|
      ensures s'.writes[j] == s.writes[j] && s.writes[j].token.Some? && s.writes[j].token.value in s.owner
    {
      assert WriteIsLocked(s, j);
    }
  }

  lemma StepKeepsWrites(order: seq<Ext>, s: State, a: Action)
    requires Enabled(order, s, a) && Inv(order, s) && LockComesFirst(order) && WritesAreLocked(s)
    ensures WritesAreLocked(Step(order, s, a))
  {
    var s' := Step(order, s, a);
    forall i | 0 <= i < |s'.writes|
      ensures WriteIsLocked(s', i)
    {
      if i < |s.writes| {
        assert WriteIsLocked(s, i);
        assert forall j | 0 <= j <= i :: s'.writes[j] == s.writes[j];
      } else {
        NewWriteIsLocked(order, s, a);
      }
    }
  }

  lemma {:induction false} RunKeepsWrites(order: seq<Ext>, s: State, actions: seq<Action>)
    requires IsRun(order, s, actions) && Inv(order, s) && LockComesFirst(order) && WritesAreLocked(s)
    ensures WritesAreLocked(After(order, s, actions))
    decreases |actions|
  {
    if actions != [] {
      StepKeeps(order, s, actions[0]);
      StepKeepsWrites(order, s, actions[0]);
      RunKeepsWrites(order, Step(order, s, actions[0]), actions[1..]);
    }
  }

  lemma BuildPutsTheLockFirst(registered: seq<Ext>)
    requires Ext(RedisLock, RedisPriority) in registered
    requires forall x | x in registered && x.kind == Database :: x.priority == DefaultPriority
    ensures LockComesFirst(BuildOrder(registered))
  {
    var order := BuildOrder(registered);
    BuildIsAStableSort(registered, 0);
    var at :| 0 <= at < |order| && order[at] == Ext(RedisLock, RedisPriority);
    forall k | 0 <= k < |order| && order[k].kind == Database
      ensures exists j | 0 <= j < k :: order[j].kind == RedisLock
    {
      assert order[k] in order && order[k] in registered;
      assert at < k;
    }
  }

  /**
   The two halves together. However the extensions were registered, with the lock and database
   extensions at their own priorities: over every interleaving of the nodes' hook chains each
   database write was made under a token granted to that node in that very attempt, and it comes
   after a write under a newer token only if its own lock had expired.
   */
  lemma StorageIsWrittenUnderTheLock(registered: seq<Ext>, n: nat, actions: seq<Action>)
    requires Ext(RedisLock, RedisPriority) in registered
    requires forall x | x in registered && x.kind == Database :: x.priority == DefaultPriority
    requires IsRun(BuildOrder(registered), Start(n), actions)
    ensures WritesAreLocked(After(BuildOrder(registered), Start(n), actions))
  {
    BuildPutsTheLockFirst(registered);
    RunKeepsWrites(BuildOrder(registered), Start(n), actions);
  }

  /** No release frees another node's lock. */
  lemma ReleaseFreesOnlyOwnLock(order: seq<Ext>, n: nat, actions: seq<Action>, node: nat, reaches: bool)
    requires IsRun(order, Start(n), actions)
    requires Enabled(order, After(order, Start(n), actions), Finish(node, reaches))
    ensures var s := After(order, Start(n), actions);
      var s' := Step(order, s, Finish(node, reaches));
      s'.key != s.key ==> s.key.Some? && s.key.value in s.owner && s.owner[s.key.value] == node
  {
    RunKeeps(order, Start(n), actions);
    var s := After(order, Start(n), actions);
    assert Backed(s, node, s.nodes[node]);
  }

  /**
   And every release that reaches Redis does free it: over every run the key is free afterwards
   if it held the node's own token, and as before if not.
   */
  lemma ReleaseFreesTheLock(order: seq<Ext>, n: nat, actions: seq<Action>, node: nat)
    requires IsRun(order, Start(n), actions)
    requires Enabled(order, After(order, Start(n), actions), Finish(node, true))
    ensures var s := After(order, Start(n), actions);
      var s' := Step(order, s, Finish(node, true));
      var mine := s.nodes[node].remembered;
      && s'.key == (if mine.Some? && s.key == mine then None else s.key)
      && s'.nodes[node] == Node(None, Idle)
      && (s.nodes[node].Holds() && s.nodes[node].phase.token.value !in s.expired ==> s'.key.None?)
  {
    RunKeeps(order, Start(n), actions);
    var s := After(order, Start(n), actions);
    assert Backed(s, node, s.nodes[node]);
  }

  // ----- an undisturbed attempt -----

  /** A node's next `count` hooks, all of which have their effect and report it. */
  function Hooks(node: nat, count: nat): seq<Action>
    decreases count
  {
    if count == 0 then [] else [Hook(node, true, true)] + Hooks(node, count - 1)
  }

  function DatabaseHooks(order: seq<Ext>, k: nat): nat
    requires k <= |order|
    decreases |order| - k
  {
    if k == |order| then 0
    else (if order[k].kind == Database then 1 else 0) + DatabaseHooks(order, k + 1)
  }

  /** The lock hook is at `at` and nowhere else. */
  predicate OneLockAt(order: seq<Ext>, at: nat) {
    at < |order| && forall k | 0 <= k < |order| :: order[k].kind == RedisLock <==> k == at
  }

  /** Before the lock hook the key is free; behind it, it holds this attempt's token. */
  predicate Underway(s: State, node: nat, k: nat, at: nat, token: nat) {
    && node < |s.nodes|
    && s.nodes[node].phase.InChain? && s.nodes[node].phase.next == k
    && s.nodes[node].phase.token == s.key == (if k <= at then None else Some(token))
    && (k <= at ==> s.nextToken == token)
    && (k > at ==> s.nodes[node].remembered == Some(token) && token in s.owner && s.owner[token] == node)
  }

  lemma HookGoesOn(order: seq<Ext>, s: State, node: nat, k: nat, at: nat, token: nat)
    requires OneLockAt(order, at) && k < |order| && Underway(s, node, k, at, token)
    ensures Enabled(order, s, Hook(node, true, true))
    ensures var s' := Step(order, s, Hook(node, true, true));
      && Underway(s', node, k + 1, at, token)
      && |s'.writes| == |s.writes| + if order[k].kind == Database then 1 else 0
  {
  }

  lemma {:induction false} HooksGoOn(order: seq<Ext>, s: State, node: nat, k: nat, at: nat, token: nat)
    requires OneLockAt(order, at) && k <= |order| && Underway(s, node, k, at, token)
    ensures IsRun(order, s, Hooks(node, |order| - k))
    ensures var s' := After(order, s, Hooks(node, |order| - k));
      Underway(s', node, |order|, at, token) && |s'.writes| == |s.writes| + DatabaseHooks(order, k)
    decreases |order| - k
  {
    if k < |order| {
      HookGoesOn(order, s, node, k, at, token);
      HooksGoOn(order, Step(order, s, Hook(node, true, true)), node, k + 1, at, token);
      var all := Hooks(node, |order| - k);
      assert all[0] == Hook(node, true, true) && all[1..] == Hooks(node, |order| - (k + 1));
    }
  }

  /**
   An attempt that finds the key free and whose hooks all work takes the lock, reaches the end of
   the chain with every database hook having written, and its release leaves the key free for the
   next attempt.
   */
  lemma UndisturbedAttemptCompletes(order: seq<Ext>, s: State, node: nat, at: nat)
    requires OneLockAt(order, at) && s.key.None? && Enabled(order, s, Begin(node))
    ensures var begun := Step(order, s, Begin(node));
      && IsRun(order, begun, Hooks(node, |order|))
      && var done := After(order, begun, Hooks(node, |order|));
         && Enabled(order, done, Finish(node, true))
         && done.key == Some(s.nextToken) && s.nextToken in done.owner && done.owner[s.nextToken] == node
         && |done.writes| == |s.writes| + DatabaseHooks(order, 0)
         && (var after := Step(order, done, Finish(node, true));
             after.key.None? && node < |after.nodes| && Enabled(order, after, Begin(node)))
  {
    HooksGoOn(order, Step(order, s, Begin(node)), node, 0, at, s.nextToken);
  }

  /** While another node has the key, an attempt ends at its lock hook and writes nothing. */
  lemma TakenKeyEndsTheAttempt(order: seq<Ext>, s: State, node: nat, reached: bool, ok: bool)
    requires Enabled(order, s, Hook(node, reached, ok)) && s.key.Some?
    requires order[s.nodes[node].phase.next].kind == RedisLock
    ensures var s' := Step(order, s, Hook(node, reached, ok));
      s'.nodes[node].phase.Idle? && s'.key == s.key && s'.writes == s.writes && s'.owner == s.owner
  {
  }

  // ----- a failed store -----

  predicate Abandoned(s: State, token: nat) {
    && s.key == Some(token)
    && forall n | 0 <= n < |s.nodes| :: s.nodes[n].Holds() ==> s.nodes[n].phase.token.value != token
  }

  lemma AbandonedStays(order: seq<Ext>, s: State, token: nat, a: Action)
    requires Inv(order, s) && Abandoned(s, token) && Enabled(order, s, a) && a != Expire
    requires Ext(RedisLock, RedisPriority) in order
    ensures Abandoned(Step(order, s, a), token) && Step(order, s, a).owner == s.owner
  {
    if a.Finish? {
      assert PastTheLock(order, s.nodes[a.node]) && Backed(s, a.node, s.nodes[a.node]);
      var at :| 0 <= at < |order| && order[at] == Ext(RedisLock, RedisPriority);
    }
  }

  lemma {:induction false} AbandonedUntilExpiry(order: seq<Ext>, s: State, token: nat, actions: seq<Action>)
    requires IsRun(order, s, actions) && Inv(order, s) && Abandoned(s, token)
    requires Ext(RedisLock, RedisPriority) in order && Expire !in actions
    ensures Abandoned(After(order, s, actions), token) && After(order, s, actions).owner == s.owner
    decreases |actions|
  {
    if actions != [] {
      StepKeeps(order, s, actions[0]);
      AbandonedStays(order, s, token, actions[0]);
      AbandonedUntilExpiry(order, Step(order, s, actions[0]), token, actions[1..]);
    }
  }

  /**
   A hook that fails behind the lock hook leaves the lock taken by nobody: whatever the nodes do
   then, until it expires the key stays as it is and no node is granted the lock.
   */
  lemma FailedStoreBlocksUntilExpiry(order: seq<Ext>, n: nat, before: seq<Action>, node: nat,
                                     reached: bool, later: seq<Action>)
    requires Ext(RedisLock, RedisPriority) in order && IsRun(order, Start(n), before)
    requires var s := After(order, Start(n), before);
      && Enabled(order, s, Hook(node, reached, false))
      && s.nodes[node].Holds() && s.nodes[node].phase.token.value !in s.expired
      && IsRun(order, Step(order, s, Hook(node, reached, false)), later) && Expire !in later
    ensures var s := After(order, Start(n), before);
      var s' := After(order, Step(order, s, Hook(node, reached, false)), later);
      s'.key == s.nodes[node].phase.token && s'.owner == s.owner
  {
    var s := After(order, Start(n), before);
    var token := s.nodes[node].phase.token.value;
    RunKeeps(order, Start(n), before);
    var failed := Step(order, s, Hook(node, reached, false));
    StepKeeps(order, s, Hook(node, reached, false));
    assert forall m | 0 <= m < |s.nodes| :: Backed(s, m, s.nodes[m]);
    assert Abandoned(failed, token);
    AbandonedUntilExpiry(order, failed, token, later);
  }
}
