/**
 The document model. A replica is the set of operations it has received and the set of
 operations it has been told to delete; both only grow. Operations of one client are
 integrated in clock order, so an operation whose predecessors are missing is held back
 ("pending") until the gap closes: only the gap-free part is `Visible`.

 A `Content` plays three parts: a replica, an update on the wire, and a stored snapshot.
 */
module Crdt {

  datatype Id = Id(client: nat, clock: nat)

  datatype Content = Content(ops: set<Id>, dels: set<Id>)

  /** How many operations of each client are integrated. */
  type StateVector = map<nat, nat>

  const Nothing := Content({}, {})

  /** Applying an update, and merging two replicas. */
  function Merge(a: Content, b: Content): Content {
    Content(a.ops + b.ops, a.dels + b.dels)
  }

  function MergeAll(a: Content, us: seq<Content>): Content
    decreases |us|
  {
    if us == [] then a else MergeAll(Merge(a, us[0]), us[1..])
  }

  predicate Covers(a: Content, b: Content) {
    b.ops <= a.ops && b.dels <= a.dels
  }

  predicate Integrated(ops: set<Id>, id: Id) {
    forall k: nat | k <= id.clock :: Id(id.client, k) in ops
  }

  /** What a reader of the document sees: the integrated operations and their deletions. */
  function Visible(d: Content): Content {
    Content((set id | id in d.ops && Integrated(d.ops, id)),
            (set id | id in d.dels && Integrated(d.ops, id)))
  }

  predicate Below(sv: StateVector, id: Id) {
    id.client in sv && id.clock < sv[id.client]
  }

  /** The first clock at or after `from` that is missing. */
  function FirstGap(ops: set<Id>, client: nat, from: nat): (n: nat)
    ensures from <= n && Id(client, n) !in ops
    ensures forall k: nat | from <= k < n :: Id(client, k) in ops
    decreases |Above(ops, client, from)|
  {
    if Id(client, from) !in ops then from
    else
      AboveShrinks(ops, client, from);
      FirstGap(ops, client, from + 1)
  }

  function Above(ops: set<Id>, client: nat, from: nat): set<Id> {
    set id | id in ops && id.client == client && from <= id.clock
  }

  lemma AboveShrinks(ops: set<Id>, client: nat, from: nat)
    requires Id(client, from) in ops
    ensures |Above(ops, client, from + 1)| < |Above(ops, client, from)|
  {
    assert Above(ops, client, from) == Above(ops, client, from + 1) + {Id(client, from)};
  }

  /** `state_vector`: the integrated prefix length of every client. */
  function Vector(d: Content): StateVector {
    map c | c in (set id | id in d.ops :: id.client) :: FirstGap(d.ops, c, 0)
  }

  /** `encode_diff_v1`: the integrated operations at or above `sv`, and all their deletions. */
  function EncodeDiff(d: Content, sv: StateVector): Content {
    Content((set id | id in Visible(d).ops && !Below(sv, id)), Visible(d).dels)
  }

  /** `encode_state_as_update_v1` from the empty vector: everything held, pending included. */
  function EncodeState(d: Content): Content {
    d
  }

  /** `encode_update_v1`: what one transaction made visible. */
  function Delta(before: Content, after: Content): Content {
    Content(Visible(after).ops - Visible(before).ops, Visible(after).dels - Visible(before).dels)
  }

  // ----- the state vector and the diff are exact -----

  /** The state vector names exactly the integrated operations. */
  lemma VectorIsExact(d: Content, id: Id)
    ensures Below(Vector(d), id) <==> id in Visible(d).ops
  {
    if Below(Vector(d), id) {
      var n := FirstGap(d.ops, id.client, 0);
      assert forall k: nat | k <= id.clock :: Id(id.client, k) in d.ops;
      assert id == Id(id.client, id.clock);
    }
    if id in Visible(d).ops {
      assert id.client in Vector(d);
    }
  }

  /** An answer carries no operation that the vector's owner has integrated, and misses no other. */
  lemma DiffIsMinimal(d: Content, r: Content, id: Id)
    ensures id in EncodeDiff(d, Vector(r)).ops <==> id in Visible(d).ops && id !in Visible(r).ops
    ensures EncodeDiff(d, Vector(r)).dels == Visible(d).dels
  {
    VectorIsExact(r, id);
  }

  /** What a transaction publishes is new, and together with what was visible it is what is. */
  lemma DeltaIsTheDifference(before: Content, after: Content)
    requires Covers(after, before)
    ensures var delta := Delta(before, after);
      && Merge(Visible(before), delta) == Visible(after)
      && delta.ops !! Visible(before).ops && delta.dels !! Visible(before).dels
  {
    VisibleIsMonotone(after, before);
  }

  lemma VisibleIsMonotone(a: Content, b: Content)
    requires Covers(a, b)
    ensures Covers(Visible(a), Visible(b))
  {
  }

  lemma VisibleIsIdempotent(d: Content)
    ensures Visible(Visible(d)) == Visible(d)
  {
    var v := Visible(d);
    forall id | Integrated(d.ops, id)
      ensures Integrated(v.ops, id)
    {
      forall k: nat | k <= id.clock
        ensures Id(id.client, k) in v.ops
      {
        assert Integrated(d.ops, Id(id.client, k));
      }
    }
  }

  /** A replica that holds everything visible in `d` shows everything visible in `d`. */
  lemma HoldingMeansShowing(r: Content, d: Content)
    requires Covers(r, Visible(d))
    ensures Covers(Visible(r), Visible(d))
  {
    VisibleIsMonotone(r, Visible(d));
    VisibleIsIdempotent(d);
  }

  /**
   Answering a state vector is enough: whoever truly holds what lies below `sv` and receives
   `EncodeDiff(d, sv)` shows at least what `d` shows.
   */
  lemma DiffCompletesAnyReplica(d: Content, sv: StateVector, r: Content)
    requires forall id | id in Visible(d).ops && Below(sv, id) :: id in r.ops
    ensures Covers(Visible(Merge(r, EncodeDiff(d, sv))), Visible(d))
  {
    HoldingMeansShowing(Merge(r, EncodeDiff(d, sv)), d);
  }

  /** The two-way handshake: each side answers the other's vector, and both show the same. */
  lemma HandshakeConverges(a: Content, b: Content)
    requires Visible(a) == a && Visible(b) == b
    ensures Merge(a, EncodeDiff(b, Vector(a))) == Merge(b, EncodeDiff(a, Vector(b))) == Merge(a, b)
  {
    DiffFillsExactly(a, b);
    DiffFillsExactly(b, a);
    assert Merge(a, b) == Merge(b, a);
  }

  lemma DiffFillsExactly(a: Content, b: Content)
    requires Visible(a) == a
    ensures Merge(a, EncodeDiff(b, Vector(a))) == Merge(a, Visible(b))
  {
    forall id | id in Visible(b).ops
      ensures id in a.ops || id in EncodeDiff(b, Vector(a)).ops
    {
      VectorIsExact(a, id);
    }
    assert Merge(a, EncodeDiff(b, Vector(a))).ops == Merge(a, Visible(b)).ops;
  }

  // ----- coalescing -----

  /** The outcome of handing bytes to `Update::decode_v1` and `apply_update`. */
  datatype Incoming =
    | Undecodable
    | Refused
    | Decoded(update: Content)
  {
    /** What the transaction does to the document: a failed apply changes nothing. */
    function ApplyTo(d: Content): Content {
      if Decoded? then Merge(d, update) else d
    }
  }

  function ApplyEach(d: Content, us: seq<Incoming>): (r: Content)
    ensures Covers(r, d)
    decreases |us|
  {
    if us == [] then d else ApplyEach(us[0].ApplyTo(d), us[1..])
  }

  /** The per-update deltas that would be sent if every update were fanned out on its own. */
  function EachDelta(d: Content, us: seq<Incoming>): seq<Content>
    decreases |us|
  {
    if us == [] then []
    else [Delta(d, us[0].ApplyTo(d))] + EachDelta(us[0].ApplyTo(d), us[1..])
  }

  /** The deltas of a batch carry exactly what the batch made visible. */
  lemma {:induction false} DeltasAddUp(d: Content, us: seq<Incoming>, r: Content)
    requires Covers(r, Visible(d))
    ensures MergeAll(r, EachDelta(d, us)) == Merge(r, Visible(ApplyEach(d, us)))
    decreases |us|
  {
    if us == [] {
      assert Merge(r, Visible(d)) == r;
    } else {
      var d' := us[0].ApplyTo(d);
      var delta := Delta(d, d');
      VisibleIsMonotone(d', d);
      var r' := Merge(r, delta);
      assert r' == Merge(r, Visible(d'));
      DeltasAddUp(d', us[1..], r');
      assert EachDelta(d, us)[0] == delta && EachDelta(d, us)[1..] == EachDelta(d', us[1..]);
      VisibleIsMonotone(ApplyEach(d', us[1..]), d');
      assert Merge(r', Visible(ApplyEach(d', us[1..]))) == Merge(r, Visible(ApplyEach(d', us[1..])));
    }
  }

  /**
   Coalescing preserves meaning. For every batch, with failed, repeated, gapped and
   deletion-only updates in it, the single diff from the state vector at the start of the
   batch does to any replica that holds the visible base state exactly what the separate
   deltas would have done to it.
   */
  lemma CoalescingPreservesMeaning(base: Content, us: seq<Incoming>, replica: Content)
    requires Covers(replica, Visible(base))
    ensures Merge(replica, EncodeDiff(ApplyEach(base, us), Vector(base)))
         == MergeAll(replica, EachDelta(base, us))
  {
    var end := ApplyEach(base, us);
    DeltasAddUp(base, us, replica);
    forall id | id in Visible(end).ops
      ensures id in replica.ops || id in EncodeDiff(end, Vector(base)).ops
    {
      VectorIsExact(base, id);
    }
    assert Merge(replica, EncodeDiff(end, Vector(base))).ops == Merge(replica, Visible(end)).ops;
  }

  /** A replica equal to the base ends up showing what the server shows. */
  lemma CoalescedReplicaShowsTheSame(base: Content, us: seq<Incoming>)
    ensures Visible(Merge(base, EncodeDiff(ApplyEach(base, us), Vector(base))))
         == Visible(ApplyEach(base, us))
  {
    var end := ApplyEach(base, us);
    var r := Merge(base, EncodeDiff(end, Vector(base)));
    forall id | id in Visible(end).ops && Below(Vector(base), id)
      ensures id in base.ops
    {
      VectorIsExact(base, id);
    }
    DiffCompletesAnyReplica(end, Vector(base), base);
    VisibleIsMonotone(end, r);
  }
}
