module SessionProofs {
  import opened Common
  import opened Wire
  import opened SessionSpec

  // ----- sums over all queues -----

  ghost function Total(q: map<Bytes, seq<Bytes>>, measure: seq<Bytes> -> nat): nat
    decreases |q|
  {
    if q == map[] then 0
    else
      var k :| k in q;
      measure(q[k]) + Total(q - {k}, measure)
  }

  lemma {:induction false} TotalSplits(q: map<Bytes, seq<Bytes>>, measure: seq<Bytes> -> nat, key: Bytes)
    requires key in q
    ensures Total(q, measure) == measure(q[key]) + Total(q - {key}, measure)
    decreases |q|
  {
    var k :| k in q && Total(q, measure) == measure(q[k]) + Total(q - {k}, measure);
    if k != key {
      TotalSplits(q - {k}, measure, key);
      TotalSplits(q - {key}, measure, k);
      assert q - {k} - {key} == q - {key} - {k};
    }
  }

  lemma TotalUpdates(q: map<Bytes, seq<Bytes>>, measure: seq<Bytes> -> nat, key: Bytes, frames: seq<Bytes>)
    ensures Total(q[key := frames], measure) == measure(frames) + Total(q - {key}, measure)
  {
    TotalSplits(q[key := frames], measure, key);
    assert q[key := frames] - {key} == q - {key};
  }

  lemma {:induction false} SizeConcat(a: seq<Bytes>, b: seq<Bytes>)
    ensures Size(a + b) == Size(a) + Size(b)
    decreases |a|
  {
    if a == [] {
      assert a + b == b;
    } else {
      assert (a + b)[1..] == a[1..] + b;
      SizeConcat(a[1..], b);
    }
  }

  // ----- queue accounting -----

  /** The counters are the real totals, and every configured limit holds. */
  ghost predicate Balanced(lim: Limits, w: Waiting) {
    && w.messages == Total(w.queue, Count)
    && w.bytes == Total(w.queue, Size)
    && w.messages <= lim.maxMessages
    && w.bytes <= lim.maxBytes
    && |w.queue| <= lim.maxDocuments
  }

  /** Replacing one queue replaces its share of the total. */
  lemma TotalReplaces(q: map<Bytes, seq<Bytes>>, measure: seq<Bytes> -> nat, key: Bytes, frames: seq<Bytes>)
    ensures Total(q[key := frames], measure) + (if key in q then measure(q[key]) else 0) ==
      Total(q, measure) + measure(frames)
  {
    TotalUpdates(q, measure, key, frames);
    if key in q {
      TotalSplits(q, measure, key);
    } else {
      assert q - {key} == q;
    }
  }

  lemma QueuesGrow(q: map<Bytes, seq<Bytes>>, key: Bytes, frames: seq<Bytes>)
    ensures |q[key := frames]| == |q| + if key in q then 0 else 1
  {
    assert q[key := frames].Keys == q.Keys + {key};
    assert key in q ==> q.Keys + {key} == q.Keys;
  }

  lemma PutBalances(lim: Limits, w: Waiting, key: Bytes, data: Bytes)
    requires Balanced(lim, w) && HasRoom(lim, w, key, data)
    ensures Balanced(lim, Put(w, key, data))
  {
    var frames := Pending(w, key) + [data];
    TotalReplaces(w.queue, Count, key, frames);
    TotalReplaces(w.queue, Size, key, frames);
    SizeConcat(Pending(w, key), [data]);
    assert Size([data]) == |data|;
    QueuesGrow(w.queue, key, frames);
  }

  /** With the queue accounted for, no subtraction in the drain loop saturates. */
  lemma {:induction false} DrainNeverSaturates(messages: nat, bytes: nat, frames: seq<Bytes>)
    requires |frames| <= messages && Size(frames) <= bytes
    ensures DrainCounters(messages, bytes, frames) == (messages - |frames|, bytes - Size(frames))
    decreases |frames|
  {
    if frames != [] {
      DrainNeverSaturates(messages - 1, bytes - |frames[0]|, frames[1..]);
    }
  }

  lemma DrainBalances(lim: Limits, w: Waiting, key: Bytes)
    requires Balanced(lim, w)
    ensures Balanced(lim, Drain(w, key))
  {
    if key in w.queue {
      TotalSplits(w.queue, Count, key);
      TotalSplits(w.queue, Size, key);
      assert (w.queue - {key}).Keys == w.queue.Keys - {key};
    } else {
      assert w.queue - {key} == w.queue;
    }
    DrainNeverSaturates(w.messages, w.bytes, Pending(w, key));
  }

  lemma HandleFrameBalances(lim: Limits, s: Session, i: Input)
    requires Balanced(lim, s.waiting)
    ensures Balanced(lim, HandleFrame(lim, s, i).waiting)
  {
    if i.frame.Some? {
      var key := i.frame.value.key;
      DrainBalances(lim, s.waiting, key);
      if HasRoom(lim, s.waiting, key, i.data) {
        PutBalances(lim, s.waiting, key, i.data);
      }
    }
  }

  lemma {:induction false} RunBalances(lim: Limits, s: Session, inputs: seq<Input>)
    requires Balanced(lim, s.waiting)
    ensures Balanced(lim, After(lim, s, inputs).waiting)
    decreases |inputs|
  {
    if inputs != [] {
      var front, last := inputs[..|inputs| - 1], inputs[|inputs| - 1];
      RunBalances(lim, s, front);
      HandleFrameBalances(lim, After(lim, s, front), last);
    }
  }

  /**
   Pre-authentication accounting, over every sequence of frames on a socket: the counters equal
   the real number and size of all queued frames, and all three limits hold.
   */
  lemma {:induction false} CountersAreExact(lim: Limits, inputs: seq<Input>)
    ensures var w := After(lim, Empty, inputs).waiting;
      && w.messages == Total(w.queue, Count) <= lim.maxMessages
      && w.bytes == Total(w.queue, Size) <= lim.maxBytes
      && |w.queue| <= lim.maxDocuments
  {
    RunBalances(lim, Empty, inputs);
  }

  // ----- exactly-once ordered routing -----

  /** The frames that went to one connection, in order. */
  function RoutedTo(log: seq<Sent>, est: Established): seq<Bytes> {
    if log == [] then []
    else
      var front := RoutedTo(log[..|log| - 1], est);
      var m := log[|log| - 1];
      if m.Routed? && m.est == est then front + [m.data] else front
  }

  /** Ids are drawn in order, so a new connection id has never been used. */
  predicate IdsInOrder(r: Routes) {
    && (forall k | k in r.established :: r.established[k].connId < r.nextConnId)
    && (forall i | 0 <= i < |r.log| :: r.log[i].est.connId < r.nextConnId)
    && (forall j, k | j in r.established && k in r.established && j != k ::
          r.established[j].connId != r.established[k].connId)
  }

  predicate AddedBefore(log: seq<Sent>, i: nat, est: Established)
    requires i <= |log|
  {
    exists j | 0 <= j < i :: log[j].Added? && log[j].est == est
  }

  /** Nothing is routed to a connection before its AddConnection was acknowledged. */
  predicate AddedFirst(r: Routes) {
    && (forall k | k in r.established :: AddedBefore(r.log, |r.log|, r.established[k]))
    && (forall i | 0 <= i < |r.log| && r.log[i].Routed? :: AddedBefore(r.log, i, r.log[i].est))
  }

  predicate Inv(r: Routes) {
    IdsInOrder(r) && AddedFirst(r)
  }

  /** Queued keys and established keys are disjoint. */
  predicate Disjoint(s: Session) {
    s.waiting.queue.Keys !! s.routes.established.Keys
  }

  /** `taken` is what happened to the frames of `key`: all routed in order, or all waiting. */
  predicate Delivered(s: Session, key: Bytes, taken: seq<Bytes>) {
    if key in s.routes.established
    then RoutedTo(s.routes.log, s.routes.established[key]) == taken
    else Pending(s.waiting, key) == taken
  }

  /** The frame is for `key`, and the session takes it: routed at once, or queued. */
  predicate Takes(lim: Limits, s: Session, key: Bytes, i: Input) {
    && |i.data| != 1
    && i.frame.Some?
    && i.frame.value.key == key
    && (key in s.routes.established
        || (i.frame.value.ty != Auth && HasRoom(lim, s.waiting, key, i.data)))
  }

  function TakenNow(lim: Limits, s: Session, i: Input, key: Bytes): seq<Bytes> {
    if Takes(lim, s, key, i) then [i.data] else []
  }

  /** All frames of `key` that the socket took, in arrival order. */
  function Taken(lim: Limits, inputs: seq<Input>, key: Bytes): seq<Bytes> {
    if inputs == [] then []
    else
      var front, last := inputs[..|inputs| - 1], inputs[|inputs| - 1];
      Taken(lim, front, key) + TakenNow(lim, After(lim, Empty, front), last, key)
  }

  // ----- the log -----

  lemma RoutedToGrows(log: seq<Sent>, m: Sent, est: Established)
    ensures RoutedTo(log + [m], est) ==
      RoutedTo(log, est) + if m.Routed? && m.est == est then [m.data] else []
  {
    assert (log + [m])[..|log|] == log;
  }

  lemma {:induction false} RoutedToAll(log: seq<Sent>, to: Established, frames: seq<Bytes>, est: Established)
    ensures RoutedTo(log + RouteAll(to, frames), est) ==
      RoutedTo(log, est) + if to == est then frames else []
    decreases |frames|
  {
    if frames == [] {
      assert log + RouteAll(to, frames) == log;
    } else {
      var front, last := frames[..|frames| - 1], frames[|frames| - 1];
      RoutedToAll(log, to, front, est);
      assert log + RouteAll(to, frames) == log + RouteAll(to, front) + [Routed(to, last)];
      RoutedToGrows(log + RouteAll(to, front), Routed(to, last), est);
      assert front + [last] == frames;
    }
  }

  lemma {:induction false} UnusedIdHasNoFrames(log: seq<Sent>, est: Established)
    requires forall i | 0 <= i < |log| :: log[i].est.connId < est.connId
    ensures RoutedTo(log, est) == []
    decreases |log|
  {
    if log != [] {
      UnusedIdHasNoFrames(log[..|log| - 1], est);
    }
  }

  lemma {:induction false} RouteAllIsToOne(est: Established, frames: seq<Bytes>)
    ensures forall i | 0 <= i < |RouteAll(est, frames)| :: RouteAll(est, frames)[i].est == est
    decreases |frames|
  {
    if frames != [] {
      RouteAllIsToOne(est, frames[..|frames| - 1]);
    }
  }

  lemma AddedBeforeStays(log: seq<Sent>, more: seq<Sent>, i: nat, k: nat, est: Established)
    requires i <= |log| && i <= k <= |log + more| && AddedBefore(log, i, est)
    ensures AddedBefore(log + more, k, est)
  {
    var j :| 0 <= j < i && log[j].Added? && log[j].est == est;
    assert (log + more)[j] == log[j];
  }

  /** Appending messages to connections that were added before keeps the order. */
  lemma AppendingKeepsInv(r: Routes, more: seq<Sent>, est: Established)
    requires Inv(r) && AddedBefore(r.log, |r.log|, est) && est.connId < r.nextConnId
    requires forall i | 0 <= i < |more| :: more[i].est == est
    ensures Inv(r.(log := r.log + more))
  {
    var log := r.log + more;
    forall i | 0 <= i < |log| && log[i].Routed?
      ensures AddedBefore(log, i, log[i].est)
    {
      if i < |r.log| {
        AddedBeforeStays(r.log, more, i, i, log[i].est);
      } else {
        assert log[i] == more[i - |r.log|];
        AddedBeforeStays(r.log, more, |r.log|, i, est);
      }
    }
    forall k | k in r.established
      ensures AddedBefore(log, |log|, r.established[k])
    {
      AddedBeforeStays(r.log, more, |r.log|, |log|, r.established[k]);
    }
  }

  /** A new id enters the log with its Added entry. */
  lemma AddingKeepsInv(r: Routes, key: Bytes, est: Established)
    requires Inv(r) && est.connId < r.nextConnId
    requires forall k | k in r.established :: r.established[k].connId < est.connId
    ensures Inv(Routes(r.established[key := est], r.nextConnId, r.log + [Added(key, est)]))
  {
    var log := r.log + [Added(key, est)];
    assert log[|r.log|] == Added(key, est);
    forall i | 0 <= i < |log| && log[i].Routed?
      ensures AddedBefore(log, i, log[i].est)
    {
      AddedBeforeStays(r.log, [Added(key, est)], i, i, log[i].est);
    }
    forall k | k in r.established
      ensures AddedBefore(log, |log|, r.established[k])
    {
      AddedBeforeStays(r.log, [Added(key, est)], |r.log|, |log|, r.established[k]);
    }
    assert AddedBefore(log, |log|, est);
  }

  lemma ConnectKeepsInv(r: Routes, key: Bytes, est: Established, frames: seq<Bytes>)
    requires Inv(r) && est.connId < r.nextConnId
    requires forall k | k in r.established :: r.established[k].connId < est.connId
    ensures Inv(Connect(r, key, est, frames))
  {
    var r' := Routes(r.established[key := est], r.nextConnId, r.log + [Added(key, est)]);
    AddingKeepsInv(r, key, est);
    RouteAllIsToOne(est, frames);
    assert r'.log[|r.log|] == Added(key, est);
    assert AddedBefore(r'.log, |r'.log|, est);
    AppendingKeepsInv(r', RouteAll(est, frames), est);
  }

  /** The new connection gets exactly what waited; the others get nothing new. */
  lemma ConnectRoutes(r: Routes, key: Bytes, est: Established, frames: seq<Bytes>, to: Established)
    requires forall i | 0 <= i < |r.log| :: r.log[i].est.connId < est.connId
    ensures RoutedTo(Connect(r, key, est, frames).log, to) ==
      if to == est then frames else RoutedTo(r.log, to)
  {
    RoutedToGrows(r.log, Added(key, est), to);
    RoutedToAll(r.log + [Added(key, est)], est, frames, to);
    UnusedIdHasNoFrames(r.log, est);
  }

  // ----- one frame -----

  /** What the rest of the proof needs to know about a state. */
  predicate Good(s: Session, key: Bytes, taken: seq<Bytes>) {
    Inv(s.routes) && Disjoint(s) && Delivered(s, key, taken)
  }

  lemma ConnectDelivers(s: Session, key: Bytes, est: Established, k: Bytes, taken: seq<Bytes>,
                        closes: seq<nat>)
    requires Good(s, k, taken) && key !in s.routes.established && est.connId < s.routes.nextConnId
    requires forall i | 0 <= i < |s.routes.log| :: s.routes.log[i].est.connId < est.connId
    requires forall k | k in s.routes.established :: s.routes.established[k].connId < est.connId
    ensures Good(Session(Drain(s.waiting, key),
                         Connect(s.routes, key, est, Pending(s.waiting, key)), true, closes), k, taken)
  {
    var frames := Pending(s.waiting, key);
    ConnectKeepsInv(s.routes, key, est, frames);
    if k == key {
      ConnectRoutes(s.routes, key, est, frames, est);
    } else if k in s.routes.established {
      ConnectRoutes(s.routes, key, est, frames, s.routes.established[k]);
    }
  }

  /** Drawing a connection id leaves it larger than every id in use. */
  lemma DrawingIsSafe(r: Routes, connId: nat)
    requires Inv(r) && r.nextConnId <= connId
    ensures Inv(r.(nextConnId := connId + 1))
    ensures forall i | 0 <= i < |r.log| :: r.log[i].est.connId < connId
    ensures forall k | k in r.established :: r.established[k].connId < connId
  {
  }

  lemma DrawingKeepsDelivery(s: Session, connId: nat, k: Bytes, taken: seq<Bytes>)
    requires Good(s, k, taken) && s.routes.nextConnId <= connId
    ensures Good(s.(routes := s.routes.(nextConnId := connId + 1)), k, taken)
  {
    DrawingIsSafe(s.routes, connId);
  }

  lemma AckedAdmitDelivers(s: Session, key: Bytes, env: AuthEnv, k: Bytes, taken: seq<Bytes>)
    requires Good(s, k, taken) && key !in s.routes.established && Register(env.attempts).Some?
    ensures Good(Admit(s, key, env), k, taken)
  {
    var connId := s.routes.nextConnId + env.othersTook;
    var drawn := s.(routes := s.routes.(nextConnId := connId + 1));
    var est := Established(Register(env.attempts).value, connId);
    assert Admit(s, key, env) ==
      Session(Drain(drawn.waiting, key),
              Connect(drawn.routes, key, est, Pending(drawn.waiting, key)), true, s.closes);
    DrawingIsSafe(s.routes, connId);
    DrawingKeepsDelivery(s, connId, k, taken);
    ConnectDelivers(drawn, key, est, k, taken, s.closes);
  }

  lemma AdmitDelivers(s: Session, key: Bytes, env: AuthEnv, k: Bytes, taken: seq<Bytes>)
    requires Good(s, k, taken) && key !in s.routes.established
    ensures Good(Admit(s, key, env), k, taken)
  {
    if Register(env.attempts).None? {
      var connId := s.routes.nextConnId + env.othersTook;
      DrawingKeepsDelivery(s, connId, k, taken);
      SameRoutesSameDelivery(s.(routes := s.routes.(nextConnId := connId + 1)), Admit(s, key, env), k, taken);
    } else {
      AckedAdmitDelivers(s, key, env, k, taken);
    }
  }

  lemma SameRoutesSameDelivery(s: Session, s': Session, k: Bytes, taken: seq<Bytes>)
    requires Good(s, k, taken) && s'.routes == s.routes && s'.waiting == s.waiting
    ensures Good(s', k, taken)
  {
  }

  lemma ForwardDelivers(s: Session, key: Bytes, data: Bytes, k: Bytes, taken: seq<Bytes>)
    requires Good(s, k, taken) && key in s.routes.established
    ensures Good(s.(routes := Forward(s.routes, key, data)), k,
                 taken + if k == key then [data] else [])
  {
    var est := s.routes.established[key];
    AppendingKeepsInv(s.routes, [Routed(est, data)], est);
    if k in s.routes.established {
      RoutedToGrows(s.routes.log, Routed(est, data), s.routes.established[k]);
    }
  }

  lemma EnqueueDelivers(lim: Limits, s: Session, key: Bytes, data: Bytes, k: Bytes, taken: seq<Bytes>)
    requires Good(s, k, taken) && key !in s.routes.established
    ensures Good(Enqueue(lim, s, key, data), k,
                 taken + if k == key && HasRoom(lim, s.waiting, key, data) then [data] else [])
  {
  }

  lemma HandleFrameDelivers(lim: Limits, s: Session, i: Input, k: Bytes, taken: seq<Bytes>)
    requires Good(s, k, taken)
    ensures Good(HandleFrame(lim, s, i), k, taken + TakenNow(lim, s, i, k))
  {
    assert taken + [] == taken;
    if |i.data| != 1 && i.frame.Some? {
      var key := i.frame.value.key;
      if key in s.routes.established {
        ForwardDelivers(s, key, i.data, k, taken);
      } else if i.frame.value.ty == Auth {
        AdmitDelivers(s, key, i.env, k, taken);
      } else {
        EnqueueDelivers(lim, s, key, i.data, k, taken);
      }
    }
  }

  // ----- every sequence of frames -----

  lemma {:induction false} RunDelivers(lim: Limits, inputs: seq<Input>, key: Bytes)
    ensures Good(After(lim, Empty, inputs), key, Taken(lim, inputs, key))
    decreases |inputs|
  {
    if inputs != [] {
      var front, last := inputs[..|inputs| - 1], inputs[|inputs| - 1];
      RunDelivers(lim, front, key);
      HandleFrameDelivers(lim, After(lim, Empty, front), last, key, Taken(lim, front, key));
    }
  }

  /**
   Exactly-once ordered routing, over every sequence of frames on a socket and for every key:
   the frames sent to the key's connection are exactly the ones taken before authentication,
   in arrival order, followed by the later ones, in arrival order; until then they all wait.
   Nothing goes to a connection before its AddConnection was acknowledged, and no key is both
   queued and established.
   */
  lemma {:induction false} RoutingIsExactlyOnce(lim: Limits, inputs: seq<Input>, key: Bytes)
    ensures var s := After(lim, Empty, inputs);
      && (if key in s.routes.established
          then RoutedTo(s.routes.log, s.routes.established[key]) == Taken(lim, inputs, key)
          else Pending(s.waiting, key) == Taken(lim, inputs, key))
      && AddedFirst(s.routes)
      && s.waiting.queue.Keys !! s.routes.established.Keys
  {
    RunDelivers(lim, inputs, key);
  }

  // ----- authentication -----

  /** A token frame for `key` that passed every hook and whose registration was acknowledged. */
  predicate Admits(i: Input, key: Bytes) {
    && |i.data| != 1
    && i.frame.Some?
    && i.frame.value.key == key
    && i.frame.value.ty == Auth
    && IsTokenFrame(i.frame.value.payload)
    && AllPass(i.env.connectHooks)
    && AllPass(i.env.authHooks)
    && Acknowledged(i.env.attempts)
  }

  predicate Acknowledged(attempts: (Attempt, Attempt)) {
    || attempts.0.Acked?
    || ((attempts.0.SendFailed? || attempts.0.AckLost?) && attempts.1.Acked?)
  }

  /** The first round was acknowledged by `actor`, or its add got lost and the second one was. */
  predicate AckedBy(attempts: (Attempt, Attempt), actor: nat) {
    || attempts.0 == Acked(actor)
    || ((attempts.0.SendFailed? || attempts.0.AckLost?) && attempts.1 == Acked(actor))
  }

  lemma RegisteringIsBeingAcked(attempts: (Attempt, Attempt), actor: nat)
    ensures Register(attempts) == Some(actor) <==> AckedBy(attempts, actor)
  {
  }

  /** Admitted, and by that actor. */
  predicate AdmittedTo(inputs: seq<Input>, key: Bytes, actor: nat) {
    exists k | 0 <= k < |inputs| :: Admits(inputs[k], key) && AckedBy(inputs[k].env.attempts, actor)
  }

  predicate Admitted(inputs: seq<Input>, key: Bytes) {
    exists k | 0 <= k < |inputs| :: Admits(inputs[k], key)
  }

  lemma AdmittedGrows(front: seq<Input>, last: Input, key: Bytes)
    ensures Admitted(front + [last], key) <==> Admitted(front, key) || Admits(last, key)
  {
    assert forall k | 0 <= k < |front| :: (front + [last])[k] == front[k];
    assert (front + [last])[|front|] == last;
  }

  lemma AdmittedToGrows(front: seq<Input>, last: Input, key: Bytes, actor: nat)
    ensures AdmittedTo(front + [last], key, actor) <==>
      AdmittedTo(front, key, actor) || (Admits(last, key) && AckedBy(last.env.attempts, actor))
  {
    assert forall k | 0 <= k < |front| :: (front + [last])[k] == front[k];
    assert (front + [last])[|front|] == last;
  }

  /** Connections are added only for admitted keys, and at the actor that acknowledged. */
  predicate AddsOnly(log: seq<Sent>, inputs: seq<Input>) {
    forall j | 0 <= j < |log| && log[j].Added? :: AdmittedTo(inputs, log[j].key, log[j].est.actor)
  }

  lemma AckedMeansRegistered(i: Input)
    ensures Register(i.env.attempts).Some? <==> Acknowledged(i.env.attempts)
    ensures Register(i.env.attempts).Some? ==> AckedBy(i.env.attempts, Register(i.env.attempts).value)
  {
  }

  lemma HandleFrameEstablishes(lim: Limits, s: Session, i: Input, key: Bytes)
    ensures var r, r' := s.routes, HandleFrame(lim, s, i).routes;
      && (key in r'.established <==> key in r.established || Admits(i, key))
      && (key in r'.established && (key !in r.established || r'.established[key] != r.established[key]) ==>
            Admits(i, key) && AckedBy(i.env.attempts, r'.established[key].actor))
  {
    AckedMeansRegistered(i);
  }

  lemma HandleFrameAdds(lim: Limits, s: Session, front: seq<Input>, i: Input)
    requires AddsOnly(s.routes.log, front)
    ensures AddsOnly(HandleFrame(lim, s, i).routes.log, front + [i])
  {
    var log, log' := s.routes.log, HandleFrame(lim, s, i).routes.log;
    forall j | 0 <= j < |log'| && log'[j].Added?
      ensures AdmittedTo(front + [i], log'[j].key, log'[j].est.actor)
    {
      AdmittedToGrows(front, i, log'[j].key, log'[j].est.actor);
      AckedMeansRegistered(i);
      if |log| < j {
        var est := Established(Register(i.env.attempts).value, s.routes.nextConnId + i.env.othersTook);
        RouteAllIsRouted(est, Pending(s.waiting, i.frame.value.key));
      }
    }
  }

  lemma {:induction false} RouteAllIsRouted(est: Established, frames: seq<Bytes>)
    ensures forall i | 0 <= i < |RouteAll(est, frames)| :: RouteAll(est, frames)[i].Routed?
    decreases |frames|
  {
    if frames != [] {
      RouteAllIsRouted(est, frames[..|frames| - 1]);
    }
  }

  /**
   Over every sequence of frames on a socket: a key is established if and only if the sequence
   holds a token frame for it that passed every on_connect and on_authenticate hook and whose
   registration was acknowledged, in the first round or in the second; its frames go to the actor
   that acknowledged. Connections are added to actors for such keys only, so (with
   `RoutingIsExactlyOnce`) no frame of any other key ever reaches an actor.
   */
  lemma {:induction false} OnlyAuthenticatedKeysAreRouted(lim: Limits, inputs: seq<Input>, key: Bytes)
    ensures var r := After(lim, Empty, inputs).routes;
      && (key in r.established <==> Admitted(inputs, key))
      && (key in r.established ==> AdmittedTo(inputs, key, r.established[key].actor))
      && AddsOnly(r.log, inputs)
    decreases |inputs|
  {
    if inputs != [] {
      var front, last := inputs[..|inputs| - 1], inputs[|inputs| - 1];
      assert inputs == front + [last];
      OnlyAuthenticatedKeysAreRouted(lim, front, key);
      AdmittedGrows(front, last, key);
      HandleFrameEstablishes(lim, After(lim, Empty, front), last, key);
      var r := After(lim, Empty, inputs).routes;
      if key in r.established {
        AdmittedToGrows(front, last, key, r.established[key].actor);
      }
      HandleFrameAdds(lim, After(lim, Empty, front), front, last);
    }
  }

  /** Only the token tag makes an auth message a token frame. */
  lemma TokenFramesAreRecognised(tag: nat, rest: Bytes)
    ensures IsTokenFrame(VarUint(tag) + rest) <==> tag == 0
  {
    VarUintRoundTrip(tag, rest);
  }

  /** From the bytes: a client that sends its token, passes and is acknowledged is let in. */
  lemma TokenLetsTheClientIn(lim: Limits, key: Str, token: Str, env: AuthEnv, actor: nat)
    requires AllPass(env.connectHooks) && AllPass(env.authHooks) && AckedBy(env.attempts, actor)
    ensures var i := Received(Envelope(key, Auth, VarUint(0) + Buf(token)), env);
      var s := After(lim, Empty, [i]);
      && s.routes.established == map[key := Established(actor, 1 + env.othersTook)]
      && s.routes.log == [Added(key, Established(actor, 1 + env.othersTook))]
      && s.authenticated && s.closes == []
  {
    var payload := VarUint(0) + Buf(token);
    var i := Received(Envelope(key, Auth, payload), env);
    EnvelopeRoundTrip(key, Auth, payload);
    BuiltFramesAreNotPings(key, Auth, payload);
    TokenFramesAreRecognised(0, Buf(token));
    RegisteringIsBeingAcked(env.attempts, actor);
    assert [i][..0] == [];
    assert After(lim, Empty, [i]) == HandleFrame(lim, Empty, i);
  }

  /** One hook that denies is enough: nothing is established or routed, and the code is 4403. */
  lemma OneDenialIsEnough(lim: Limits, s: Session, i: Input)
    requires |i.data| != 1 && i.frame.Some? && i.frame.value.ty == Auth
    requires IsTokenFrame(i.frame.value.payload) && i.frame.value.key !in s.routes.established
    requires false in i.env.connectHooks || false in i.env.authHooks
    ensures HandleFrame(lim, s, i) == s.(closes := s.closes + [4403])
  {
  }

  /** A token frame that no hook denies, acknowledged or not. */
  predicate Passes(i: Input) {
    && |i.data| != 1
    && i.frame.Some?
    && i.frame.value.ty == Auth
    && IsTokenFrame(i.frame.value.payload)
    && AllPass(i.env.connectHooks)
    && AllPass(i.env.authHooks)
  }

  predicate SomePasses(inputs: seq<Input>) {
    exists k | 0 <= k < |inputs| :: Passes(inputs[k])
  }

  /**
   Over every sequence of frames the socket counts as authenticated, and its idle deadline starts
   to move, exactly from the first token frame on that every hook accepted.
   */
  lemma {:induction false} AuthenticatedFromTheFirstPass(lim: Limits, inputs: seq<Input>)
    ensures After(lim, Empty, inputs).authenticated <==> SomePasses(inputs)
    ensures After(lim, Empty, inputs).routes.established != map[] ==> After(lim, Empty, inputs).authenticated
    decreases |inputs|
  {
    if inputs != [] {
      var front, last := inputs[..|inputs| - 1], inputs[|inputs| - 1];
      AuthenticatedFromTheFirstPass(lim, front);
      assert inputs == front + [last];
      assert SomePasses(inputs) <==> SomePasses(front) || Passes(last) by {
        assert forall k | 0 <= k < |front| :: inputs[k] == front[k];
        assert inputs[|front|] == last;
      }
    }
  }

  // ----- waiting -----

  /** All queues together with this frame stay within the three limits. */
  ghost predicate Fits(lim: Limits, q: map<Bytes, seq<Bytes>>, key: Bytes, data: Bytes) {
    && |q.Keys + {key}| <= lim.maxDocuments
    && Total(q, Count) + 1 <= lim.maxMessages
    && Total(q, Size) + |data| <= lim.maxBytes
  }

  /**
   Over every sequence of frames, the next frame of a key that is not established, and that is not
   an auth message, is put at the end of that key's queue if and only if the real totals leave
   room for it; otherwise nothing is queued and the socket is told to close.
   */
  lemma FramesWaitWhileTheyFit(lim: Limits, inputs: seq<Input>, i: Input)
    requires |i.data| != 1 && i.frame.Some? && i.frame.value.ty != Auth
    requires i.frame.value.key !in After(lim, Empty, inputs).routes.established
    ensures var s, key := After(lim, Empty, inputs), i.frame.value.key;
      var s' := HandleFrame(lim, s, i);
      && s'.routes == s.routes
      && if Fits(lim, s.waiting.queue, key, i.data)
         then s'.waiting.queue == s.waiting.queue[key := Pending(s.waiting, key) + [i.data]] && s'.closes == s.closes
         else s'.waiting == s.waiting && s'.closes == s.closes + [4205]
  {
    CountersAreExact(lim, inputs);
    var q, key := After(lim, Empty, inputs).waiting.queue, i.frame.value.key;
    assert key in q ==> q.Keys + {key} == q.Keys;
    assert key !in q ==> |q.Keys + {key}| == |q| + 1;
  }

  // ----- closing -----

  /** The frame means nothing here: a ping, garbage, or an auth message without a token. */
  predicate Ignored(s: Session, i: Input) {
    || |i.data| == 1
    || i.frame.None?
    || (i.frame.value.key !in s.routes.established && i.frame.value.ty == Auth
        && !IsTokenFrame(i.frame.value.payload))
  }

  /** Why a frame that is neither ignored, nor taken, nor admitted is answered by a Close. */
  datatype Cause = NoRoom | Denied | NotRegistered

  function CauseOf(i: Input): Cause
    requires i.frame.Some?
  {
    if i.frame.value.ty != Auth then NoRoom
    else if AllPass(i.env.connectHooks) && AllPass(i.env.authHooks) then NotRegistered
    else Denied
  }

  function CodeOf(cause: Cause): nat {
    match cause
    case NoRoom => 4205
    case NotRegistered => 4205
    case Denied => 4403
  }

  predicate Refused(lim: Limits, s: Session, i: Input) {
    && !Ignored(s, i)
    && !Takes(lim, s, i.frame.value.key, i)
    && !Admits(i, i.frame.value.key)
  }

  /** The causes of all refusals, in order. */
  function Causes(lim: Limits, inputs: seq<Input>): seq<Cause> {
    if inputs == [] then []
    else
      var front, last := inputs[..|inputs| - 1], inputs[|inputs| - 1];
      Causes(lim, front) + if Refused(lim, After(lim, Empty, front), last) then [CauseOf(last)] else []
  }

  /**
   Over every sequence of frames, each one is ignored, taken, admitted, or answered by exactly one
   Close, whose code tells why: 4205 for a queue limit or a registration that was not
   acknowledged, 4403 for a hook that denied.
   */
  lemma {:induction false} ClosingReasons(lim: Limits, inputs: seq<Input>)
    ensures var closes, causes := After(lim, Empty, inputs).closes, Causes(lim, inputs);
      && |closes| == |causes|
      && forall k | 0 <= k < |closes| :: closes[k] == CodeOf(causes[k])
    decreases |inputs|
  {
    if inputs != [] {
      ClosingReasons(lim, inputs[..|inputs| - 1]);
      AckedMeansRegistered(inputs[|inputs| - 1]);
    }
  }

  // ----- the idle timer -----

  /** A message, and when it arrived. */
  datatype Arrival = Arrival(at: nat, input: Input)

  function InputsOf(arrivals: seq<Arrival>): seq<Input> {
    if arrivals == [] then []
    else InputsOf(arrivals[..|arrivals| - 1]) + [arrivals[|arrivals| - 1].input]
  }

  predicate AuthenticatedBy(lim: Limits, arrivals: seq<Arrival>) {
    After(lim, Empty, InputsOf(arrivals)).authenticated
  }

  /** Fixed from the opening of the socket, and from authentication on from the last message. */
  function IdleDeadline(lim: Limits, timeout: nat, since: nat, arrivals: seq<Arrival>): nat {
    if arrivals != [] && AuthenticatedBy(lim, arrivals) then arrivals[|arrivals| - 1].at + timeout
    else since + timeout
  }

  /** Each message arrived before the timer would have fired. */
  predicate StaysOpen(lim: Limits, timeout: nat, since: nat, arrivals: seq<Arrival>) {
    arrivals == [] ||
    (var front := arrivals[..|arrivals| - 1];
     && StaysOpen(lim, timeout, since, front)
     && arrivals[|arrivals| - 1].at < IdleDeadline(lim, timeout, since, front))
  }

  lemma {:induction false} AuthenticationStays(lim: Limits, arrivals: seq<Arrival>, n: nat)
    requires n <= |arrivals| && AuthenticatedBy(lim, arrivals[..n])
    ensures AuthenticatedBy(lim, arrivals)
    decreases |arrivals|
  {
    if n == |arrivals| {
      assert arrivals[..n] == arrivals;
    } else {
      var front := arrivals[..|arrivals| - 1];
      assert front[..n] == arrivals[..n];
      AuthenticationStays(lim, front, n);
      var inputs := InputsOf(arrivals);
      assert inputs[..|inputs| - 1] == InputsOf(front);
    }
  }

  /** From message `n` on, each arrives within the timeout of the one before. */
  predicate Brisk(timeout: nat, arrivals: seq<Arrival>, n: nat) {
    forall k | 0 < n <= k < |arrivals| :: arrivals[k].at < arrivals[k - 1].at + timeout
  }

  lemma BriskGrows(timeout: nat, arrivals: seq<Arrival>, n: nat)
    requires 0 < n < |arrivals|
    ensures var last := |arrivals| - 1;
      Brisk(timeout, arrivals, n) <==>
      Brisk(timeout, arrivals[..last], n) && arrivals[last].at < arrivals[..last][last - 1].at + timeout
  {
    var front := arrivals[..|arrivals| - 1];
    assert forall k | 0 <= k < |front| :: front[k] == arrivals[k];
  }

  lemma OpenUntilTheLast(lim: Limits, timeout: nat, since: nat, arrivals: seq<Arrival>)
    requires var front := if arrivals == [] then [] else arrivals[..|arrivals| - 1];
      front != [] && AuthenticatedBy(lim, front)
    ensures var last := |arrivals| - 1;
      StaysOpen(lim, timeout, since, arrivals) <==>
      StaysOpen(lim, timeout, since, arrivals[..last])
      && arrivals[last].at < arrivals[..last][last - 1].at + timeout
  {
  }

  /**
   Once authenticated, a socket stays open for as long as messages keep arriving within the
   timeout of one another, and no longer; whether any connection on it still exists does not
   matter. So a client that keeps typing after its connection was evicted is not timed out.
   */
  lemma {:induction false} TypingKeepsTheSocketOpen(lim: Limits, timeout: nat, since: nat,
                                                    arrivals: seq<Arrival>, n: nat)
    requires 0 < n <= |arrivals| && AuthenticatedBy(lim, arrivals[..n])
    requires StaysOpen(lim, timeout, since, arrivals[..n])
    ensures StaysOpen(lim, timeout, since, arrivals) <==> Brisk(timeout, arrivals, n)
    decreases |arrivals|
  {
    if n == |arrivals| {
      assert arrivals[..n] == arrivals;
    } else {
      var front := arrivals[..|arrivals| - 1];
      assert front[..n] == arrivals[..n];
      TypingKeepsTheSocketOpen(lim, timeout, since, front, n);
      AuthenticationStays(lim, front, n);
      BriskGrows(timeout, arrivals, n);
      OpenUntilTheLast(lim, timeout, since, arrivals);
    }
  }
}
