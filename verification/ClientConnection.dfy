/**
 The per-socket connection as it runs: the queue and counter fields, the hook loops, the
 two-round registration loop and the drain loop, proved to compute what `SessionSpec` says.
 */
module ClientConnection {
  import opened Common
  import opened Wire
  import opened SessionSpec

  class ClientConnection {
    const limits: Limits
    var established: map<Bytes, Established>
    var queue: map<Bytes, seq<Bytes>>
    var queuedBytes: nat
    var queuedMessages: nat
    var authenticated: bool

    // What the socket acts on: the shared id counter, the actors, its own outbound queue.
    var nextConnId: nat
    var log: seq<Sent>
    var closes: seq<nat>

    ghost function Queues(): Waiting
      reads this
    {
      Waiting(queue, queuedBytes, queuedMessages)
    }

    ghost function Paths(): Routes
      reads this
    {
      Routes(established, nextConnId, log)
    }

    ghost function View(): Session
      reads this
    {
      Session(Queues(), Paths(), authenticated, closes)
    }

    constructor (limits: Limits)
      ensures this.limits == limits && View() == Empty
    {
      this.limits := limits;
      established, queue, queuedBytes, queuedMessages := map[], map[], 0, 0;
      authenticated, nextConnId, log, closes := false, 1, [], [];
    }

    method TerminateWith(code: nat)
      modifies `closes
      ensures closes == old(closes) + [code]
    {
      closes := closes + [code];
    }

    method Handle(data: Bytes, env: AuthEnv)
      modifies this
      ensures View() == HandleFrame(limits, old(View()), Received(data, env))
    {
      if |data| == 1 {
        return;
      }
      var parsed := Parse(data);
      if parsed.None? {
        return;
      }
      var key, ty := parsed.value.key, parsed.value.ty;
      if key in established {
        log := log + [Routed(established[key], data)];
        return;
      }
      if ty == Auth {
        AuthenticateKey(key, parsed.value.payload, env);
      } else {
        EnqueueFrame(key, data);
      }
    }

    method EnqueueFrame(key: Bytes, data: Bytes)
      modifies `queue, `queuedBytes, `queuedMessages, `closes
      ensures View() == Enqueue(limits, old(View()), key, data)
    {
      var isNewDoc := key !in queue;
      if isNewDoc && |queue| + 1 > limits.maxDocuments {
        TerminateWith(ResetConnection);
        return;
      }
      if queuedMessages + 1 > limits.maxMessages || queuedBytes + |data| > limits.maxBytes {
        TerminateWith(ResetConnection);
        return;
      }
      queuedBytes := queuedBytes + |data|;
      queuedMessages := queuedMessages + 1;
      if isNewDoc {
        queue := queue[key := []];
      }
      queue := queue[key := queue[key] + [data]];
    }

    /** Runs hooks in order and stops at the first that denies. */
    static method RunHooks(hooks: seq<bool>) returns (pass: bool)
      ensures pass <==> AllPass(hooks)
      ensures pass <==> false !in hooks
    {
      for k := 0 to |hooks|
        invariant forall i | 0 <= i < k :: hooks[i]
      {
        if !hooks[k] {
          return false;
        }
      }
      return true;
    }

    method AuthenticateKey(key: Bytes, payload: Bytes, env: AuthEnv)
      requires key !in established
      modifies this
      ensures View() == Authenticate(old(View()), key, payload, env)
    {
      assert payload[0..] == payload;
      var ok, tag, _ := ReadVarAt(payload, 0);
      if !ok || tag != TokenTag {
        return;
      }
      var connectOk := RunHooks(env.connectHooks);
      if !connectOk {
        TerminateWith(ForbiddenCode);
        return;
      }
      var authOk := RunHooks(env.authHooks);
      if !authOk {
        TerminateWith(ForbiddenCode);
        return;
      }
      AdmitKey(key, env);
    }

    method AdmitKey(key: Bytes, env: AuthEnv)
      modifies this
      ensures View() == Admit(old(View()), key, env)
    {
      authenticated := true;
      var connId := nextConnId + env.othersTook;
      nextConnId := connId + 1;
      var actor := RegisterConnection(env.attempts);
      if actor.None? {
        TerminateWith(ResetConnection);
        return;
      }
      var est := Established(actor.value, connId);
      established := established[key := est];
      log := log + [Added(key, est)];
      DrainQueue(key, est);
    }

    /** A second round covers an actor that unloads after it was found; there is no third. */
    static method RegisterConnection(attempts: (Attempt, Attempt)) returns (actor: Option<nat>)
      ensures actor == Register(attempts)
    {
      actor := None;
      var round := 0;
      while round < 2
        invariant 0 <= round <= 2
        invariant round == 0 ==> actor == None
        invariant round == 1 ==> attempts.0.SendFailed? || attempts.0.AckLost?
        invariant round == 2 ==> Register(attempts) == None
      {
        var attempt := if round == 0 then attempts.0 else attempts.1;
        match attempt {
          case LookupFailed => return None;
          case Acked(a) => return Some(a);
          case _ =>
        }
        round := round + 1;
      }
      return None;
    }

    method DrainQueue(key: Bytes, est: Established)
      modifies `queue, `queuedBytes, `queuedMessages, `log
      ensures Queues() == Drain(old(Queues()), key)
      ensures log == old(log) + RouteAll(est, Pending(old(Queues()), key))
    {
      if key !in queue {
        assert queue - {key} == queue;
        return;
      }
      var pending := queue[key];
      queue := queue - {key};
      var k := 0;
      while k < |pending|
        invariant k <= |pending| && queue == old(queue) - {key}
        invariant DrainCounters(old(queuedMessages), old(queuedBytes), pending) ==
          DrainCounters(queuedMessages, queuedBytes, pending[k..])
        invariant log == old(log) + RouteAll(est, pending[..k])
      {
        assert pending[k..][1..] == pending[k + 1..];
        assert pending[..k + 1][..k] == pending[..k];
        queuedMessages := SatSub(queuedMessages, 1);
        queuedBytes := SatSub(queuedBytes, |pending[k]|);
        log := log + [Routed(est, pending[k])];
        k := k + 1;
      }
      assert pending[..k] == pending && pending[k..] == [];
      assert DrainCounters(old(queuedMessages), old(queuedBytes), pending) == (queuedMessages, queuedBytes);
    }

    /**
     Sends one RemoveConnection for every established key and for nothing else; `order` is the
     order in which the map happened to be drained.
     */
    method Cleanup() returns (order: seq<Bytes>)
      modifies `established, `log
      ensures established == map[]
      ensures (set key | key in order) == old(established).Keys
      ensures forall i, j | 0 <= i < j < |order| :: order[i] != order[j]
      ensures |order| == |old(established)| && old(log) <= log
      ensures |log| == |old(log)| + |old(established)|
      ensures forall i | 0 <= i < |order| ::
        order[i] in old(established) && log[|old(log)| + i] == Removed(old(established)[order[i]])
    {
      order := KeysOf(established.Keys);
      for k := 0 to |order|
        invariant established == old(established)
        invariant old(log) <= log && |log| == |old(log)| + k
        invariant forall i | 0 <= i < k ::
          order[i] in established && log[|old(log)| + i] == Removed(established[order[i]])
      {
        assert order[k] in (set key | key in order);
        log := log + [Removed(established[order[k]])];
      }
      established := map[];
    }

    /** The keys in the order the map yields them. */
    static method KeysOf(keys: set<Bytes>) returns (order: seq<Bytes>)
      ensures (set key | key in order) == keys && |order| == |keys|
      ensures forall i, j | 0 <= i < j < |order| :: order[i] != order[j]
    {
      order := [];
      var todo := keys;
      while todo != {}
        invariant todo <= keys && |order| + |todo| == |keys|
        invariant forall key :: key in order <==> key in keys && key !in todo
        invariant forall i, j | 0 <= i < j < |order| :: order[i] != order[j]
        decreases |todo|
      {
        var key :| key in todo;
        order := order + [key];
        todo := todo - {key};
      }
    }
  }
}
