/**
 One socket: frames wait in per-key queues until their routing key is authenticated, then the
 queue is handed over to the document actor and later frames go straight to it.
 */
module SessionSpec {
  import opened Common
  import opened Wire

  datatype Limits = Limits(maxDocuments: nat, maxMessages: nat, maxBytes: nat)

  datatype Established = Established(actor: nat, connId: nat)

  /** Commands handed to document actors, oldest first. */
  datatype Sent =
    | Added(key: Bytes, est: Established)            // an acknowledged AddConnection
    | Routed(est: Established, data: Bytes)
    | Removed(est: Established)

  /** The per-key queues and the two counters kept beside them. */
  datatype Waiting = Waiting(queue: map<Bytes, seq<Bytes>>, bytes: nat, messages: nat)

  datatype Routes = Routes(established: map<Bytes, Established>, nextConnId: nat, log: seq<Sent>)

  datatype Session = Session(waiting: Waiting, routes: Routes, authenticated: bool, closes: seq<nat>)

  const Empty := Session(Waiting(map[], 0, 0), Routes(map[], 1, []), false, [])
  const ForbiddenCode := 4403

  /** One round of `register_connection`. */
  datatype Attempt = LookupFailed | SendFailed | AckLost | Acked(actor: nat)

  datatype AuthEnv = AuthEnv(
    connectHooks: seq<bool>,
    authHooks: seq<bool>,
    othersTook: nat,             // connection ids other sockets drew in between
    attempts: (Attempt, Attempt))

  /** A binary message, and what parsing its envelope gives. */
  datatype Input = Input(data: Bytes, frame: Option<Frame>, env: AuthEnv)

  function Received(data: Bytes, env: AuthEnv): Input {
    Input(data, ParseFrame(data), env)
  }

  function Size(frames: seq<Bytes>): nat {
    if frames == [] then 0 else |frames[0]| + Size(frames[1..])
  }

  function Count(frames: seq<Bytes>): nat {
    |frames|
  }

  function Terminate(s: Session, code: nat): Session {
    s.(closes := s.closes + [code])
  }

  /** All three pre-authentication limits leave room for this frame. */
  predicate HasRoom(lim: Limits, w: Waiting, key: Bytes, data: Bytes) {
    && (key !in w.queue ==> |w.queue| + 1 <= lim.maxDocuments)
    && w.messages + 1 <= lim.maxMessages
    && w.bytes + |data| <= lim.maxBytes
  }

  function Pending(w: Waiting, key: Bytes): seq<Bytes> {
    if key in w.queue then w.queue[key] else []
  }

  function Put(w: Waiting, key: Bytes, data: Bytes): Waiting {
    Waiting(w.queue[key := Pending(w, key) + [data]], w.bytes + |data|, w.messages + 1)
  }

  function Enqueue(lim: Limits, s: Session, key: Bytes, data: Bytes): Session {
    if HasRoom(lim, s.waiting, key, data)
    then s.(waiting := Put(s.waiting, key, data))
    else Terminate(s, ResetConnection)
  }

  /** At most two rounds; only an acknowledged AddConnection counts. */
  function Register(attempts: (Attempt, Attempt)): Option<nat> {
    match attempts.0
    case Acked(actor) => Some(actor)
    case LookupFailed => None
    case _ => if attempts.1.Acked? then Some(attempts.1.actor) else None
  }

  function SatSub(a: nat, b: nat): nat {
    if b <= a then a - b else 0
  }

  /** The two counters after the drain loop's saturating subtractions. */
  function DrainCounters(messages: nat, bytes: nat, frames: seq<Bytes>): (nat, nat)
    decreases |frames|
  {
    if frames == [] then (messages, bytes)
    else DrainCounters(SatSub(messages, 1), SatSub(bytes, |frames[0]|), frames[1..])
  }

  function Drain(w: Waiting, key: Bytes): Waiting {
    var (messages, bytes) := DrainCounters(w.messages, w.bytes, Pending(w, key));
    Waiting(w.queue - {key}, bytes, messages)
  }

  function RouteAll(est: Established, frames: seq<Bytes>): seq<Sent> {
    if frames == [] then []
    else RouteAll(est, frames[..|frames| - 1]) + [Routed(est, frames[|frames| - 1])]
  }

  /** The new connection, and everything that waited for it, in order. */
  function Connect(r: Routes, key: Bytes, est: Established, frames: seq<Bytes>): Routes {
    r.(established := r.established[key := est],
       log := r.log + [Added(key, est)] + RouteAll(est, frames))
  }

  function Forward(r: Routes, key: Bytes, data: Bytes): Routes
    requires key in r.established
  {
    r.(log := r.log + [Routed(r.established[key], data)])
  }

  predicate IsTokenFrame(payload: Bytes) {
    ReadVar(payload).Ok? && ReadVar(payload).value == TokenTag
  }

  function Admit(s: Session, key: Bytes, env: AuthEnv): Session {
    var connId := s.routes.nextConnId + env.othersTook;
    var drawn := s.routes.(nextConnId := connId + 1);
    match Register(env.attempts)
    case None => Terminate(s.(authenticated := true, routes := drawn), ResetConnection)
    case Some(actor) =>
      Session(Drain(s.waiting, key),
              Connect(drawn, key, Established(actor, connId), Pending(s.waiting, key)),
              true, s.closes)
  }

  function Authenticate(s: Session, key: Bytes, payload: Bytes, env: AuthEnv): Session {
    if !IsTokenFrame(payload) then s
    else if !AllPass(env.connectHooks) || !AllPass(env.authHooks) then Terminate(s, ForbiddenCode)
    else Admit(s, key, env)
  }

  function HandleFrame(lim: Limits, s: Session, i: Input): Session {
    if |i.data| == 1 || i.frame.None? then s
    else
      var f := i.frame.value;
      if f.key in s.routes.established then s.(routes := Forward(s.routes, f.key, i.data))
      else if f.ty == Auth then Authenticate(s, f.key, f.payload, i.env)
      else Enqueue(lim, s, f.key, i.data)
  }

  /** The session after a whole sequence of messages. */
  function After(lim: Limits, s: Session, inputs: seq<Input>): Session {
    if inputs == [] then s
    else HandleFrame(lim, After(lim, s, inputs[..|inputs| - 1]), inputs[|inputs| - 1])
  }
}
