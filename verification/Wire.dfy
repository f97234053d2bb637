/**
 The wire envelope: `varString(address) varUint(opcode) payload`, the routing key inside the
 address, and the identifier envelope around frames published to Redis. Strings are their
 UTF-8 bytes.
 */
module Wire {
  import opened Common

  type Byte = x: int | 0 <= x < 256
  type Bytes = seq<Byte>

  // ----- lib0 primitives -----

  /** Seven bits a byte, least significant first, high bit set on all but the last. */
  function VarUint(n: nat): Bytes {
    if n < 128 then [n] else [128 + n % 128] + VarUint(n / 128)
  }

  datatype Read<+T> = Ok(value: T, rest: Bytes) | Err

  function ReadVar(data: Bytes): Read<nat> {
    if data == [] then Err
    else if data[0] < 128 then Ok(data[0], data[1..])
    else
      match ReadVar(data[1..])
      case Ok(high, rest) => Ok(data[0] - 128 + 128 * high, rest)
      case Err => Err
  }

  function Buf(b: Bytes): Bytes {
    VarUint(|b|) + b
  }

  function ReadBuf(data: Bytes): Read<Bytes> {
    match ReadVar(data)
    case Ok(n, rest) => if n <= |rest| then Ok(rest[..n], rest[n..]) else Err
    case Err => Err
  }

  predicate Continues(s: Bytes, i: nat) {
    i < |s| && 0x80 <= s[i] <= 0xBF
  }

  /** Length of the well-formed UTF-8 scalar at the start of `s`, or zero. */
  function ScalarLen(s: Bytes): nat {
    if s == [] then 0
    else if s[0] < 0x80 then 1
    else if 0xC2 <= s[0] <= 0xDF then (if Continues(s, 1) then 2 else 0)
    else if 0xE0 <= s[0] <= 0xEF then
      (if Continues(s, 1) && Continues(s, 2)
          && (s[0] == 0xE0 ==> 0xA0 <= s[1]) && (s[0] == 0xED ==> s[1] <= 0x9F) then 3 else 0)
    else if 0xF0 <= s[0] <= 0xF4 then
      (if Continues(s, 1) && Continues(s, 2) && Continues(s, 3)
          && (s[0] == 0xF0 ==> 0x90 <= s[1]) && (s[0] == 0xF4 ==> s[1] <= 0x8F) then 4 else 0)
    else 0
  }

  predicate ValidUtf8(s: Bytes)
    decreases |s|
  {
    s == [] || (0 < ScalarLen(s) <= |s| && ValidUtf8(s[ScalarLen(s)..]))
  }

  // ----- UTF-8 by its definition -----

  predicate IsScalar(c: nat) {
    c < 0xD800 || 0xE000 <= c < 0x110000
  }

  /** The encoding of one scalar value. */
  function Utf8(c: nat): Bytes
    requires IsScalar(c)
  {
    if c < 0x80 then [c]
    else if c < 0x800 then [0xC0 + c / 0x40, 0x80 + c % 0x40]
    else if c < 0x10000 then [0xE0 + c / 0x1000, 0x80 + c / 0x40 % 0x40, 0x80 + c % 0x40]
    else [0xF0 + c / 0x40000, 0x80 + c / 0x1000 % 0x40, 0x80 + c / 0x40 % 0x40, 0x80 + c % 0x40]
  }

  type Scalar = c: nat | IsScalar(c)

  function Utf8All(cs: seq<Scalar>): Bytes
    decreases |cs|
  {
    if cs == [] then [] else Utf8(cs[0]) + Utf8All(cs[1..])
  }

  /** Reading looks at no more than the first four bytes. */
  lemma OnlyTheFrontCounts(u: Bytes, rest: Bytes)
    requires 0 < ScalarLen(u) == |u|
    ensures ScalarLen(u + rest) == |u|
  {
    var s := u + rest;
    assert forall i | 0 <= i < |u| :: s[i] == u[i];
  }

  lemma ThreeByteScalar(c: Scalar)
    requires 0x800 <= c < 0x10000
    ensures ScalarLen(Utf8(c)) == 3
  {
    assert IsScalar(c);
    var m := c / 0x40;
    assert c / 0x1000 == m / 0x40 && m == 0x40 * (m / 0x40) + m % 0x40;
    assert c < 0xD800 ==> m < 0x360;
  }

  lemma FourByteScalar(c: Scalar)
    requires 0x10000 <= c
    ensures ScalarLen(Utf8(c)) == 4
  {
    assert IsScalar(c);
    var m := c / 0x1000;
    assert c / 0x40000 == m / 0x40 && m == 0x40 * (m / 0x40) + m % 0x40;
    assert 0x10 <= m < 0x110;
  }

  lemma ScalarIsRead(c: Scalar, rest: Bytes)
    ensures ScalarLen(Utf8(c) + rest) == |Utf8(c)|
  {
    if 0x10000 <= c {
      FourByteScalar(c);
    } else if 0x800 <= c {
      ThreeByteScalar(c);
    }
    OnlyTheFrontCounts(Utf8(c), rest);
  }

  lemma TwoBytes(a: Byte, b: Byte) returns (c: Scalar)
    requires 0xC2 <= a <= 0xDF && 0x80 <= b <= 0xBF
    ensures Utf8(c) == [a, b]
  {
    var high: int, low: int := a, b;
    c := 0x40 * (high - 0xC0) + (low - 0x80);
  }

  lemma ThreeBytes(a: Byte, b: Byte, d: Byte) returns (c: Scalar)
    requires 0xE0 <= a <= 0xEF && 0x80 <= b <= 0xBF && 0x80 <= d <= 0xBF
    requires (a == 0xE0 ==> 0xA0 <= b) && (a == 0xED ==> b <= 0x9F)
    ensures Utf8(c) == [a, b, d]
  {
    var high: int, mid: int, low: int := a, b, d;
    var upper := 0x40 * (high - 0xE0) + (mid - 0x80);
    c := 0x40 * upper + (low - 0x80);
    assert c / 0x40 == upper && c % 0x40 == low - 0x80;
    assert c / 0x1000 == upper / 0x40;
  }

  lemma FourBytes(a: Byte, b: Byte, d: Byte, e: Byte) returns (c: Scalar)
    requires 0xF0 <= a <= 0xF4 && 0x80 <= b <= 0xBF && 0x80 <= d <= 0xBF && 0x80 <= e <= 0xBF
    requires (a == 0xF0 ==> 0x90 <= b) && (a == 0xF4 ==> b <= 0x8F)
    ensures Utf8(c) == [a, b, d, e]
  {
    var first: int, second: int, third: int, fourth: int := a, b, d, e;
    var top := 0x40 * (first - 0xF0) + (second - 0x80);
    var upper := 0x40 * top + (third - 0x80);
    c := 0x40 * upper + (fourth - 0x80);
    assert c / 0x40 == upper && c % 0x40 == fourth - 0x80;
    assert c / 0x1000 == upper / 0x40 == top && upper % 0x40 == third - 0x80;
    assert c / 0x40000 == top / 0x40;
  }

  lemma ReadIsScalar(s: Bytes) returns (c: Scalar)
    requires 0 < ScalarLen(s)
    ensures ScalarLen(s) <= |s| && s[..ScalarLen(s)] == Utf8(c)
  {
    if ScalarLen(s) == 1 {
      c := s[0];
    } else if ScalarLen(s) == 2 {
      c := TwoBytes(s[0], s[1]);
    } else if ScalarLen(s) == 3 {
      c := ThreeBytes(s[0], s[1], s[2]);
    } else {
      c := FourBytes(s[0], s[1], s[2], s[3]);
    }
  }

  lemma {:induction false} EncodedIsValid(cs: seq<Scalar>)
    ensures ValidUtf8(Utf8All(cs))
    decreases |cs|
  {
    if cs != [] {
      var rest := Utf8All(cs[1..]);
      ScalarIsRead(cs[0], rest);
      EncodedIsValid(cs[1..]);
      assert (Utf8(cs[0]) + rest)[|Utf8(cs[0])|..] == rest;
    }
  }

  lemma EncodedFirst(c: Scalar, rest: seq<Scalar>)
    ensures Utf8All([c] + rest) == Utf8(c) + Utf8All(rest)
  {
    assert ([c] + rest)[1..] == rest;
  }

  lemma FirstScalar(s: Bytes) returns (c: Scalar, tail: Bytes)
    requires ValidUtf8(s) && s != []
    ensures s == Utf8(c) + tail && ValidUtf8(tail) && |tail| < |s|
  {
    c := ReadIsScalar(s);
    tail := s[ScalarLen(s)..];
    assert s == s[..ScalarLen(s)] + tail;
  }

  /** Valid UTF-8 is exactly the encodings of sequences of scalar values. */
  lemma {:induction false} ValidIsEncoded(s: Bytes) returns (cs: seq<Scalar>)
    requires ValidUtf8(s)
    ensures s == Utf8All(cs)
    decreases |s|
  {
    if s == [] {
      cs := [];
    } else {
      var c, tail := FirstScalar(s);
      var rest := ValidIsEncoded(tail);
      cs := [c] + rest;
      EncodedFirst(c, rest);
    }
  }

  type Str = s: Bytes | ValidUtf8(s) witness []

  function ReadString(data: Bytes): Read<Bytes> {
    match ReadBuf(data)
    case Ok(s, rest) => if ValidUtf8(s) then Ok(s, rest) else Err
    case Err => Err
  }

  lemma {:induction false} VarUintRoundTrip(n: nat, rest: Bytes)
    ensures ReadVar(VarUint(n) + rest) == Ok(n, rest)
    decreases n
  {
    var data := VarUint(n) + rest;
    if n < 128 {
      assert data[1..] == rest;
    } else {
      assert data[1..] == VarUint(n / 128) + rest;
      VarUintRoundTrip(n / 128, rest);
    }
  }

  /** The byte form on the examples of section 7.6 of DWARF version 4. */
  lemma VarUintExamples()
    ensures VarUint(2) == [2] && VarUint(127) == [127]
    ensures VarUint(128) == [0 + 0x80, 1] && VarUint(129) == [1 + 0x80, 1]
    ensures VarUint(130) == [2 + 0x80, 1] && VarUint(12857) == [57 + 0x80, 100]
  {
    assert VarUint(1) == [1] && VarUint(100) == [100];
    assert 12857 % 128 == 57 && 12857 / 128 == 100;
  }

  lemma VarUintIsNonEmpty(n: nat)
    ensures 1 <= |VarUint(n)|
  {
  }

  lemma BufRoundTrip(b: Bytes, rest: Bytes)
    ensures ReadBuf(Buf(b) + rest) == Ok(b, rest)
  {
    assert Buf(b) + rest == VarUint(|b|) + (b + rest);
    VarUintRoundTrip(|b|, b + rest);
    assert (b + rest)[..|b|] == b && (b + rest)[|b|..] == rest;
  }

  // ----- message types -----

  datatype MessageType =
    | Sync | Awareness | Auth | QueryAwareness | SyncReply | Stateless | BroadcastStateless
    | Close | SyncStatus | Ping | Pong

  function Opcode(ty: MessageType): nat {
    match ty
    case Sync => 0
    case Awareness => 1
    case Auth => 2
    case QueryAwareness => 3
    case SyncReply => 4
    case Stateless => 5
    case BroadcastStateless => 6
    case Close => 7
    case SyncStatus => 8
    case Ping => 9
    case Pong => 10
  }

  function FromU64(v: nat): Option<MessageType> {
    match v
    case 0 => Some(Sync)
    case 1 => Some(Awareness)
    case 2 => Some(Auth)
    case 3 => Some(QueryAwareness)
    case 4 => Some(SyncReply)
    case 5 => Some(Stateless)
    case 6 => Some(BroadcastStateless)
    case 7 => Some(Close)
    case 8 => Some(SyncStatus)
    case 9 => Some(Ping)
    case 10 => Some(Pong)
    case _ => None
  }

  lemma OpcodesAreABijection(ty: MessageType, v: nat)
    ensures FromU64(v) == Some(ty) <==> v == Opcode(ty)
  {
  }

  /** The protocol's message types in the order of their numbers. */
  const Types := [Sync, Awareness, Auth, QueryAwareness, SyncReply, Stateless, BroadcastStateless,
                  Close, SyncStatus, Ping, Pong]

  /** Each type has its protocol number, and no other number is a type. */
  lemma OpcodesAreTheProtocols(v: nat)
    ensures FromU64(v) == if v < |Types| then Some(Types[v]) else None
    ensures v < |Types| ==> Opcode(Types[v]) == v
  {
  }

  // ----- frames -----

  datatype Frame = Frame(key: Bytes, ty: MessageType, payload: Bytes)

  function Envelope(address: Bytes, ty: MessageType, payload: Bytes): Bytes {
    Buf(address) + VarUint(Opcode(ty)) + payload
  }

  function ParseFrame(data: Bytes): Option<Frame> {
    match ReadString(data)
    case Err => None
    case Ok(key, rest) =>
      match ReadVar(rest)
      case Err => None
      case Ok(op, payload) =>
        match FromU64(op)
        case None => None
        case Some(ty) => Some(Frame(key, ty, payload))
  }

  /** Parsing a built frame gives back its address, its opcode and exactly its payload. */
  lemma EnvelopeRoundTrip(address: Str, ty: MessageType, payload: Bytes)
    ensures ParseFrame(Envelope(address, ty, payload)) == Some(Frame(address, ty, payload))
  {
    var tail := VarUint(Opcode(ty)) + payload;
    assert Envelope(address, ty, payload) == Buf(address) + tail;
    BufRoundTrip(address, tail);
    VarUintRoundTrip(Opcode(ty), payload);
    OpcodesAreABijection(ty, Opcode(ty));
  }

  /** No built frame can be taken for a one-byte Ping or Pong. */
  lemma BuiltFramesAreNotPings(address: Bytes, ty: MessageType, payload: Bytes)
    ensures |Envelope(address, ty, payload)| >= 2
  {
    VarUintIsNonEmpty(|address|);
    VarUintIsNonEmpty(Opcode(ty));
  }

  // ----- every outgoing message -----

  datatype Outgoing =
    | SyncPayload(body: Bytes)
    | SyncReplyPayload(body: Bytes)
    | AwarenessUpdate(update: Bytes)
    | AwarenessQuery
    | Authenticated(readOnly: bool)
    | PermissionDenied(reason: Str)
    | TokenRequest
    | StatelessPayload(text: Str)
    | BroadcastStatelessPayload(text: Str)
    | SyncStatusReport(saved: bool)
    | CloseNotice(reason: Str)

  function TypeOf(m: Outgoing): MessageType {
    match m
    case SyncPayload(_) => Sync
    case SyncReplyPayload(_) => SyncReply
    case AwarenessUpdate(_) => Awareness
    case AwarenessQuery => QueryAwareness
    case Authenticated(_) => Auth
    case PermissionDenied(_) => Auth
    case TokenRequest => Auth
    case StatelessPayload(_) => Stateless
    case BroadcastStatelessPayload(_) => BroadcastStateless
    case SyncStatusReport(_) => SyncStatus
    case CloseNotice(_) => Close
  }

  /** "readonly" and "read-write". */
  const ReadOnlyWord: Bytes := [114, 101, 97, 100, 111, 110, 108, 121]
  const ReadWriteWord: Bytes := [114, 101, 97, 100, 45, 119, 114, 105, 116, 101]

  const TokenTag: nat := 0
  const DeniedTag: nat := 1
  const AuthenticatedTag: nat := 2

  function PayloadOf(m: Outgoing): Bytes {
    match m
    case SyncPayload(body) => body
    case SyncReplyPayload(body) => body
    case AwarenessUpdate(update) => Buf(update)
    case AwarenessQuery => []
    case Authenticated(readOnly) =>
      VarUint(AuthenticatedTag) + Buf(if readOnly then ReadOnlyWord else ReadWriteWord)
    case PermissionDenied(reason) => VarUint(DeniedTag) + Buf(reason)
    case TokenRequest => VarUint(TokenTag)
    case StatelessPayload(text) => Buf(text)
    case BroadcastStatelessPayload(text) => Buf(text)
    case SyncStatusReport(saved) => VarUint(if saved then 1 else 0)
    case CloseNotice(reason) => Buf(reason)
  }

  function Encode(address: Bytes, m: Outgoing): Bytes {
    Envelope(address, TypeOf(m), PayloadOf(m))
  }

  function TextOf(r: Read<Bytes>): Option<Str> {
    match r
    case Ok(s, _) => if ValidUtf8(s) then Some(s) else None
    case Err => None
  }

  /** How a client reads the payload back. */
  function DecodeAuth(payload: Bytes): Option<Outgoing> {
    match ReadVar(payload)
    case Err => None
    case Ok(tag, rest) =>
      if tag == TokenTag then Some(TokenRequest)
      else if tag == DeniedTag then
        (var text := TextOf(ReadString(rest));
         if text.Some? then Some(PermissionDenied(text.value)) else None)
      else if tag == AuthenticatedTag then
        (match ReadBuf(rest) case Ok(word, _) => Some(Authenticated(word == ReadOnlyWord)) case Err => None)
      else None
  }

  function DecodePayload(ty: MessageType, payload: Bytes): Option<Outgoing> {
    match ty
    case Sync => Some(SyncPayload(payload))
    case SyncReply => Some(SyncReplyPayload(payload))
    case Awareness =>
      (match ReadBuf(payload) case Ok(u, _) => Some(AwarenessUpdate(u)) case Err => None)
    case QueryAwareness => Some(AwarenessQuery)
    case Auth => DecodeAuth(payload)
    case Stateless =>
      var text := TextOf(ReadString(payload));
      if text.Some? then Some(StatelessPayload(text.value)) else None
    case BroadcastStateless =>
      var text := TextOf(ReadString(payload));
      if text.Some? then Some(BroadcastStatelessPayload(text.value)) else None
    case SyncStatus =>
      (match ReadVar(payload) case Ok(v, _) => Some(SyncStatusReport(v == 1)) case Err => None)
    case Close =>
      var text := TextOf(ReadString(payload));
      if text.Some? then Some(CloseNotice(text.value)) else None
    case Ping => None
    case Pong => None
  }

  /** The tags and words of the protocol in their places. */
  lemma PayloadExamples()
    ensures PayloadOf(TokenRequest) == [0]
    ensures PayloadOf(PermissionDenied([])) == [1, 0]
    ensures PayloadOf(Authenticated(true)) == [2, 8] + [114, 101, 97, 100, 111, 110, 108, 121]
    ensures PayloadOf(Authenticated(false)) == [2, 10] + [114, 101, 97, 100, 45, 119, 114, 105, 116, 101]
    ensures PayloadOf(SyncStatusReport(true)) == [1] && PayloadOf(SyncStatusReport(false)) == [0]
  {
    assert |ReadOnlyWord| == 8 && |ReadWriteWord| == 10;
  }

  lemma StringRoundTrip(s: Str, rest: Bytes)
    ensures ReadString(Buf(s) + rest) == Ok(s, rest)
  {
    BufRoundTrip(s, rest);
  }

  lemma StringAlone(s: Str)
    ensures ReadString(Buf(s)) == Ok(s, []) && TextOf(ReadString(Buf(s))) == Some(s)
  {
    StringRoundTrip(s, []);
    assert Buf(s) + [] == Buf(s);
  }

  lemma VarAlone(n: nat)
    ensures ReadVar(VarUint(n)) == Ok(n, [])
  {
    VarUintRoundTrip(n, []);
    assert VarUint(n) + [] == VarUint(n);
  }

  lemma DeniedRoundTrip(reason: Str)
    ensures DecodeAuth(PayloadOf(PermissionDenied(reason))) == Some(PermissionDenied(reason))
  {
    VarUintRoundTrip(DeniedTag, Buf(reason));
    StringAlone(reason);
  }

  lemma AccessDecodes(word: Bytes)
    ensures DecodeAuth(VarUint(AuthenticatedTag) + Buf(word)) == Some(Authenticated(word == ReadOnlyWord))
  {
    VarUintRoundTrip(AuthenticatedTag, Buf(word));
    BufRoundTrip(word, []);
    assert Buf(word) + [] == Buf(word);
  }

  lemma AuthenticatedRoundTrip(readOnly: bool)
    ensures DecodeAuth(PayloadOf(Authenticated(readOnly))) == Some(Authenticated(readOnly))
  {
    assert |ReadOnlyWord| != |ReadWriteWord|;
    AccessDecodes(if readOnly then ReadOnlyWord else ReadWriteWord);
  }

  lemma TextRoundTrip(ty: MessageType, text: Str)
    requires ty in {Stateless, BroadcastStateless, Close}
    ensures DecodePayload(ty, Buf(text)) ==
      if ty == Stateless then Some(StatelessPayload(text))
      else if ty == Close then Some(CloseNotice(text)) else Some(BroadcastStatelessPayload(text))
  {
    StringAlone(text);
  }

  lemma PayloadRoundTrip(m: Outgoing)
    ensures DecodePayload(TypeOf(m), PayloadOf(m)) == Some(m)
  {
    match m
    case SyncPayload(_) =>
    case SyncReplyPayload(_) =>
    case AwarenessQuery =>
    case AwarenessUpdate(update) =>
      BufRoundTrip(update, []);
      assert Buf(update) + [] == Buf(update);
    case StatelessPayload(text) => TextRoundTrip(Stateless, text);
    case BroadcastStatelessPayload(text) => TextRoundTrip(BroadcastStateless, text);
    case CloseNotice(reason) => TextRoundTrip(Close, reason);
    case SyncStatusReport(saved) => VarAlone(if saved then 1 else 0);
    case TokenRequest => VarAlone(TokenTag);
    case PermissionDenied(reason) => DeniedRoundTrip(reason);
    case Authenticated(readOnly) => AuthenticatedRoundTrip(readOnly);
  }

  /**
   Every builder is undone by parsing the envelope and reading the payload, and what it built is
   never taken for a one-byte Ping or Pong.
   */
  lemma EveryMessageRoundTrips(address: Str, m: Outgoing)
    ensures var frame := ParseFrame(Encode(address, m));
      frame.Some? && frame.value.key == address
      && DecodePayload(frame.value.ty, frame.value.payload) == Some(m)
      && |Encode(address, m)| != 1
  {
    EnvelopeRoundTrip(address, TypeOf(m), PayloadOf(m));
    BuiltFramesAreNotPings(address, TypeOf(m), PayloadOf(m));
    PayloadRoundTrip(m);
  }

  // ----- routing keys -----

  function FirstNul(key: Bytes): (i: nat)
    ensures i <= |key| && 0 !in key[..i] && (i < |key| ==> key[i] == 0)
  {
    if key == [] || key[0] == 0 then 0
    else
      var j := FirstNul(key[1..]);
      assert key[..j + 1] == [key[0]] + key[1..][..j];
      1 + j
  }

  function ParseRoutingKey(key: Bytes): (Bytes, Option<Bytes>) {
    var i := FirstNul(key);
    if i < |key| then (key[..i], Some(key[i + 1..])) else (key, None)
  }

  function MessageAddress(name: Bytes, session: Option<Bytes>): Bytes {
    match session
    case Some(sid) => name + [0] + sid
    case None => name
  }

  /** Rebuilding a split key restores it, for every key. */
  lemma RebuildingRestoresTheKey(key: Bytes)
    ensures var (name, session) := ParseRoutingKey(key);
      MessageAddress(name, session) == key
  {
  }

  /** Splitting a built key restores the parts exactly when the name has no NUL. */
  lemma SplittingRestoresTheParts(name: Bytes, session: Option<Bytes>)
    ensures ParseRoutingKey(MessageAddress(name, session)) == (name, session) <==> 0 !in name
  {
    var key := MessageAddress(name, session);
    if 0 in name {
      var i := FirstNul(name);
      assert key[..i] == name[..i];
      FirstNulIs(key, i);
      assert |ParseRoutingKey(key).0| < |name|;
    } else {
      assert key[..|name|] == name;
      FirstNulIs(key, |name|);
      if session.Some? {
        assert key[|name| + 1..] == session.value;
      }
    }
  }

  lemma FirstNulIs(key: Bytes, i: nat)
    requires i <= |key| && 0 !in key[..i] && (i < |key| ==> key[i] == 0)
    ensures FirstNul(key) == i
  {
  }

  lemma NulIsNotInside(s: Bytes, i: nat)
    requires 0 < i < |s| && s[i] == 0
    ensures ScalarLen(s) <= i
  {
  }

  lemma ScalarIsLocal(s: Bytes, i: nat)
    requires 0 < ScalarLen(s) <= i <= |s|
    ensures ScalarLen(s[..i]) == ScalarLen(s)
  {
    var t := s[..i];
    assert forall k | 0 <= k < i :: t[k] == s[k];
    assert forall k: nat | k < ScalarLen(s) :: Continues(t, k) == Continues(s, k);
  }

  /** A NUL byte is a scalar of its own, so both halves of a split key are strings again. */
  lemma {:induction false} NulIsABoundary(s: Bytes, i: nat)
    requires ValidUtf8(s) && i < |s| && s[i] == 0
    ensures ValidUtf8(s[..i]) && ValidUtf8(s[i + 1..])
    decreases |s|
  {
    var n := ScalarLen(s);
    if i == 0 {
      assert s[..0] == [];
    } else {
      NulIsNotInside(s, i);
      NulIsABoundary(s[n..], i - n);
      assert s[n..][i - n + 1..] == s[i + 1..];
      ScalarIsLocal(s, i);
      ValidFront(s, i);
    }
  }

  lemma ValidFront(s: Bytes, i: nat)
    requires var n := ScalarLen(s);
      && 0 < n <= i <= |s| && ScalarLen(s[..i]) == n && ValidUtf8(s[n..][..i - n])
    ensures ValidUtf8(s[..i])
  {
    assert s[..i][ScalarLen(s)..] == s[ScalarLen(s)..][..i - ScalarLen(s)];
  }

  lemma SplitPartsAreStrings(key: Str)
    ensures var (name, session) := ParseRoutingKey(key);
      ValidUtf8(name) && (session.Some? ==> ValidUtf8(session.value))
  {
    if FirstNul(key) < |key| {
      NulIsABoundary(key, FirstNul(key));
    }
  }

  // ----- the Redis identifier envelope -----

  /** The length byte is a truncating cast. */
  function MessagePrefix(identifier: Bytes): Bytes {
    [|identifier| % 256] + identifier
  }

  /** The subscriber's split of a payload into identifier and frame. */
  function Unwrap(payload: Bytes): Option<(Bytes, Bytes)> {
    if payload == [] then None
    else
      var n: nat := payload[0];
      if |payload| < 1 + n then None else Some((payload[1..1 + n], payload[1 + n..]))
  }

  predicate IsOwnMessage(me: Bytes, payload: Bytes) {
    Unwrap(payload).Some? && Unwrap(payload).value.0 == me
  }

  /** The envelope unwraps exactly for identifiers of at most 255 bytes, and for no others. */
  lemma EnvelopeUnwraps(identifier: Bytes, frame: Bytes)
    ensures Unwrap(MessagePrefix(identifier) + frame) == Some((identifier, frame)) <==> |identifier| <= 255
  {
    var payload := MessagePrefix(identifier) + frame;
    var n := |identifier| % 256;
    assert payload[0] == n && |payload| >= 1 + n;
    assert payload[1..1 + n] == identifier[..n];
    if |identifier| <= 255 {
      assert identifier[..n] == identifier;
      assert payload[1 + n..] == frame;
    } else {
      assert |identifier[..n]| != |identifier|;
    }
  }

  /** A node recognises its own messages exactly if its identifier fits the length byte. */
  lemma OwnMessagesAreRecognised(me: Bytes, frame: Bytes)
    ensures IsOwnMessage(me, MessagePrefix(me) + frame) <==> |me| <= 255
  {
    EnvelopeUnwraps(me, frame);
    var payload := MessagePrefix(me) + frame;
    assert payload[0] == |me| % 256;
    if |me| > 255 {
      assert Unwrap(payload).Some? ==> |Unwrap(payload).value.0| == |me| % 256;
    }
  }

  /** A peer's message is taken for one's own exactly if the identifiers are equal. */
  lemma PeersAreToldApart(me: Bytes, peer: Bytes, frame: Bytes)
    requires |peer| <= 255
    ensures IsOwnMessage(me, MessagePrefix(peer) + frame) <==> me == peer
  {
    EnvelopeUnwraps(peer, frame);
  }

  // ----- the encoder buffer and the decoding cursor -----

  /** Reading takes bytes off the front and leaves the others as they are. */
  lemma {:induction false} ReadingLeavesTheEnd(data: Bytes)
    requires ReadVar(data).Ok?
    ensures |ReadVar(data).rest| < |data| && ReadVar(data).rest == data[|data| - |ReadVar(data).rest|..]
    decreases |data|
  {
    if 128 <= data[0] {
      ReadingLeavesTheEnd(data[1..]);
    }
  }

  /** A builder: each call appends to the frame begun with the address. */
  class OutgoingMessage {
    var encoder: Bytes

    constructor (address: Bytes)
      ensures encoder == Buf(address)
    {
      encoder := [];
      new;
      WriteBuf(address);
    }

    method WriteVar(n: nat)
      modifies this
      ensures encoder == old(encoder) + VarUint(n)
    {
      var rest := n;
      ghost var start := encoder;
      while rest >= 128
        invariant start + VarUint(n) == encoder + VarUint(rest)
      {
        encoder := encoder + [128 + rest % 128];
        rest := rest / 128;
      }
      encoder := encoder + [rest];
    }

    method WriteBuf(b: Bytes)
      modifies this
      ensures encoder == old(encoder) + Buf(b)
    {
      WriteVar(|b|);
      encoder := encoder + b;
    }

    method WriteOpcode(ty: MessageType)
      modifies this
      ensures encoder == old(encoder) + VarUint(Opcode(ty))
    {
      WriteVar(Opcode(ty));
    }

    method WriteSync(body: Bytes)
      modifies this
      ensures encoder == Finished(old(encoder), SyncPayload(body))
    {
      WriteOpcode(Sync);
      encoder := encoder + body;
    }

    method WriteSyncReply(body: Bytes)
      modifies this
      ensures encoder == Finished(old(encoder), SyncReplyPayload(body))
    {
      WriteOpcode(SyncReply);
      encoder := encoder + body;
    }

    method WriteAwarenessUpdate(update: Bytes)
      modifies this
      ensures encoder == Finished(old(encoder), AwarenessUpdate(update))
    {
      WriteOpcode(Awareness);
      WriteBuf(update);
    }

    method WriteQueryAwareness()
      modifies this
      ensures encoder == Finished(old(encoder), AwarenessQuery)
    {
      WriteOpcode(QueryAwareness);
    }

    method WriteTagged(tag: nat, text: Bytes)
      modifies this
      ensures encoder == old(encoder) + (VarUint(tag) + Buf(text))
    {
      WriteVar(tag);
      WriteBuf(text);
    }

    method WriteAuthenticated(readOnly: bool)
      modifies this
      ensures encoder == Finished(old(encoder), Authenticated(readOnly))
    {
      WriteOpcode(Auth);
      WriteTagged(AuthenticatedTag, if readOnly then ReadOnlyWord else ReadWriteWord);
    }

    method WritePermissionDenied(reason: Str)
      modifies this
      ensures encoder == Finished(old(encoder), PermissionDenied(reason))
    {
      WriteOpcode(Auth);
      WriteTagged(DeniedTag, reason);
    }

    method WriteTokenRequest()
      modifies this
      ensures encoder == Finished(old(encoder), TokenRequest)
    {
      WriteOpcode(Auth);
      WriteVar(TokenTag);
    }

    method WriteStateless(text: Str, toPeers: bool)
      modifies this
      ensures encoder == Finished(old(encoder),
        if toPeers then BroadcastStatelessPayload(text) else StatelessPayload(text))
    {
      WriteOpcode(if toPeers then BroadcastStateless else Stateless);
      WriteBuf(text);
    }

    method WriteSyncStatus(saved: bool)
      modifies this
      ensures encoder == Finished(old(encoder), SyncStatusReport(saved))
    {
      WriteOpcode(SyncStatus);
      WriteVar(if saved then 1 else 0);
    }

    method WriteClose(reason: Str)
      modifies this
      ensures encoder == Finished(old(encoder), CloseNotice(reason))
    {
      WriteOpcode(Close);
      WriteBuf(reason);
    }
  }

  /** A frame begun with `start` and finished with one message. */
  function Finished(start: Bytes, m: Outgoing): Bytes {
    start + VarUint(Opcode(TypeOf(m))) + PayloadOf(m)
  }

  /** Whichever builder is used, the bytes are the envelope of that message. */
  method Build(address: Bytes, m: Outgoing) returns (bytes: Bytes)
    ensures bytes == Encode(address, m)
  {
    var message := new OutgoingMessage(address);
    match m {
      case SyncPayload(body) => message.WriteSync(body);
      case SyncReplyPayload(body) => message.WriteSyncReply(body);
      case AwarenessUpdate(update) => message.WriteAwarenessUpdate(update);
      case AwarenessQuery => message.WriteQueryAwareness();
      case Authenticated(readOnly) => message.WriteAuthenticated(readOnly);
      case PermissionDenied(reason) => message.WritePermissionDenied(reason);
      case TokenRequest => message.WriteTokenRequest();
      case StatelessPayload(text) => message.WriteStateless(text, false);
      case BroadcastStatelessPayload(text) => message.WriteStateless(text, true);
      case SyncStatusReport(saved) => message.WriteSyncStatus(saved);
      case CloseNotice(reason) => message.WriteClose(reason);
    }
    bytes := message.encoder;
  }

  /** Reads a varUint at `start`; the cursor ends after it. */
  method ReadVarAt(data: Bytes, start: nat) returns (ok: bool, value: nat, pos: nat)
    requires start <= |data|
    ensures pos <= |data|
    ensures ReadVar(data[start..]) == if ok then Ok(value, data[pos..]) else Err
  {
    match ReadVar(data[start..]) {
      case Err => return false, 0, start;
      case Ok(v, rest) =>
        ReadingLeavesTheEnd(data[start..]);
        ok, value, pos := true, v, |data| - |rest|;
    }
  }

  /** `IncomingFrame::parse`, moving a cursor over the bytes. */
  method Parse(data: Bytes) returns (r: Option<Frame>)
    ensures r == ParseFrame(data)
  {
    assert data[0..] == data;
    var ok, n, pos := ReadVarAt(data, 0);
    if !ok || |data| - pos < n {
      return None;
    }
    var key := data[pos..pos + n];
    assert data[pos..][..n] == key && data[pos..][n..] == data[pos + n..];
    if !ValidUtf8(key) {
      return None;
    }
    var okType, raw, end := ReadVarAt(data, pos + n);
    if !okType {
      return None;
    }
    match FromU64(raw) {
      case None => return None;
      case Some(ty) => return Some(Frame(key, ty, data[end..]));
    }
  }
}
