/** The post-handshake key exchange over one TLS session: both sides exchange nonces and
    attestation documents, the server decides whether to hand its key over, and the client
    decides whether to install what arrives. Bytes may be lost from any point on and any write
    may report a failure. Attestation, verification and key derivation are parameters. */
module Ratls {
  import opened Wrappers
  import opened Policy
  import opened Numerals

  type Key32 = k: Bytes | |k| == 32 witness seq(32, i => 0)

  const MAX_FRAME: nat := 65536
  const NONCE_LEN: nat := 32
  const LENGTH_END: nat := 0x1_0000_0000

  // ----- framing -----

  function Frame(payload: Bytes): Bytes
    requires |payload| < LENGTH_END
  {
    BigEndian(|payload|, 4) + payload
  }

  /** One frame off the front of the stream, with what follows it. */
  function Take(stream: Bytes): Option<(Bytes, Bytes)> {
    if |stream| < 4 then None
    else
      var n := Unsigned(stream[..4]);
      if n > MAX_FRAME || |stream| < 4 + n then None
      else Some((stream[4..4 + n], stream[4 + n..]))
  }

  lemma LengthRoundTrip(n: nat)
    requires n < LENGTH_END
    ensures Unsigned(BigEndian(n, 4)) == n
  {
    assert Pow(256, 4) == LENGTH_END by {
      assert Pow(256, 1) == 256;
      assert Pow(256, 2) == 65536;
    }
    UnsignedOfBigEndian(n, 4);
  }

  ghost predicate Sendable(frames: seq<Bytes>) {
    forall i | 0 <= i < |frames| :: |frames[i]| < LENGTH_END
  }

  /** The byte stream of a list of frames. */
  ghost function Wire(frames: seq<Bytes>): Bytes
    requires Sendable(frames)
  {
    if frames == [] then [] else Frame(frames[0]) + Wire(frames[1..])
  }

  /** A frame read from any prefix of a wire is the first frame of that wire, and what is left
      is a prefix of the rest. */
  lemma TakeFromPrefix(stream: Bytes, frames: seq<Bytes>)
    requires Sendable(frames) && stream <= Wire(frames)
    requires Take(stream).Some?
    ensures frames != []
    ensures Take(stream).value.0 == frames[0]
    ensures Take(stream).value.1 <= Wire(frames[1..])
  {
    PrefixOfFrame(stream, BigEndian(|frames[0]|, 4), frames[0], Wire(frames[1..]));
    LengthRoundTrip(|frames[0]|);
  }

  lemma PrefixOfFrame(stream: Bytes, length: Bytes, payload: Bytes, rest: Bytes)
    requires |length| == 4 && 4 <= |stream| && stream <= length + payload + rest
    ensures stream[..4] == length
    ensures 4 + |payload| <= |stream| ==> stream[4..4 + |payload|] == payload && stream[4 + |payload|..] <= rest
  {
    var whole := length + payload + rest;
    assert whole[..4] == length;
    if 4 + |payload| <= |stream| {
      assert whole[4..4 + |payload|] == payload && whole[4 + |payload|..] == rest;
    }
  }

  // ----- seams -----

  datatype VerifiedPeer = VerifiedPeer(pcr0: Pcr0, nonce: Option<Bytes>, publicKey: Bytes)

  /** One end's view of the session: its nonce, both TLS points, and its attestation seams. */
  datatype End = End(nonce: Bytes, point: Bytes, peerPoint: Bytes,
                     attest: (Bytes, Bytes) -> Option<Bytes>,
                     verify: (Bytes, Bytes) -> Option<VerifiedPeer>)

  datatype ExchangeRefusal = AttestationInvalid | NonceMismatch | KeyMismatch | PolicyRefused(why: Refusal)
    | ServerDeclined | ClientRejected(reason: ClientRefusal) | Protocol

  /** Verify and bind a peer document to this channel. */
  function EvaluatePeer(end: End, doc: Bytes): Result<VerifiedPeer, ExchangeRefusal> {
    match end.verify(doc, end.nonce)
    case None => Err(AttestationInvalid)
    case Some(v) =>
      if v.nonce != Some(end.nonce) then Err(NonceMismatch)
      else if v.publicKey == [] || end.peerPoint == [] || v.publicKey != end.peerPoint then Err(KeyMismatch)
      else Ok(v)
  }

  /** A secret held in memory until wiped. */
  class Secret {
    var bytes: Bytes

    constructor (key: Key32)
      ensures bytes == key
    {
      bytes := key;
    }

    predicate Wiped()
      reads this
    {
      forall i | 0 <= i < |bytes| :: bytes[i] == 0
    }

    method Zeroize()
      modifies this
      ensures Wiped() && |bytes| == old(|bytes|)
    {
      bytes := seq(|bytes|, i => 0);
    }
  }

  /** The stream of one end: bytes still to read, frames written, and which writes report success. */
  class Stream {
    var incoming: Bytes
    var sent: seq<Bytes>
    const writeOk: nat -> bool

    constructor (incoming: Bytes, writeOk: nat -> bool)
      ensures this.incoming == incoming && sent == [] && this.writeOk == writeOk
    {
      this.incoming := incoming;
      sent := [];
      this.writeOk := writeOk;
    }

    method WriteFrame(payload: Bytes) returns (ok: bool)
      modifies this`sent
      ensures |payload| >= LENGTH_END ==> !ok && sent == old(sent)
      ensures |payload| < LENGTH_END ==> sent == old(sent) + [payload] && ok == writeOk(|old(sent)|)
    {
      if |payload| >= LENGTH_END {
        return false;
      }
      ok := writeOk(|sent|);
      sent := sent + [payload];
    }

    method ReadFrame() returns (r: Option<Bytes>)
      modifies this`incoming
      ensures match Take(old(incoming))
              case None => r == None
              case Some((payload, rest)) => r == Some(payload) && incoming == rest
    {
      var taken := Take(incoming);
      if taken.None? {
        return None;
      }
      incoming := taken.value.1;
      r := Some(taken.value.0);
    }
  }

  // ----- nonces and documents -----

  /** Frames written by the opening, and, when it went through, the peer's document and the
      bytes still unread. */
  datatype Opening = Opening(sent: seq<Bytes>, result: Option<(Bytes, Bytes)>)

  function Open(end: End, incoming: Bytes, writeOk: nat -> bool): (o: Opening)
    ensures |o.sent| <= 2
    ensures Sendable(o.sent)
    ensures o.result.Some? ==> |o.sent| == 2
  {
    if |end.nonce| >= LENGTH_END then Opening([], None)
    else if !writeOk(0) then Opening([end.nonce], None)
    else
      match Take(incoming)
      case None => Opening([end.nonce], None)
      case Some((peerNonce, rest)) =>
        if |peerNonce| != NONCE_LEN then Opening([end.nonce], None)
        else
          match end.attest(peerNonce, end.point)
          case None => Opening([end.nonce], None)
          case Some(doc) =>
            if |doc| >= LENGTH_END then Opening([end.nonce], None)
            else if !writeOk(1) then Opening([end.nonce, doc], None)
            else
              match Take(rest)
              case None => Opening([end.nonce, doc], None)
              case Some((peerDoc, rest')) => Opening([end.nonce, doc], Some((peerDoc, rest')))
  }

  method NonceAndDocExchange(end: End, stream: Stream) returns (doc: Option<Bytes>)
    requires stream.sent == []
    modifies stream
    ensures stream.sent == Open(end, old(stream.incoming), stream.writeOk).sent
    ensures match Open(end, old(stream.incoming), stream.writeOk).result
            case None => doc == None
            case Some((peerDoc, rest)) => doc == Some(peerDoc) && stream.incoming == rest
  {
    var ok := stream.WriteFrame(end.nonce);
    if !ok {
      return None;
    }
    var peerNonce := stream.ReadFrame();
    if peerNonce.None? || |peerNonce.value| != NONCE_LEN {
      return None;
    }
    var mine := end.attest(peerNonce.value, end.point);
    if mine.None? {
      return None;
    }
    ok := stream.WriteFrame(mine.value);
    if !ok {
      return None;
    }
    doc := stream.ReadFrame();
  }

  // ----- server -----

  const DECLINE: Bytes := [0]

  datatype ServerInputs = ServerInputs(own: Identity, role: EnclaveRole, isCandidate: bool, approvals: seq<Approval>,
                                       derive: (Key32, Label) -> Key32)

  datatype ServerOutcome = HandedOwnKey | HandedChild | ServerRefused(why: ExchangeRefusal) | ServerIoError

  /** What a server run wrote, the key it granted if any, and its outcome. */
  datatype ServerRun = ServerRun(sent: seq<Bytes>, granted: Option<Key32>, outcome: ServerOutcome)

  function GrantFrame(key: Key32): Bytes {
    [1] + key
  }

  function Declining(sent: seq<Bytes>, why: ExchangeRefusal): ServerRun {
    ServerRun(sent + [DECLINE], None, ServerRefused(why))
  }

  function Granting(sent: seq<Bytes>, key: Key32, writeOk: nat -> bool, outcome: ServerOutcome): ServerRun {
    ServerRun(sent + [GrantFrame(key)], Some(key), if writeOk(|sent|) then outcome else ServerIoError)
  }

  function Serve(end: End, inputs: ServerInputs, key: Key32, incoming: Bytes, writeOk: nat -> bool): ServerRun {
    var opening := Open(end, incoming, writeOk);
    match opening.result
    case None => Declining(opening.sent, Protocol)
    case Some((doc, _)) =>
      match EvaluatePeer(end, doc)
      case Err(why) => Declining(opening.sent, why)
      case Ok(peer) =>
        match Decide(inputs.own, inputs.role, peer.pcr0, inputs.isCandidate, inputs.approvals)
        case OwnKey => Granting(opening.sent, key, writeOk, HandedOwnKey)
        case ChildKey(child) => Granting(opening.sent, inputs.derive(key, child), writeOk, HandedChild)
        case Refuse(why) => Declining(opening.sent, PolicyRefused(why))
  }

  /** `server_exchange`. The key copy is wiped on every path out. */
  method ServerExchange(end: End, inputs: ServerInputs, ownKey: Secret, stream: Stream) returns (outcome: ServerOutcome)
    requires stream.sent == [] && |ownKey.bytes| == 32
    modifies stream, ownKey
    ensures ownKey.Wiped()
    ensures var run := Serve(end, inputs, old(ownKey.bytes), old(stream.incoming), stream.writeOk);
            outcome == run.outcome && stream.sent == run.sent
  {
    var doc := NonceAndDocExchange(end, stream);
    var declined: bool;
    if doc.None? {
      ownKey.Zeroize();
      declined := stream.WriteFrame(DECLINE);
      return ServerRefused(Protocol);
    }
    var peer := EvaluatePeer(end, doc.value);
    if peer.Err? {
      declined := stream.WriteFrame(DECLINE);
      ownKey.Zeroize();
      return ServerRefused(peer.error);
    }
    var decision := DecideHandover(inputs.own, inputs.role, peer.value.pcr0, inputs.isCandidate, inputs.approvals);
    match decision {
      case OwnKey =>
        var frame := GrantFrame(ownKey.bytes);
        ownKey.Zeroize();
        var ok := stream.WriteFrame(frame);
        outcome := if ok then HandedOwnKey else ServerIoError;
      case ChildKey(child) =>
        var frame := GrantFrame(inputs.derive(ownKey.bytes, child));
        ownKey.Zeroize();
        var ok := stream.WriteFrame(frame);
        outcome := if ok then HandedChild else ServerIoError;
      case Refuse(why) =>
        declined := stream.WriteFrame(DECLINE);
        ownKey.Zeroize();
        outcome := ServerRefused(PolicyRefused(why));
    }
  }

  // ----- client -----

  datatype ClientInputs = ClientInputs(kind: FetchKind, own: Pcr0, ancestors: seq<Pcr0>)

  datatype ClientOutcome = Installed(key: Key32) | ClientRefused(why: ExchangeRefusal) | ClientIoError

  datatype ClientRun = ClientRun(sent: seq<Bytes>, outcome: ClientOutcome)

  function OnGrant(frame: Bytes, check: Option<ClientRefusal>): ClientOutcome {
    if frame != [] && frame[0] == 1 && |frame| == 33 then
      match check
      case Some(why) => ClientRefused(ClientRejected(why))
      case None => Installed(frame[1..])
    else ClientRefused(ServerDeclined)
  }

  function Fetch(end: End, inputs: ClientInputs, incoming: Bytes, writeOk: nat -> bool): ClientRun {
    var opening := Open(end, incoming, writeOk);
    match opening.result
    case None => ClientRun(opening.sent, ClientIoError)
    case Some((doc, rest)) =>
      match EvaluatePeer(end, doc)
      case Err(why) => ClientRun(opening.sent, ClientRefused(why))
      case Ok(peer) =>
        match Take(rest)
        case None => ClientRun(opening.sent, ClientIoError)
        case Some((frame, _)) =>
          ClientRun(opening.sent, OnGrant(frame, ClientCheck(inputs.kind, inputs.own, peer.pcr0, inputs.ancestors)))
  }

  /** `client_exchange`. */
  method ClientExchange(end: End, inputs: ClientInputs, stream: Stream) returns (outcome: ClientOutcome)
    requires stream.sent == []
    modifies stream
    ensures var run := Fetch(end, inputs, old(stream.incoming), stream.writeOk);
            outcome == run.outcome && stream.sent == run.sent
  {
    var doc := NonceAndDocExchange(end, stream);
    if doc.None? {
      return ClientIoError;
    }
    var peer := EvaluatePeer(end, doc.value);
    if peer.Err? {
      var drained := stream.ReadFrame();
      return ClientRefused(peer.error);
    }
    var check := ClientCheck(inputs.kind, inputs.own, peer.value.pcr0, inputs.ancestors);
    var frame := stream.ReadFrame();
    outcome := if frame.None? then ClientIoError else OnGrant(frame.value, check);
  }

  // ----- what a run of the server says -----

  /** The peer document the server read passes every check, and policy grants `key`. */
  ghost predicate Entitled(end: End, inputs: ServerInputs, ownKey: Key32, doc: Bytes, key: Key32) {
    var v := end.verify(doc, end.nonce);
    && v.Some? && v.value.nonce == Some(end.nonce)
    && v.value.publicKey == end.peerPoint && end.peerPoint != []
    && match Decide(inputs.own, inputs.role, v.value.pcr0, inputs.isCandidate, inputs.approvals)
       case OwnKey => key == ownKey
       case ChildKey(child) => key == inputs.derive(ownKey, child)
       case Refuse(_) => false
  }

  /** A grant is written only after attestation, nonce, TLS point and policy all passed. */
  lemma GrantNeedsEveryCheck(end: End, inputs: ServerInputs, ownKey: Key32, incoming: Bytes, writeOk: nat -> bool)
    requires Serve(end, inputs, ownKey, incoming, writeOk).granted.Some?
    ensures var opening := Open(end, incoming, writeOk);
            && opening.result.Some?
            && Entitled(end, inputs, ownKey, opening.result.value.0, Serve(end, inputs, ownKey, incoming, writeOk).granted.value)
  {
  }

  /** A refusal never wrote a grant; a reported handover always did. */
  lemma OutcomeMatchesGrant(end: End, inputs: ServerInputs, ownKey: Key32, incoming: Bytes, writeOk: nat -> bool)
    ensures var run := Serve(end, inputs, ownKey, incoming, writeOk);
            && (run.outcome.ServerRefused? <==> run.granted.None?)
            && (run.outcome == HandedOwnKey ==> run.granted == Some(ownKey))
            && (run.granted.Some? <==> exists k :: run.sent[|run.sent| - 1] == GrantFrame(k))
  {
  }

  // ----- a paired run -----

  /** What one end reads is a prefix of what the other wrote. */
  ghost predicate Delivered(sent: seq<Bytes>, incoming: Bytes) {
    Sendable(sent) && incoming <= Wire(sent)
  }

  /** An opening that went through read the peer's first two frames, and its own document
      answers the first of them. */
  lemma OpenReadsPeer(end: End, incoming: Bytes, writeOk: nat -> bool, frames: seq<Bytes>)
    requires Delivered(frames, incoming)
    requires Open(end, incoming, writeOk).result.Some?
    ensures |frames| >= 2
    ensures Open(end, incoming, writeOk).result.value.0 == frames[1]
    ensures end.attest(frames[0], end.point) == Some(Open(end, incoming, writeOk).sent[1])
    ensures Delivered(frames[2..], Open(end, incoming, writeOk).result.value.1)
  {
    TakeFromPrefix(incoming, frames);
    TakeFromPrefix(Take(incoming).value.1, frames[1..]);
    assert frames[1..][1..] == frames[2..];
  }

  lemma InstalledReadGrant(end: End, inputs: ClientInputs, incoming: Bytes, writeOk: nat -> bool, frames: seq<Bytes>)
    requires Delivered(frames, incoming)
    requires Fetch(end, inputs, incoming, writeOk).outcome.Installed?
    ensures |frames| >= 3
    ensures frames[2] == GrantFrame(Fetch(end, inputs, incoming, writeOk).outcome.key)
    ensures EvaluatePeer(end, frames[1]).Ok?
    ensures ClientAccepts(inputs.kind, inputs.own, EvaluatePeer(end, frames[1]).value.pcr0, inputs.ancestors)
  {
    OpenReadsPeer(end, incoming, writeOk, frames);
    var rest := Open(end, incoming, writeOk).result.value.1;
    TakeFromPrefix(rest, frames[2..]);
    var peer := EvaluatePeer(end, frames[1]).value;
    InstalledFromGrant(frames[2], ClientCheck(inputs.kind, inputs.own, peer.pcr0, inputs.ancestors));
  }

  lemma InstalledFromGrant(frame: Bytes, check: Option<ClientRefusal>)
    requires OnGrant(frame, check).Installed?
    ensures check.None? && frame == GrantFrame(OnGrant(frame, check).key)
  {
    assert frame == [1] + frame[1..];
  }

  lemma ThirdFrameIsGrant(run: ServerRun, end: End, inputs: ServerInputs, ownKey: Key32, incoming: Bytes,
                          writeOk: nat -> bool, key: Key32)
    requires run == Serve(end, inputs, ownKey, incoming, writeOk)
    requires |run.sent| >= 3 && run.sent[2] == GrantFrame(key)
    ensures run.granted == Some(key)
    ensures run.outcome in {HandedOwnKey, HandedChild} <==> writeOk(2)
  {
    assert DECLINE[0] != GrantFrame(key)[0];
    if run.granted.Some? {
      assert GrantFrame(run.granted.value)[1..] == run.granted.value && GrantFrame(key)[1..] == key;
    }
  }

  /** Both ends of one session, each with what reached it and which of its writes reported success. */
  datatype Session = Session(server: End, serverInputs: ServerInputs, ownKey: Key32, toServer: Bytes,
                             serverWriteOk: nat -> bool,
                             client: End, clientInputs: ClientInputs, toClient: Bytes, clientWriteOk: nat -> bool)
  {
    function ServerRun(): ServerRun {
      Serve(server, serverInputs, ownKey, toServer, serverWriteOk)
    }

    function ClientRun(): ClientRun {
      Fetch(client, clientInputs, toClient, clientWriteOk)
    }

    /** Each end reads a prefix of what the other wrote. */
    ghost predicate Paired() {
      Delivered(ServerRun().sent, toClient) && Delivered(ClientRun().sent, toServer)
    }
  }

  /** Over every paired run, with any loss and any write faults: the client installs a key only
      if the server granted exactly that key; the document the server judged is the client's
      own attestation over the server's nonce, and the other way round; and both judgements
      passed. The server reports the handover exactly when its last write reported success. */
  lemma InstalledKeyWasGranted(s: Session)
    requires s.Paired() && s.ClientRun().outcome.Installed?
    ensures s.ServerRun().granted == Some(s.ClientRun().outcome.key)
    ensures s.ServerRun().outcome in {HandedOwnKey, HandedChild} <==> s.serverWriteOk(2)
    ensures var doc := s.client.attest(s.server.nonce, s.client.point);
            doc.Some? && Entitled(s.server, s.serverInputs, s.ownKey, doc.value, s.ClientRun().outcome.key)
    ensures var doc := s.server.attest(s.client.nonce, s.server.point);
            && doc.Some? && EvaluatePeer(s.client, doc.value).Ok?
            && ClientAccepts(s.clientInputs.kind, s.clientInputs.own, EvaluatePeer(s.client, doc.value).value.pcr0,
                             s.clientInputs.ancestors)
  {
    var server, client := s.ServerRun(), s.ClientRun();
    InstalledReadGrant(s.client, s.clientInputs, s.toClient, s.clientWriteOk, server.sent);
    ThirdFrameIsGrant(server, s.server, s.serverInputs, s.ownKey, s.toServer, s.serverWriteOk, client.outcome.key);
    GrantNeedsEveryCheck(s.server, s.serverInputs, s.ownKey, s.toServer, s.serverWriteOk);
    OpenReadsPeer(s.server, s.toServer, s.serverWriteOk, client.sent);
    OpenReadsPeer(s.client, s.toClient, s.clientWriteOk, server.sent);
    assert client.sent[0] == s.client.nonce && server.sent[0] == s.server.nonce;
  }

  /** So a session in which the server refused, for whatever reason, installs nothing. */
  lemma RefusalInstallsNothing(s: Session)
    requires s.Paired() && s.ServerRun().outcome.ServerRefused?
    ensures !s.ClientRun().outcome.Installed?
  {
    if s.ClientRun().outcome.Installed? {
      InstalledKeyWasGranted(s);
      OutcomeMatchesGrant(s.server, s.serverInputs, s.ownKey, s.toServer, s.serverWriteOk);
    }
  }

  // ----- and an undisturbed session goes through -----

  lemma TakeOfWire(frames: seq<Bytes>)
    requires Sendable(frames) && frames != [] && |frames[0]| <= MAX_FRAME
    ensures Take(Wire(frames)) == Some((frames[0], Wire(frames[1..])))
  {
    var n := |frames[0]|;
    assert Wire(frames)[..4] == BigEndian(n, 4);
    LengthRoundTrip(n);
    assert Wire(frames)[4..4 + n] == frames[0];
    assert Wire(frames)[4 + n..] == Wire(frames[1..]);
  }

  lemma OpenGoesThrough(end: End, peer: seq<Bytes>, writeOk: nat -> bool, doc: Bytes)
    requires Sendable(peer) && |peer| >= 2 && |peer[0]| == NONCE_LEN && |peer[1]| <= MAX_FRAME
    requires writeOk(0) && writeOk(1)
    requires |end.nonce| == NONCE_LEN && |doc| < LENGTH_END && end.attest(peer[0], end.point) == Some(doc)
    ensures Open(end, Wire(peer), writeOk) == Opening([end.nonce, doc], Some((peer[1], Wire(peer[2..]))))
  {
    TakeOfWire(peer);
    TakeOfWire(peer[1..]);
    assert peer[1..][1..] == peer[2..];
  }

  /** Nothing lost, no fault in the opening, both documents accepted and policy granting: the client
      installs the granted key. The server reports the handover when its last write reports
      success, and an error otherwise, although the grant was delivered all the same. */
  lemma UndisturbedSessionInstalls(s: Session, clientDoc: Bytes, serverDoc: Bytes, key: Key32)
    requires |s.server.nonce| == NONCE_LEN && |s.client.nonce| == NONCE_LEN
    requires s.serverWriteOk(0) && s.serverWriteOk(1) && s.clientWriteOk(0) && s.clientWriteOk(1)
    requires |clientDoc| <= MAX_FRAME && |serverDoc| <= MAX_FRAME
    requires s.client.attest(s.server.nonce, s.client.point) == Some(clientDoc)
    requires s.server.attest(s.client.nonce, s.server.point) == Some(serverDoc)
    requires Entitled(s.server, s.serverInputs, s.ownKey, clientDoc, key)
    requires EvaluatePeer(s.client, serverDoc).Ok?
    requires ClientAccepts(s.clientInputs.kind, s.clientInputs.own, EvaluatePeer(s.client, serverDoc).value.pcr0,
                           s.clientInputs.ancestors)
    requires s.toServer == Wire([s.client.nonce, clientDoc])
    requires s.toClient == Wire([s.server.nonce, serverDoc, GrantFrame(key)])
    ensures s.Paired() && s.ClientRun().outcome == Installed(key)
    ensures if s.serverWriteOk(2) then s.ServerRun().outcome in {HandedOwnKey, HandedChild}
            else s.ServerRun().outcome == ServerIoError
  {
    ServerGrants(s, clientDoc, serverDoc, key);
    ClientInstalls(s, clientDoc, serverDoc, key);
  }

  lemma ServerGrants(s: Session, clientDoc: Bytes, serverDoc: Bytes, key: Key32)
    requires |s.server.nonce| == NONCE_LEN && |s.client.nonce| == NONCE_LEN
    requires s.serverWriteOk(0) && s.serverWriteOk(1)
    requires |clientDoc| <= MAX_FRAME && |serverDoc| <= MAX_FRAME
    requires s.server.attest(s.client.nonce, s.server.point) == Some(serverDoc)
    requires Entitled(s.server, s.serverInputs, s.ownKey, clientDoc, key)
    requires s.toServer == Wire([s.client.nonce, clientDoc])
    ensures s.ServerRun().sent == [s.server.nonce, serverDoc, GrantFrame(key)]
    ensures if s.serverWriteOk(2) then s.ServerRun().outcome in {HandedOwnKey, HandedChild}
            else s.ServerRun().outcome == ServerIoError
  {
    OpenGoesThrough(s.server, [s.client.nonce, clientDoc], s.serverWriteOk, serverDoc);
    assert [s.server.nonce, serverDoc] + [GrantFrame(key)] == [s.server.nonce, serverDoc, GrantFrame(key)];
  }

  lemma ClientInstalls(s: Session, clientDoc: Bytes, serverDoc: Bytes, key: Key32)
    requires |s.server.nonce| == NONCE_LEN && |s.client.nonce| == NONCE_LEN
    requires s.clientWriteOk(0) && s.clientWriteOk(1)
    requires |clientDoc| <= MAX_FRAME && |serverDoc| <= MAX_FRAME
    requires s.client.attest(s.server.nonce, s.client.point) == Some(clientDoc)
    requires EvaluatePeer(s.client, serverDoc).Ok?
    requires ClientAccepts(s.clientInputs.kind, s.clientInputs.own, EvaluatePeer(s.client, serverDoc).value.pcr0,
                           s.clientInputs.ancestors)
    requires s.toClient == Wire([s.server.nonce, serverDoc, GrantFrame(key)])
    ensures s.ClientRun().sent == [s.client.nonce, clientDoc] && s.ClientRun().outcome == Installed(key)
  {
    var frames := [s.server.nonce, serverDoc, GrantFrame(key)];
    OpenGoesThrough(s.client, frames, s.clientWriteOk, clientDoc);
    assert frames[2..] == [GrantFrame(key)];
    TakeOfWire(frames[2..]);
    assert GrantFrame(key)[1..] == key;
  }
}
