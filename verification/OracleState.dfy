/** The guarded state of a booting and serving oracle enclave, its peer hints, and the control
    requests that change it. */
module OracleState {
  import opened Wrappers
  import opened Collections
  import opened Policy
  import opened Quorum

  datatype BootState = Fetching | WaitingRegistration | Ready

  datatype KeySource = Genesis | PeerSource

  const MAX_BOOT_PEERS: nat := 16

  /** Parses an endpoint to its canonical form; IP and host-name syntax is left abstract. */
  type Normalize = string -> Option<string>

  // ----- bounded peer lists -----

  /** One endpoint of the list: skipped when malformed, repeated, or past the bound. */
  function AddPeer(out: seq<string>, peer: string, normalize: Normalize): seq<string> {
    if |out| == MAX_BOOT_PEERS then out
    else
      match normalize(peer)
      case None => out
      case Some(p) => if p in out then out else out + [p]
  }

  function BoundedFrom(out: seq<string>, peers: seq<string>, normalize: Normalize): seq<string>
    decreases peers
  {
    if peers == [] then out else BoundedFrom(AddPeer(out, peers[0], normalize), peers[1..], normalize)
  }

  function Bounded(peers: seq<string>, normalize: Normalize): seq<string> {
    BoundedFrom([], peers, normalize)
  }

  method BoundedPeers(peers: seq<string>, normalize: Normalize) returns (out: seq<string>)
    ensures out == Bounded(peers, normalize)
  {
    out := [];
    for i := 0 to |peers|
      invariant |out| < MAX_BOOT_PEERS
      invariant BoundedFrom(out, peers[i..], normalize) == Bounded(peers, normalize)
    {
      assert peers[i..][1..] == peers[i + 1..];
      var p := normalize(peers[i]);
      if p.Some? && p.value !in out {
        out := out + [p.value];
        if |out| == MAX_BOOT_PEERS {
          FullStaysFull(out, peers[i + 1..], normalize);
          break;
        }
      }
    }
  }

  lemma {:induction false} FullStaysFull(out: seq<string>, peers: seq<string>, normalize: Normalize)
    requires |out| == MAX_BOOT_PEERS
    ensures BoundedFrom(out, peers, normalize) == out
  {
    if peers != [] {
      FullStaysFull(out, peers[1..], normalize);
    }
  }

  /** The list holds at most sixteen endpoints, all canonical, none twice. */
  lemma {:induction false} BoundedFacts(out: seq<string>, peers: seq<string>, normalize: Normalize)
    requires |out| <= MAX_BOOT_PEERS && Distinct(out)
    ensures out <= BoundedFrom(out, peers, normalize)
    ensures |BoundedFrom(out, peers, normalize)| <= MAX_BOOT_PEERS
    ensures Distinct(BoundedFrom(out, peers, normalize))
    ensures forall e | e in BoundedFrom(out, peers, normalize) ::
              e in out || exists p :: p in peers && normalize(p) == Some(e)
    decreases peers
  {
    if peers != [] {
      var next := AddPeer(out, peers[0], normalize);
      assert peers == [peers[0]] + peers[1..];
      BoundedFacts(next, peers[1..], normalize);
      forall e | e in BoundedFrom(out, peers, normalize) && e !in out
        ensures exists p :: p in peers && normalize(p) == Some(e)
      {
        if e in next {
          assert normalize(peers[0]) == Some(e);
        }
      }
    }
  }

  /** No endpoint is left out unless the list is full. */
  lemma {:induction false} BoundedIsComplete(out: seq<string>, peers: seq<string>, normalize: Normalize, peer: string)
    requires |out| <= MAX_BOOT_PEERS && Distinct(out)
    requires peer in peers && normalize(peer).Some? && |BoundedFrom(out, peers, normalize)| < MAX_BOOT_PEERS
    ensures normalize(peer).value in BoundedFrom(out, peers, normalize)
    decreases peers
  {
    var next := AddPeer(out, peers[0], normalize);
    BoundedFacts(next, peers[1..], normalize);
    if peer == peers[0] {
      assert normalize(peer).value in next;
    } else {
      BoundedIsComplete(next, peers[1..], normalize, peer);
    }
  }

  lemma {:induction false} BoundedConcat(out: seq<string>, first: seq<string>, second: seq<string>, normalize: Normalize)
    ensures BoundedFrom(out, first + second, normalize) ==
            BoundedFrom(BoundedFrom(out, first, normalize), second, normalize)
    decreases first
  {
    if first == [] {
      assert first + second == second;
    } else {
      assert (first + second)[1..] == first[1..] + second;
      BoundedConcat(AddPeer(out, first[0], normalize), first[1..], second, normalize);
    }
  }

  /** Host hints can neither displace nor reorder the baked peers. */
  lemma BakedPeersComeFirst(baked: seq<string>, hints: seq<string>, normalize: Normalize)
    ensures Bounded(baked, normalize) <= Bounded(baked + hints, normalize)
    ensures |Bounded(baked + hints, normalize)| <= MAX_BOOT_PEERS
  {
    BoundedConcat([], baked, hints, normalize);
    BoundedFacts([], baked, normalize);
    BoundedFacts(Bounded(baked, normalize), hints, normalize);
  }

  // ----- the guarded state -----

  /** The state as a value, for reasoning about interleavings. */
  datatype Snapshot = Snapshot(boot: BootState, source: KeySource, signer: Option<Address>, root: Option<Key>,
                               approvals: seq<Approval>, hints: seq<string>)

  const Initial: Snapshot := Snapshot(Fetching, Genesis, None, None, [], [])

  function Published(s: Snapshot, address: Address): Snapshot {
    s.(boot := WaitingRegistration, source := Genesis, signer := Some(address))
  }

  function InstalledKey(s: Snapshot, key: Key, address: Address, source: KeySource): Snapshot {
    s.(boot := Ready, source := source, signer := Some(address), root := Some(key))
  }

  function Approved(s: Snapshot, a: Approval): Snapshot {
    if a in s.approvals then s else s.(approvals := s.approvals + [a])
  }

  class OracleKeyexState {
    var boot: BootState
    var source: KeySource
    var signer: Option<Address>
    var root: Option<Key>
    var approvals: seq<Approval>
    var hints: seq<string>

    ghost function Value(): Snapshot
      reads this
    {
      Snapshot(boot, source, signer, root, approvals, hints)
    }

    constructor ()
      ensures Value() == Initial
    {
      boot, source, signer, root, approvals, hints := Fetching, Genesis, None, None, [], [];
    }

    method PublishCandidate(address: Address)
      modifies this
      ensures Value() == Published(old(Value()), address)
    {
      signer, source, boot := Some(address), Genesis, WaitingRegistration;
    }

    method InstallKey(key: Key, address: Address, from: KeySource)
      modifies this
      ensures Value() == InstalledKey(old(Value()), key, address, from)
    {
      root, signer, source, boot := Some(key), Some(address), from, Ready;
    }

    method AddApproval(a: Approval)
      modifies this
      ensures Value() == Approved(old(Value()), a)
    {
      if a !in approvals {
        approvals := approvals + [a];
      }
    }

    method SetPeerHints(peers: seq<string>, normalize: Normalize)
      modifies this`hints
      ensures hints == Bounded(peers, normalize)
    {
      hints := BoundedPeers(peers, normalize);
    }

    method PeerSnapshot(baked: seq<string>, normalize: Normalize) returns (peers: seq<string>)
      ensures peers == Bounded(baked + hints, normalize)
      ensures Bounded(baked, normalize) <= peers
    {
      BakedPeersComeFirst(baked, hints, normalize);
      peers := BoundedPeers(baked + hints, normalize);
    }
  }

  // ----- the control channel -----

  /** What an oracle image is built with. */
  datatype Baked = Baked(identity: Identity, owners: seq<Address>, threshold: nat, chainId: nat, registry: Address)

  /** An approval that names our own image must state our own version. */
  predicate VersionAgrees(req: Request, own: Identity) {
    req.approval.pcr0 == own.pcr0 ==> req.approval.version == own.version
  }

  /** The approval is recorded: chain, version, live quorum and expiry all agree. */
  ghost predicate Admissible(req: Request, sigs: seq<Signature>, recover: Recover, baked: Baked,
                             live: Option<(seq<Address>, nat)>, now: nat)
  {
    && live.Some? && req.chainId == baked.chainId && VersionAgrees(req, baked.identity)
    && LiveAccepted(req, sigs, recover, baked.owners, baked.threshold, live.value.0, live.value.1, now)
  }

  /** `approval_reply`: a failed live read is a refusal, never a fallback to the baked owners. */
  method ApprovalReply(st: OracleKeyexState, req: Request, sigs: seq<Signature>, recover: Recover, baked: Baked,
                       live: Option<(seq<Address>, nat)>, now: nat) returns (accepted: bool)
    modifies st
    ensures accepted == Admissible(req, sigs, recover, baked, live, now)
    ensures st.Value() == if accepted then Approved(old(st.Value()), req.approval) else old(st.Value())
  {
    if live.None? {
      return false;
    }
    var quorum := EffectiveQuorum(baked.owners, baked.threshold, live.value.0, live.value.1);
    if quorum.Err? {
      return false;
    }
    if req.chainId != baked.chainId || !VersionAgrees(req, baked.identity) {
      return false;
    }
    var error := VerifyApprovals(req, sigs, recover, quorum.value.0, quorum.value.1, now);
    if error.Some? {
      return false;
    }
    st.AddApproval(req.approval);
    accepted := true;
  }

  /** `configure`: the registry cannot be redirected; only peer hints are taken. */
  method Configure(st: OracleKeyexState, registry: Option<Address>, peers: seq<string>, normalize: Normalize,
                   baked: Baked) returns (ok: bool)
    modifies st
    ensures ok == (registry == Some(baked.registry))
    ensures st.Value() == if ok then old(st.Value()).(hints := Bounded(peers, normalize)) else old(st.Value())
  {
    if registry != Some(baked.registry) {
      return false;
    }
    st.SetPeerHints(peers, normalize);
    ok := true;
  }

  // ----- runs -----

  /** Everything that writes the state: control requests, with the live read and the time each one
      is answered at, and the two writes of the boot machine. */
  datatype Change =
    | Approve(req: Request, sigs: seq<Signature>, live: Option<(seq<Address>, nat)>, now: nat)
    | Configured(registry: Option<Address>, peers: seq<string>)
    | Publish(address: Address)
    | Install(key: Key, address: Address, from: KeySource)

  ghost function Changed(s: Snapshot, c: Change, recover: Recover, normalize: Normalize, baked: Baked): Snapshot {
    match c
    case Approve(req, sigs, live, now) =>
      if Admissible(req, sigs, recover, baked, live, now) then Approved(s, req.approval) else s
    case Configured(registry, peers) =>
      if registry == Some(baked.registry) then s.(hints := Bounded(peers, normalize)) else s
    case Publish(address) => Published(s, address)
    case Install(key, address, from) => InstalledKey(s, key, address, from)
  }

  ghost function After(changes: seq<Change>, recover: Recover, normalize: Normalize, baked: Baked): Snapshot {
    if changes == [] then Initial
    else Changed(After(changes[..|changes| - 1], recover, normalize, baked), changes[|changes| - 1], recover,
                 normalize, baked)
  }

  /** The change is a request that was granted for this approval. */
  ghost predicate Grants(c: Change, a: Approval, recover: Recover, baked: Baked) {
    c.Approve? && c.req.approval == a && Admissible(c.req, c.sigs, recover, baked, c.live, c.now)
  }

  /** Over every run the approvals held are exactly those of the granted requests, each held once;
      nothing else writes them and none is lost. */
  lemma {:induction false} ApprovalsAreTheGranted(changes: seq<Change>, recover: Recover, normalize: Normalize,
                                                  baked: Baked, a: Approval)
    ensures a in After(changes, recover, normalize, baked).approvals <==>
            exists i :: 0 <= i < |changes| && Grants(changes[i], a, recover, baked)
    ensures multiset(After(changes, recover, normalize, baked).approvals)[a] <= 1
  {
    if changes != [] {
      var n := |changes| - 1;
      var before := changes[..n];
      ApprovalsAreTheGranted(before, recover, normalize, baked, a);
      ChangeAddsGranted(After(before, recover, normalize, baked), changes[n], recover, normalize, baked, a);
      if i :| 0 <= i < |before| && Grants(before[i], a, recover, baked) {
        assert Grants(changes[i], a, recover, baked);
      }
      if i :| 0 <= i < |changes| && Grants(changes[i], a, recover, baked) {
        assert i < n ==> before[i] == changes[i];
      }
    }
  }

  lemma ChangeAddsGranted(s: Snapshot, c: Change, recover: Recover, normalize: Normalize, baked: Baked, a: Approval)
    ensures var t := Changed(s, c, recover, normalize, baked);
            && (a in t.approvals <==> a in s.approvals || Grants(c, a, recover, baked))
            && (multiset(s.approvals)[a] <= 1 ==> multiset(t.approvals)[a] <= 1)
  {
  }

  lemma AdmissibleIsBaked(req: Request, sigs: seq<Signature>, recover: Recover, baked: Baked,
                          live: Option<(seq<Address>, nat)>, now: nat)
    requires Admissible(req, sigs, recover, baked, live, now)
    ensures Accepted(req, sigs, recover, baked.owners, baked.threshold, now)
    ensures req.chainId == baked.chainId && VersionAgrees(req, baked.identity)
  {
    NarrowingRefines(req, sigs, recover, baked.owners, baked.threshold, live.value.0, live.value.1, now);
  }

  /** Every approval the state ever holds was asked for by a request of the run, on the baked chain,
      that met the baked quorum when it was answered, whatever the live read said; one for our own
      image states our own version. */
  lemma RecordedApprovalsAreBaked(changes: seq<Change>, recover: Recover, normalize: Normalize, baked: Baked,
                                  a: Approval) returns (i: nat)
    requires a in After(changes, recover, normalize, baked).approvals
    ensures i < |changes| && changes[i].Approve?
    ensures changes[i].req.approval == a && changes[i].req.chainId == baked.chainId
    ensures Accepted(changes[i].req, changes[i].sigs, recover, baked.owners, baked.threshold, changes[i].now)
    ensures a.pcr0 == baked.identity.pcr0 ==> a.version == baked.identity.version
  {
    ApprovalsAreTheGranted(changes, recover, normalize, baked, a);
    i :| 0 <= i < |changes| && Grants(changes[i], a, recover, baked);
    var c := changes[i];
    AdmissibleIsBaked(c.req, c.sigs, recover, baked, c.live, c.now);
  }
}
