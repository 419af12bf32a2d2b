/** Handover policy of the key exchange: to whom an enclave hands its key, and from whom a
    fetching enclave accepts one. */
module Policy {
  import opened Wrappers

  /** Image measurements, key labels and addresses, as opaque identifiers. */
  type Pcr0 = nat
  type Label = nat
  type Address = nat
  type Key = nat

  datatype EnclaveRole = Oracle | Bridge

  datatype ApprovalMode = Carry | Fresh | Child

  datatype Identity = Identity(pcr0: Pcr0, version: nat)

  datatype Approval = Approval(pcr0: Pcr0, version: nat, mode: ApprovalMode, child: Label, role: EnclaveRole,
                               expiry: nat, nonce: nat)

  datatype Refusal = PcrMismatchNoApproval | FreshNeverHandsOff | ChildRequestedByBridge | VersionNotNewer
    | CandidateKeyNoHandoff | RoleMismatch

  datatype Decision = OwnKey | ChildKey(child: Label) | Refuse(why: Refusal)

  // ----- server side -----

  /** The approval names this peer for this role. */
  predicate InScope(a: Approval, role: EnclaveRole, peer: Pcr0) {
    a.pcr0 == peer && a.role == role
  }

  /** The approval settles the decision: a carry to a strictly newer image, or a child. */
  predicate Decisive(a: Approval, own: Identity, role: EnclaveRole, peer: Pcr0) {
    InScope(a, role, peer) && (a.mode == Child || (a.mode == Carry && a.version > own.version))
  }

  /** The first decisive approval. */
  function FirstDecisive(approvals: seq<Approval>, own: Identity, role: EnclaveRole, peer: Pcr0): (r: Option<Approval>)
    ensures r.Some? ==> r.value in approvals && Decisive(r.value, own, role, peer)
    ensures r.None? ==> forall a | a in approvals :: !Decisive(a, own, role, peer)
  {
    if approvals == [] then None
    else if Decisive(approvals[0], own, role, peer) then Some(approvals[0])
    else FirstDecisive(approvals[1..], own, role, peer)
  }

  predicate SeenMode(approvals: seq<Approval>, role: EnclaveRole, peer: Pcr0, mode: ApprovalMode) {
    exists a :: a in approvals && InScope(a, role, peer) && a.mode == mode
  }

  predicate SeenOtherRole(approvals: seq<Approval>, role: EnclaveRole, peer: Pcr0) {
    exists a :: a in approvals && a.pcr0 == peer && a.role != role
  }

  /** Why nothing is handed over, most specific reason first. */
  function WhyRefused(approvals: seq<Approval>, role: EnclaveRole, peer: Pcr0): Refusal {
    if SeenMode(approvals, role, peer, Carry) then VersionNotNewer
    else if SeenOtherRole(approvals, role, peer) then RoleMismatch
    else if SeenMode(approvals, role, peer, Fresh) then FreshNeverHandsOff
    else PcrMismatchNoApproval
  }

  function Granted(a: Approval, role: EnclaveRole): Decision {
    if a.mode == Carry then OwnKey
    else if role == Oracle then ChildKey(a.child)
    else Refuse(ChildRequestedByBridge)
  }

  function Decide(own: Identity, role: EnclaveRole, peer: Pcr0, isCandidate: bool, approvals: seq<Approval>): Decision {
    if isCandidate then Refuse(CandidateKeyNoHandoff)
    else if peer == own.pcr0 then OwnKey
    else
      match FirstDecisive(approvals, own, role, peer)
      case Some(a) => Granted(a, role)
      case None => Refuse(WhyRefused(approvals, role, peer))
  }

  /** `decide_handover`: one pass over the approvals, remembering what was seen. */
  method DecideHandover(own: Identity, role: EnclaveRole, peer: Pcr0, isCandidate: bool, approvals: seq<Approval>)
    returns (d: Decision)
    ensures d == Decide(own, role, peer, isCandidate, approvals)
  {
    if isCandidate {
      return Refuse(CandidateKeyNoHandoff);
    }
    if peer == own.pcr0 {
      return OwnKey;
    }
    var sawCarryNotNewer, sawFresh, sawRoleMismatch := false, false, false;
    for i := 0 to |approvals|
      invariant FirstDecisive(approvals, own, role, peer) == FirstDecisive(approvals[i..], own, role, peer)
      invariant sawCarryNotNewer <==> SeenMode(approvals[..i], role, peer, Carry)
      invariant sawRoleMismatch <==> SeenOtherRole(approvals[..i], role, peer)
      invariant sawFresh <==> SeenMode(approvals[..i], role, peer, Fresh)
    {
      var a := approvals[i];
      assert approvals[i..][0] == a && approvals[i..][1..] == approvals[i + 1..];
      assert approvals[..i + 1] == approvals[..i] + [a];
      if a.pcr0 != peer {
        continue;
      }
      if a.role != role {
        sawRoleMismatch := true;
        continue;
      }
      match a.mode {
        case Carry =>
          if a.version > own.version {
            return OwnKey;
          }
          sawCarryNotNewer := true;
        case Child =>
          if role == Oracle {
            return ChildKey(a.child);
          }
          return Refuse(ChildRequestedByBridge);
        case Fresh =>
          sawFresh := true;
      }
    }
    assert approvals[..|approvals|] == approvals;
    if sawCarryNotNewer {
      return Refuse(VersionNotNewer);
    }
    if sawRoleMismatch {
      return Refuse(RoleMismatch);
    }
    if sawFresh {
      return Refuse(FreshNeverHandsOff);
    }
    d := Refuse(PcrMismatchNoApproval);
  }

  /** The key itself leaves for a different image only under a carry approval of that image,
      for this role, strictly above our version. */
  lemma OwnKeyNeedsNewerCarry(own: Identity, role: EnclaveRole, peer: Pcr0, isCandidate: bool, approvals: seq<Approval>)
    requires Decide(own, role, peer, isCandidate, approvals) == OwnKey && peer != own.pcr0
    ensures !isCandidate
    ensures exists a :: a in approvals && a.pcr0 == peer && a.role == role && a.mode == Carry && a.version > own.version
  {
    var a := FirstDecisive(approvals, own, role, peer).value;
    assert a in approvals && Decisive(a, own, role, peer);
  }

  /** Approval `i` is the first one that settles the decision. */
  ghost predicate SettledBy(approvals: seq<Approval>, i: nat, own: Identity, role: EnclaveRole, peer: Pcr0) {
    && i < |approvals| && Decisive(approvals[i], own, role, peer)
    && forall j | 0 <= j < i :: !Decisive(approvals[j], own, role, peer)
  }

  lemma {:induction false} FirstDecisiveSettles(approvals: seq<Approval>, own: Identity, role: EnclaveRole, peer: Pcr0,
                                                a: Approval)
    ensures FirstDecisive(approvals, own, role, peer) == Some(a) <==>
            exists i: nat :: SettledBy(approvals, i, own, role, peer) && approvals[i] == a
  {
    if approvals != [] {
      var rest := approvals[1..];
      if Decisive(approvals[0], own, role, peer) {
        assert SettledBy(approvals, 0, own, role, peer);
      } else {
        FirstDecisiveSettles(rest, own, role, peer, a);
        if i: nat :| SettledBy(rest, i, own, role, peer) && rest[i] == a {
          assert SettledBy(approvals, i + 1, own, role, peer);
        }
        if i: nat :| SettledBy(approvals, i, own, role, peer) && approvals[i] == a {
          assert SettledBy(rest, i - 1, own, role, peer);
        }
      }
    }
  }

  /** A registered key is handed over itself exactly to the same image or under a newer carry that
      no child approval precedes, and a child exactly under a child approval that no newer
      carry precedes. */
  lemma HandsOverExactly(own: Identity, role: EnclaveRole, peer: Pcr0, isCandidate: bool, approvals: seq<Approval>,
                         child: Label)
    ensures Decide(own, role, peer, isCandidate, approvals) == OwnKey <==>
            !isCandidate && (peer == own.pcr0
                             || exists i: nat :: SettledBy(approvals, i, own, role, peer) && approvals[i].mode == Carry)
    ensures Decide(own, role, peer, isCandidate, approvals) == ChildKey(child) <==>
            !isCandidate && peer != own.pcr0 && role == Oracle
            && exists i: nat :: SettledBy(approvals, i, own, role, peer) && approvals[i].mode == Child && approvals[i].child == child
  {
    var first := FirstDecisive(approvals, own, role, peer);
    if first.Some? {
      FirstDecisiveSettles(approvals, own, role, peer, first.value);
    }
    if i: nat :| SettledBy(approvals, i, own, role, peer) {
      FirstDecisiveSettles(approvals, own, role, peer, approvals[i]);
    }
  }

  /** A bridge derives nothing, and a child is derived only under a child approval. */
  lemma ChildNeedsApproval(own: Identity, role: EnclaveRole, peer: Pcr0, isCandidate: bool, approvals: seq<Approval>)
    requires Decide(own, role, peer, isCandidate, approvals).ChildKey?
    ensures role == Oracle && !isCandidate && peer != own.pcr0
    ensures exists a :: a in approvals && a.pcr0 == peer && a.role == Oracle && a.mode == Child
                        && a.child == Decide(own, role, peer, isCandidate, approvals).child
  {
    var a := FirstDecisive(approvals, own, role, peer).value;
    assert a in approvals && Decisive(a, own, role, peer);
  }

  /** Approvals are only ever appended; what they grant stays granted. */
  lemma {:induction false} FirstDecisiveExtends(approvals: seq<Approval>, more: seq<Approval>, own: Identity,
                                                role: EnclaveRole, peer: Pcr0)
    requires FirstDecisive(approvals, own, role, peer).Some?
    ensures FirstDecisive(approvals + more, own, role, peer) == FirstDecisive(approvals, own, role, peer)
  {
    assert (approvals + more)[1..] == approvals[1..] + more;
    if !Decisive(approvals[0], own, role, peer) {
      FirstDecisiveExtends(approvals[1..], more, own, role, peer);
    }
  }

  lemma GrantIsMonotone(own: Identity, role: EnclaveRole, peer: Pcr0, approvals: seq<Approval>, more: seq<Approval>)
    requires !Decide(own, role, peer, false, approvals).Refuse?
    ensures Decide(own, role, peer, false, approvals + more) == Decide(own, role, peer, false, approvals)
  {
    if peer != own.pcr0 {
      FirstDecisiveExtends(approvals, more, own, role, peer);
    }
  }

  // ----- client side -----

  datatype FetchKind = RootFromRoot | BridgeFromBridge | BridgeFromParent

  datatype ClientRefusal = ServerPcrNotSelfOrAncestor | ServerPcrNotSelf | ServerPcrNotParentOracle

  function ClientCheck(kind: FetchKind, own: Pcr0, server: Pcr0, ancestors: seq<Pcr0>): Option<ClientRefusal> {
    match kind
    case RootFromRoot => if server == own || server in ancestors then None else Some(ServerPcrNotSelfOrAncestor)
    case BridgeFromBridge => if server == own then None else Some(ServerPcrNotSelf)
    case BridgeFromParent => if server in ancestors then None else Some(ServerPcrNotParentOracle)
  }

  predicate ClientAccepts(kind: FetchKind, own: Pcr0, server: Pcr0, ancestors: seq<Pcr0>) {
    ClientCheck(kind, own, server, ancestors).None?
  }
}
