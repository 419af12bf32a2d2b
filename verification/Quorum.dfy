/** Owner-quorum approval: the baked owner ceiling narrowed by the multisig's live state, and
    the count of distinct owners behind a set of signatures. Signature recovery over the
    request's digest is a parameter. */
module Quorum {
  import opened Wrappers
  import opened Collections
  import opened Policy

  type Signature = nat

  datatype Request = Request(approval: Approval, chainId: nat)

  type Recover = (Request, Signature) -> Option<Address>

  // ----- narrowing the quorum -----

  ghost function Common(baked: seq<Address>, live: seq<Address>): set<Address> {
    set a | a in baked && a in live
  }

  datatype QuorumError = BakedThresholdZero | LiveThresholdZero | NoOwnerLeft | Unsatisfiable

  function Max(x: nat, y: nat): nat {
    if x < y then y else x
  }

  /** The narrowed owners, in baked order and without repetition. */
  function CommonOwners(baked: seq<Address>, live: seq<Address>): (owners: seq<Address>) {
    if baked == [] then []
    else
      var front := CommonOwners(baked[..|baked| - 1], live);
      var o := baked[|baked| - 1];
      if o in live && o !in front then front + [o] else front
  }

  function Effective(baked: seq<Address>, bakedThreshold: nat, live: seq<Address>, liveThreshold: nat)
    : Result<(seq<Address>, nat), QuorumError>
  {
    var owners := CommonOwners(baked, live);
    var threshold := Max(bakedThreshold, liveThreshold);
    if bakedThreshold == 0 then Err(BakedThresholdZero)
    else if liveThreshold == 0 then Err(LiveThresholdZero)
    else if owners == [] then Err(NoOwnerLeft)
    else if |owners| < threshold then Err(Unsatisfiable)
    else Ok((owners, threshold))
  }

  method EffectiveQuorum(baked: seq<Address>, bakedThreshold: nat, live: seq<Address>, liveThreshold: nat)
    returns (r: Result<(seq<Address>, nat), QuorumError>)
    ensures r == Effective(baked, bakedThreshold, live, liveThreshold)
  {
    if bakedThreshold == 0 {
      return Err(BakedThresholdZero);
    }
    if liveThreshold == 0 {
      return Err(LiveThresholdZero);
    }
    var owners := [];
    for i := 0 to |baked|
      invariant owners == CommonOwners(baked[..i], live)
    {
      assert baked[..i + 1][..i] == baked[..i];
      if baked[i] in live && baked[i] !in owners {
        owners := owners + [baked[i]];
      }
    }
    assert baked[..|baked|] == baked;
    if owners == [] {
      return Err(NoOwnerLeft);
    }
    var threshold := Max(bakedThreshold, liveThreshold);
    if |owners| < threshold {
      return Err(Unsatisfiable);
    }
    r := Ok((owners, threshold));
  }

  lemma {:induction false} CommonOwnersFacts(baked: seq<Address>, live: seq<Address>)
    ensures Distinct(CommonOwners(baked, live))
    ensures Elements(CommonOwners(baked, live)) == Common(baked, live)
  {
    if baked != [] {
      var front, o := baked[..|baked| - 1], baked[|baked| - 1];
      CommonOwnersFacts(front, live);
      assert baked == front + [o];
      assert Common(baked, live) == Common(front, live) + if o in live then {o} else {};
      var owners := CommonOwners(front, live);
      assert o in owners <==> o in Elements(owners);
    }
  }

  lemma CommonOwnersSize(baked: seq<Address>, live: seq<Address>)
    ensures |CommonOwners(baked, live)| == |Common(baked, live)|
    ensures forall a :: a in CommonOwners(baked, live) <==> a in baked && a in live
  {
    CommonOwnersFacts(baked, live);
    DistinctSize(CommonOwners(baked, live));
    forall a ensures a in CommonOwners(baked, live) <==> a in baked && a in live {
      assert a in Elements(CommonOwners(baked, live)) <==> a in Common(baked, live);
    }
  }

  // ----- counting signatures -----

  /** Some signature of the list recovers to `who`. */
  ghost predicate SignedBy(req: Request, sigs: seq<Signature>, recover: Recover, who: Address) {
    exists s :: s in sigs && recover(req, s) == Some(who)
  }

  /** The distinct owners behind the signatures; everything else is ignored. */
  ghost function SigningOwners(req: Request, sigs: seq<Signature>, recover: Recover, owners: seq<Address>): set<Address> {
    set a | a in owners && SignedBy(req, sigs, recover, a)
  }

  /** An unexpired request signed by at least `threshold` distinct owners. */
  ghost predicate Accepted(req: Request, sigs: seq<Signature>, recover: Recover, owners: seq<Address>, threshold: nat,
                           now: nat)
  {
    && 0 < req.approval.expiry && now < req.approval.expiry
    && 1 <= threshold <= |owners|
    && |SigningOwners(req, sigs, recover, owners)| >= threshold
  }

  datatype VerifyError = NoExpiry | Expired | ThresholdZero | ThresholdAboveOwners | Insufficient

  method VerifyApprovals(req: Request, sigs: seq<Signature>, recover: Recover, owners: seq<Address>, threshold: nat,
                         now: nat) returns (r: Option<VerifyError>)
    ensures r.None? <==> Accepted(req, sigs, recover, owners, threshold, now)
  {
    if req.approval.expiry == 0 {
      return Some(NoExpiry);
    }
    if now >= req.approval.expiry {
      return Some(Expired);
    }
    if threshold == 0 {
      return Some(ThresholdZero);
    }
    if threshold > |owners| {
      return Some(ThresholdAboveOwners);
    }
    var distinct := [];
    for i := 0 to |sigs|
      invariant Distinct(distinct)
      invariant Elements(distinct) == SigningOwners(req, sigs[..i], recover, owners)
    {
      var signer := recover(req, sigs[i]);
      SigningOwnersStep(req, sigs, i, recover, owners);
      if signer.None? {
        continue;
      }
      assert signer.value in distinct <==> signer.value in Elements(distinct);
      if signer.value in owners && signer.value !in distinct {
        distinct := distinct + [signer.value];
      }
    }
    assert sigs[..|sigs|] == sigs;
    DistinctSize(distinct);
    r := if |distinct| < threshold then Some(Insufficient) else None;
  }

  lemma SigningOwnersStep(req: Request, sigs: seq<Signature>, i: nat, recover: Recover, owners: seq<Address>)
    requires i < |sigs|
    ensures SigningOwners(req, sigs[..i + 1], recover, owners) ==
            SigningOwners(req, sigs[..i], recover, owners)
            + set a | a in owners && recover(req, sigs[i]) == Some(a)
  {
    assert sigs[..i + 1] == sigs[..i] + [sigs[i]];
    forall a: Address ensures SignedBy(req, sigs[..i + 1], recover, a) <==>
                     SignedBy(req, sigs[..i], recover, a) || recover(req, sigs[i]) == Some(a)
    {
      assert sigs[i] in sigs[..i + 1];
    }
  }

  // ----- what narrowing guarantees -----

  /** An approval passes when the narrowed quorum exists and accepts it. */
  ghost predicate LiveAccepted(req: Request, sigs: seq<Signature>, recover: Recover, baked: seq<Address>,
                               bakedThreshold: nat, live: seq<Address>, liveThreshold: nat, now: nat)
  {
    var q := Effective(baked, bakedThreshold, live, liveThreshold);
    q.Ok? && Accepted(req, sigs, recover, q.value.0, q.value.1, now)
  }

  /** The same, without mentioning the narrowed list. */
  lemma LiveAcceptedMeans(req: Request, sigs: seq<Signature>, recover: Recover, baked: seq<Address>,
                          bakedThreshold: nat, live: seq<Address>, liveThreshold: nat, now: nat)
    ensures LiveAccepted(req, sigs, recover, baked, bakedThreshold, live, liveThreshold, now) <==>
            && 0 < req.approval.expiry && now < req.approval.expiry
            && bakedThreshold > 0 && liveThreshold > 0
            && |set a | a in baked && a in live && SignedBy(req, sigs, recover, a)| >= Max(bakedThreshold, liveThreshold)
  {
    var owners := CommonOwners(baked, live);
    var signing := set a | a in baked && a in live && SignedBy(req, sigs, recover, a);
    CommonOwnersSize(baked, live);
    assert SigningOwners(req, sigs, recover, owners) == signing;
    SubsetSize(signing, Common(baked, live));
  }

  /** A live read can only narrow: what passes it passes the baked quorum alone and the live
      quorum alone. */
  lemma NarrowingRefines(req: Request, sigs: seq<Signature>, recover: Recover, baked: seq<Address>,
                         bakedThreshold: nat, live: seq<Address>, liveThreshold: nat, now: nat)
    requires LiveAccepted(req, sigs, recover, baked, bakedThreshold, live, liveThreshold, now)
    ensures Accepted(req, sigs, recover, baked, bakedThreshold, now)
    ensures Accepted(req, sigs, recover, live, liveThreshold, now)
  {
    LiveAcceptedMeans(req, sigs, recover, baked, bakedThreshold, live, liveThreshold, now);
    var signing := set a | a in baked && a in live && SignedBy(req, sigs, recover, a);
    WiderAccepts(req, sigs, recover, signing, baked, bakedThreshold, now);
    WiderAccepts(req, sigs, recover, signing, live, liveThreshold, now);
  }

  lemma WiderAccepts(req: Request, sigs: seq<Signature>, recover: Recover, signing: set<Address>,
                     owners: seq<Address>, threshold: nat, now: nat)
    requires 0 < req.approval.expiry && now < req.approval.expiry
    requires 1 <= threshold <= |signing|
    requires forall a | a in signing :: a in owners && SignedBy(req, sigs, recover, a)
    ensures Accepted(req, sigs, recover, owners, threshold, now)
  {
    SubsetSize(signing, SigningOwners(req, sigs, recover, owners));
    SubsetSize(SigningOwners(req, sigs, recover, owners), Elements(owners));
    ElementsSize(owners);
  }

  /** Removing live owners or raising the live threshold never turns a rejection into an
      acceptance, except that a live threshold of zero is itself refused. */
  lemma NarrowingIsMonotone(req: Request, sigs: seq<Signature>, recover: Recover, baked: seq<Address>,
                            bakedThreshold: nat, live: seq<Address>, fewer: seq<Address>, low: nat, high: nat, now: nat)
    requires forall a | a in fewer :: a in live
    requires 0 < low <= high
    requires LiveAccepted(req, sigs, recover, baked, bakedThreshold, fewer, high, now)
    ensures LiveAccepted(req, sigs, recover, baked, bakedThreshold, live, low, now)
  {
    LiveAcceptedMeans(req, sigs, recover, baked, bakedThreshold, fewer, high, now);
    LiveAcceptedMeans(req, sigs, recover, baked, bakedThreshold, live, low, now);
    SubsetSize(set a | a in baked && a in fewer && SignedBy(req, sigs, recover, a),
               set a | a in baked && a in live && SignedBy(req, sigs, recover, a));
  }

  /** The exception: an accepted approval is refused when the live threshold drops to zero, so
      raising it from zero to one does turn a rejection into an acceptance. */
  lemma ZeroLiveThresholdRefuses(req: Request, sigs: seq<Signature>, recover: Recover, baked: seq<Address>,
                                 bakedThreshold: nat, live: seq<Address>, liveThreshold: nat, now: nat)
    requires LiveAccepted(req, sigs, recover, baked, bakedThreshold, live, liveThreshold, now)
    ensures LiveAccepted(req, sigs, recover, baked, bakedThreshold, live, 1, now)
    ensures !LiveAccepted(req, sigs, recover, baked, bakedThreshold, live, 0, now)
  {
    LiveAcceptedMeans(req, sigs, recover, baked, bakedThreshold, live, liveThreshold, now);
    LiveAcceptedMeans(req, sigs, recover, baked, bakedThreshold, live, 1, now);
  }

  /** Order and repetition of the signatures do not matter. */
  lemma SignatureOrderIrrelevant(req: Request, sigs: seq<Signature>, other: seq<Signature>, recover: Recover,
                                 owners: seq<Address>, threshold: nat, now: nat)
    requires forall s :: s in sigs <==> s in other
    ensures Accepted(req, sigs, recover, owners, threshold, now) <==> Accepted(req, other, recover, owners, threshold, now)
  {
    forall a: Address ensures SignedBy(req, sigs, recover, a) <==> SignedBy(req, other, recover, a) {}
    assert SigningOwners(req, sigs, recover, owners) == SigningOwners(req, other, recover, owners);
  }
}
