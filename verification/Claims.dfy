/** The claim policy: which recipient and amount may be signed, until when, and the whole
    decision from two chain reads to a signed grant. */
module Claims {
  import opened Wrappers
  import opened Numbers
  import opened Numerals
  import opened Policy
  import opened Chain

  const CLAIM_TTL_SECS: nat := 3600
  const MAX_CLOCK_SKEW_SECS: nat := 600

  datatype ClaimError = NotReady | RecipientForbidden | NothingBurned | Mismatch | Decreasing | RpcError | ClockSkew

  type Signature = nat

  datatype ClaimRequest = ClaimRequest(recipient: Address, total: nat, deadline: nat, chainId: nat, entry: Address)

  /** The typed-data signer with its recovery self-check; `None` is a signer fault. */
  type Signer = (Key, ClaimRequest) -> Option<Signature>

  /** The success body of a claim; the total travels as a decimal string. */
  datatype Grant = Grant(signature: Signature, total: string, deadline: nat, signer: Address, igraBlock: nat)

  datatype ClaimInputs = ClaimInputs(recipient: Address, highWater: nat, now: nat, forbidden: seq<Address>,
                                     exit: Address, entry: Address, chainId: nat, igraFinality: Finality)

  function FromChain(e: ChainError): ClaimError {
    match e
    case ReadMismatch => Mismatch
    case DecreasingBurned => Decreasing
    case RpcFault => RpcError
  }

  // ----- policy -----

  function EnsureNotDecreasing(total: nat, lastSigned: nat): Result<(), ChainError> {
    if total < lastSigned then Err(DecreasingBurned) else Ok(())
  }

  function CheckClaimable(recipient: Address, total: nat, forbidden: seq<Address>): Result<(), ClaimError> {
    if recipient == 0 || recipient in forbidden then Err(RecipientForbidden)
    else if total == 0 then Err(NothingBurned)
    else Ok(())
  }

  function AbsDiff(a: nat, b: nat): nat {
    if a <= b then b - a else a - b
  }

  /** The earlier clock and the validity window, in wrapping 64-bit arithmetic. */
  function ComputeDeadline(now: nat, blockTime: nat): Result<nat, ClaimError> {
    if AbsDiff(now, blockTime) > MAX_CLOCK_SKEW_SECS then Err(ClockSkew)
    else Ok((Min(now, blockTime) + CLAIM_TTL_SECS) % U64_END)
  }

  function Max(a: nat, b: nat): nat {
    if a <= b then b else a
  }

  /** The deadline leaves between 3000 and 3600 seconds on both clocks, exactly when the
      64-bit sum does not wrap; clocks further than 600 seconds apart are refused. */
  lemma DeadlineWithinClocks(now: nat, blockTime: nat)
    requires now < U64_END && blockTime < U64_END
    ensures var r := ComputeDeadline(now, blockTime);
            && (r.Ok? <==> now <= blockTime + 600 && blockTime <= now + 600)
            && (r.Ok? ==> (Max(now, blockTime) + 3000 <= r.value <= Min(now, blockTime) + 3600
                           <==> Min(now, blockTime) + 3600 < U64_END))
  {
    var sum := Min(now, blockTime) + 3600;
    if sum >= U64_END {
      assert sum % U64_END == sum - U64_END;
    }
  }

  /** At the end of the 64-bit range the sum wraps to a deadline in the past. */
  lemma DeadlineWraps()
    ensures ComputeDeadline(U64_END - 1, U64_END - 1) == Ok(3599)
  {
    assert (U64_END - 1 + 3600) % U64_END == 3599;
  }

  // ----- the decision -----

  /** What the two reads decide. */
  function GrantFrom(sign: Signer, key: Key, signer: Address, inp: ClaimInputs,
                     burned: Result<(nat, nat), ChainError>, block: Result<BlockRef, ChainError>)
    : Result<Grant, ClaimError>
  {
    if burned.Err? then Err(FromChain(burned.error))
    else
      var (total, igraBlock) := burned.value;
      var order := EnsureNotDecreasing(total, inp.highWater);
      if order.Err? then Err(FromChain(order.error))
      else
        var claimable := CheckClaimable(inp.recipient, total, inp.forbidden);
        if claimable.Err? then Err(claimable.error)
        else if block.Err? then Err(FromChain(block.error))
        else
          var deadline := ComputeDeadline(inp.now, block.value.timestamp);
          if deadline.Err? then Err(deadline.error)
          else
            match sign(key, ClaimRequest(inp.recipient, total, deadline.value, inp.chainId, inp.entry))
            case None => Err(NotReady)
            case Some(signature) =>
              Ok(Grant(signature, PrintDecimal(total), deadline.value, signer, igraBlock))
  }

  /** The burn is read at finality on one chain, the clock at the head of the other. */
  function BuildGrant(sign: Signer, key: Key, signer: Address, igra: Transport, rh: Transport, inp: ClaimInputs)
    : Result<Grant, ClaimError>
  {
    GrantFrom(sign, key, signer, inp,
              BurnedFinalized(igra, inp.exit, inp.recipient, inp.igraFinality),
              FinalizedBlock(Over(rh), HeadMinus(0)).0)
  }

  /** A total that may be signed. */
  ghost predicate Payable(inp: ClaimInputs, total: nat) {
    total >= inp.highWater && total > 0 && inp.recipient != 0 && inp.recipient !in inp.forbidden
  }

  /** A claim is granted exactly when the total was read, is payable and not below the high
      water mark, the clocks agree and the signer works; and the grant is the signature over
      that total, that deadline and the inputs' domain. */
  lemma GrantMeans(sign: Signer, key: Key, signer: Address, inp: ClaimInputs,
                   burned: Result<(nat, nat), ChainError>, block: Result<BlockRef, ChainError>, g: Grant)
    ensures GrantFrom(sign, key, signer, inp, burned, block) == Ok(g) <==>
            && burned.Ok? && block.Ok?
            && var total := burned.value.0;
               && Payable(inp, total)
               && ComputeDeadline(inp.now, block.value.timestamp) == Ok(g.deadline)
               && sign(key, ClaimRequest(inp.recipient, total, g.deadline, inp.chainId, inp.entry)) == Some(g.signature)
               && g.total == PrintDecimal(total) && g.signer == signer && g.igraBlock == burned.value.1
  {
  }

  /** A claim against truthful nodes on deep enough chains, with agreeing clocks, pays out what
      was burned at the older of the finalized block and the depth. */
  lemma HonestClaimIsGranted(sign: Signer, key: Key, signer: Address, igra: Transport, rh: Transport, inp: ClaimInputs,
                             ledger: Ledger, clock: Ledger, depth: nat)
    requires inp.igraFinality == FinalizedWithDepth(depth)
    requires Sound(ledger) && Honest(igra, ledger) && ledger.head >= depth
    requires Sound(clock) && Honest(rh, clock) && AbsDiff(inp.now, clock.timeAt(clock.head)) <= 600
    ensures var number := Min(ledger.finalized, ledger.head - depth);
            var total := ledger.burned(ledger.hashAt(number), inp.exit, inp.recipient);
            var deadline := ComputeDeadline(inp.now, clock.timeAt(clock.head)).value;
            var signature := sign(key, ClaimRequest(inp.recipient, total, deadline, inp.chainId, inp.entry));
            Payable(inp, total) && signature.Some? ==>
              BuildGrant(sign, key, signer, igra, rh, inp) ==
              Ok(Grant(signature.value, PrintDecimal(total), deadline, signer, number))
  {
    HonestReadSucceeds(igra, ledger, inp.exit, inp.recipient, depth);
    HonestIsDecoded(rh, clock);
    HonestHeadBlock(Over(rh), clock);
  }

  lemma HonestHeadBlock(rd: Reader, l: Ledger)
    requires HonestReader(rd, l)
    ensures FinalizedBlock(rd, HeadMinus(0)).0 == Ok(BlockRef(l.head, l.hashAt(l.head), l.timeAt(l.head)))
  {
    assert rd.head(0) == Some(l.head);
    assert rd.header(1, Some(l.head)) == Some(Header(Some(l.head), Some(l.hashAt(l.head)), Some(l.timeAt(l.head))));
  }
}
