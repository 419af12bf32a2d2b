/** A running bridge: its state, the two requests that change it, and the boot thread that
    installs the claim key while requests keep arriving. */
module Bridge {
  import opened Wrappers
  import opened Numerals
  import opened Policy
  import opened Chain
  import opened Claims
  import Boot

  /** What is built into the image. */
  datatype BakedIdentity = BakedIdentity(exit: Address, kskd: Address, entry: Address, chainId: nat)

  datatype Config = Config(exit: Address, kskd: Address, entry: Address, chainId: nat,
                           rhRpcs: seq<string>, oraclePeers: seq<string>)

  function FromParts(baked: BakedIdentity, rhRpcs: seq<string>, oraclePeers: seq<string>): Config {
    Config(baked.exit, baked.kskd, baked.entry, baked.chainId, rhRpcs, oraclePeers)
  }

  /** The image and the library calls it makes. */
  datatype Env = Env(baked: BakedIdentity, parseAddress: string -> Option<Address>, sign: Signer,
                     addressOf: Boot.AddressOf)

  /** What one claim request sees from outside: both transports and the wall clock. */
  datatype ClaimIo = ClaimIo(igra: Transport, rh: Transport, now: nat)

  const HTTPS: string := "https://"

  predicate IsHttps(url: string) {
    HTTPS <= url
  }

  const IGRA_FINALITY: Finality := FinalizedWithDepth(800)

  // ----- the state and its requests -----

  datatype State = State(key: Option<Key>, signer: Option<Address>, config: Option<Config>, lastSigned: map<Address, nat>)

  const NEW_STATE: State := State(None, None, None, map[])

  function HighWater(s: State, recipient: Address): nat {
    if recipient in s.lastSigned then s.lastSigned[recipient] else 0
  }

  function Installed(s: State, key: Key, signer: Address): State {
    if s.key.Some? then s else s.(key := Some(key), signer := Some(signer))
  }

  function Recorded(s: State, recipient: Address, total: nat): State {
    s.(lastSigned := s.lastSigned[recipient := Max(HighWater(s, recipient), total)])
  }

  /** The configuration is taken only before a key is installed, for the baked entry and
      encrypted endpoints. */
  predicate Configurable(env: Env, s: State, entry: string, rhRpcs: seq<string>) {
    && s.key.None?
    && env.parseAddress(entry) == Some(env.baked.entry)
    && rhRpcs != [] && forall i | 0 <= i < |rhRpcs| :: IsHttps(rhRpcs[i])
  }

  function Configured(env: Env, s: State, entry: string, rhRpcs: seq<string>, oraclePeers: seq<string>): State {
    if Configurable(env, s, entry, rhRpcs) then s.(config := Some(FromParts(env.baked, rhRpcs, oraclePeers))) else s
  }

  function InputsFor(s: State, cfg: Config, recipient: Address, now: nat): ClaimInputs {
    ClaimInputs(recipient, HighWater(s, recipient), now, [cfg.exit, cfg.kskd], cfg.exit, cfg.entry, cfg.chainId,
                IGRA_FINALITY)
  }

  function Claim(env: Env, s: State, recipient: string, io: ClaimIo): Result<Grant, ClaimError> {
    match env.parseAddress(recipient)
    case None => Err(RecipientForbidden)
    case Some(who) =>
      if s.key.None? || s.config.None? || s.config.value.rhRpcs == [] then Err(NotReady)
      else BuildGrant(env.sign, s.key.value, env.addressOf(s.key.value), io.igra, io.rh,
                      InputsFor(s, s.config.value, who, io.now))
  }

  /** The state after a claim: the printed total of a grant is parsed back and recorded. */
  function Claimed(env: Env, s: State, recipient: string, io: ClaimIo): State {
    var r := Claim(env, s, recipient, io);
    if r.Err? then s
    else
      match ParseU256(r.value.total)
      case None => s
      case Some(total) => Recorded(s, env.parseAddress(recipient).value, total)
  }

  class BridgeState {
    var key: Option<Key>
    var signer: Option<Address>
    var config: Option<Config>
    var lastSigned: map<Address, nat>

    ghost function View(): State
      reads this
    {
      State(key, signer, config, lastSigned)
    }

    constructor ()
      ensures View() == NEW_STATE
    {
      key, signer, config, lastSigned := None, None, None, map[];
    }

    /** Once only: a second call is ignored. */
    method InstallKey(k: Key, address: Address)
      modifies this
      ensures View() == Installed(old(View()), k, address)
    {
      if key.Some? {
        return;
      }
      key := Some(k);
      signer := Some(address);
    }

    method RecordSigned(recipient: Address, total: nat)
      modifies this
      ensures View() == Recorded(old(View()), recipient, total)
    {
      if recipient !in lastSigned {
        lastSigned := lastSigned[recipient := 0];
      }
      if total > lastSigned[recipient] {
        lastSigned := lastSigned[recipient := total];
      }
      assert lastSigned == old(View()).lastSigned[recipient := Max(HighWater(old(View()), recipient), total)];
    }

    method Configure(env: Env, entry: string, rhRpcs: seq<string>, oraclePeers: seq<string>) returns (ok: bool)
      modifies this
      ensures ok == Configurable(env, old(View()), entry, rhRpcs)
      ensures View() == Configured(env, old(View()), entry, rhRpcs, oraclePeers)
    {
      if key.Some? {
        return false;
      }
      if env.parseAddress(entry) != Some(env.baked.entry) {
        return false;
      }
      if rhRpcs == [] || exists i :: 0 <= i < |rhRpcs| && !IsHttps(rhRpcs[i]) {
        return false;
      }
      config := Some(FromParts(env.baked, rhRpcs, oraclePeers));
      return true;
    }

    method SignClaim(env: Env, recipient: string, io: ClaimIo) returns (r: Result<Grant, ClaimError>)
      modifies this
      ensures r == Claim(env, old(View()), recipient, io)
      ensures View() == Claimed(env, old(View()), recipient, io)
    {
      var who := env.parseAddress(recipient);
      if who.None? {
        return Err(RecipientForbidden);
      }
      if key.None? || config.None? {
        return Err(NotReady);
      }
      var cfg := config.value;
      if cfg.rhRpcs == [] {
        return Err(NotReady);
      }
      var mark := if who.value in lastSigned then lastSigned[who.value] else 0;
      var inputs := ClaimInputs(who.value, mark, io.now, [cfg.exit, cfg.kskd], cfg.exit, cfg.entry, cfg.chainId,
                                IGRA_FINALITY);
      r := BuildGrant(env.sign, key.value, env.addressOf(key.value), io.igra, io.rh, inputs);
      if r.Ok? {
        var total := ParseU256(r.value.total);
        if total.Some? {
          RecordSigned(who.value, total.value);
        }
      }
    }
  }

  // ----- requests and the boot thread, interleaved -----

  /** Where the boot thread is: polling for a configuration, in a tick with one, about to set
      the readiness flag, done, or stopped by the error no bridge should meet. */
  datatype Phase = Polling | Ticking(cfg: Config) | Storing | Returned | Refused

  datatype Signed = Signed(recipient: Address, io: ClaimIo, grant: Grant)

  datatype Machine = Machine(state: State, flag: bool, phase: Phase, held: Option<Key>, log: seq<Signed>)

  const START: Machine := Machine(NEW_STATE, false, Polling, None, [])

  datatype Event =
    | Configure(entry: string, rhRpcs: seq<string>, oraclePeers: seq<string>)
    | SignClaim(recipient: string, io: ClaimIo)
    | BootRead
    | BootTick(input: Boot.Input)
    | BootStore

  /** A bridge is never approved for a fresh key and its generator always refuses. */
  function BridgeInput(input: Boot.Input): Boot.Input {
    input.(freshApproved := false, genesis := None)
  }

  predicate SameEndpoints(s: State, cfg: Config) {
    s.config.Some? && s.config.value.rhRpcs == cfg.rhRpcs && s.config.value.oraclePeers == cfg.oraclePeers
  }

  /** The end of a tick that ran with configuration `cfg`. */
  function Ticked(env: Env, m: Machine, cfg: Config, input: Boot.Input): Machine {
    var (held, outcome) := Boot.StepOf(EnclaveRole.Bridge, m.held, BridgeInput(input), env.addressOf);
    match outcome
    case Done(Peer(key)) =>
      if SameEndpoints(m.state, cfg) then
        m.(state := Installed(m.state, key, env.addressOf(key)), held := held, phase := Storing)
      else m.(held := held, phase := Polling)
    case Done(Candidate(_)) => m.(held := held, phase := Refused)
    case _ => m.(held := held, phase := Polling)
  }

  function Next(env: Env, m: Machine, e: Event): Machine {
    match e
    case Configure(entry, rhRpcs, oraclePeers) => m.(state := Configured(env, m.state, entry, rhRpcs, oraclePeers))
    case SignClaim(recipient, io) =>
      var r := Claim(env, m.state, recipient, io);
      m.(state := Claimed(env, m.state, recipient, io),
         log := if r.Ok? then m.log + [Signed(env.parseAddress(recipient).value, io, r.value)] else m.log)
    case BootRead =>
      if m.phase == Polling && m.state.config.Some? && m.state.config.value.rhRpcs != []
      then m.(phase := Ticking(m.state.config.value)) else m
    case BootTick(input) => if m.phase.Ticking? then Ticked(env, m, m.phase.cfg, input) else m
    case BootStore => if m.phase == Storing then m.(flag := true, phase := Returned) else m
  }

  function RunFrom(env: Env, m: Machine, events: seq<Event>): Machine {
    if events == [] then m else Next(env, RunFrom(env, m, events[..|events| - 1]), events[|events| - 1])
  }

  function Run(env: Env, events: seq<Event>): Machine {
    RunFrom(env, START, events)
  }

  /** The boot thread beside the request handlers: each method runs between two points where
      the state lock is free, so the three steps interleave with requests. */
  class BootThread {
    const state: BridgeState
    const boot: Boot.BootLoop
    var keyInstalled: bool
    var phase: Phase

    constructor (state: BridgeState)
      requires state.View() == NEW_STATE
      ensures this.state == state && fresh(boot) && View() == START
    {
      this.state := state;
      boot := new Boot.BootLoop();
      keyInstalled, phase := false, Polling;
    }

    ghost function View(): Machine
      reads this, state, boot
    {
      Machine(state.View(), keyInstalled, phase, boot.candidate, [])
    }

    /** Take the accepted configuration for one tick, if there is one. */
    method ReadConfig(env: Env)
      modifies this
      ensures View() == Next(env, old(View()), BootRead)
    {
      if phase == Polling && state.config.Some? && state.config.value.rhRpcs != [] {
        phase := Ticking(state.config.value);
      }
    }

    /** Tick with the configuration taken, and install under the lock only if it still is the
        stored one. */
    method Tick(env: Env, input: Boot.Input)
      modifies this, state, boot
      ensures View() == Next(env, old(View()), BootTick(input))
    {
      if !phase.Ticking? {
        return;
      }
      var cfg := phase.cfg;
      var outcome := boot.Step(EnclaveRole.Bridge, BridgeInput(input), env.addressOf);
      if outcome.Done? && outcome.installed.Peer? && state.config.Some?
         && state.config.value.rhRpcs == cfg.rhRpcs && state.config.value.oraclePeers == cfg.oraclePeers {
        state.InstallKey(outcome.installed.key, env.addressOf(outcome.installed.key));
        phase := Storing;
      } else {
        phase := if outcome.Done? && outcome.installed.Candidate? then Refused else Polling;
      }
    }

    method StoreFlag(env: Env)
      modifies this
      ensures View() == Next(env, old(View()), BootStore)
    {
      if phase == Storing {
        keyInstalled := true;
        phase := Returned;
      }
    }
  }

  // ----- what every step keeps -----

  ghost predicate WellConfigured(env: Env, cfg: Config) {
    && cfg == FromParts(env.baked, cfg.rhRpcs, cfg.oraclePeers)
    && cfg.rhRpcs != [] && forall i | 0 <= i < |cfg.rhRpcs| :: IsHttps(cfg.rhRpcs[i])
  }

  ghost predicate BootInv(env: Env, m: Machine) {
    && (m.state.config.Some? ==> WellConfigured(env, m.state.config.value))
    && (m.phase.Ticking? ==> WellConfigured(env, m.phase.cfg))
    && m.phase != Refused && m.held == None
    && (m.state.key.Some? <==> m.phase in {Storing, Returned})
    && (m.state.key.Some? ==> m.state.config.Some? && m.state.signer == Some(env.addressOf(m.state.key.value)))
    && (m.flag <==> m.phase == Returned)
  }

  lemma NextKeepsBoot(env: Env, m: Machine, e: Event)
    requires BootInv(env, m)
    ensures BootInv(env, Next(env, m, e))
  {
    match e {
      case BootTick(input) =>
        Boot.StepNeverFailsInternally(EnclaveRole.Bridge, m.held, BridgeInput(input), env.addressOf);
      case _ =>
    }
  }

  lemma {:induction false} RunKeepsBoot(env: Env, events: seq<Event>)
    ensures BootInv(env, Run(env, events))
  {
    if events != [] {
      RunKeepsBoot(env, events[..|events| - 1]);
      NextKeepsBoot(env, Run(env, events[..|events| - 1]), events[|events| - 1]);
    }
  }

  /** A key appears only at the end of a tick, only one some peer gave in that tick, and only
      while the stored configuration is the one the tick ran with. */
  lemma InstalledUnderTickConfig(env: Env, events: seq<Event>, e: Event)
    requires var m := Run(env, events); m.state.key.None? && Next(env, m, e).state.key.Some?
    ensures var m := Run(env, events);
            && m.phase.Ticking? && e.BootTick?
            && m.state.config == Some(m.phase.cfg) && Next(env, m, e).state.config == Some(m.phase.cfg)
            && Next(env, m, e).state.key.value in Boot.Given(e.input.answers)
  {
    var m := Run(env, events);
    RunKeepsBoot(env, events);
    assert e.BootTick?;
    Boot.StepNeverFailsInternally(EnclaveRole.Bridge, m.held, BridgeInput(e.input), env.addressOf);
  }

  lemma NextFreezes(env: Env, m: Machine, e: Event)
    requires BootInv(env, m) && m.state.key.Some?
    ensures var m' := Next(env, m, e);
            m'.state.key == m.state.key && m'.state.config == m.state.config && m'.state.signer == m.state.signer
  {
  }

  /** Once a key is installed, neither it nor the configuration ever changes. */
  lemma {:induction false} ConfigIsFrozen(env: Env, events: seq<Event>, more: seq<Event>)
    requires Run(env, events).state.key.Some?
    ensures var m, m' := Run(env, events), Run(env, events + more);
            m'.state.key == m.state.key && m'.state.config == m.state.config && m'.state.signer == m.state.signer
  {
    if more == [] {
      assert events + more == events;
    } else {
      var front, last := more[..|more| - 1], more[|more| - 1];
      ConfigIsFrozen(env, events, front);
      assert (events + more)[..|events + more| - 1] == events + front;
      RunKeepsBoot(env, events + front);
      NextFreezes(env, Run(env, events + front), last);
    }
  }

  /** In every interleaving the readiness flag implies an installed key, and the candidate
      error is never met. */
  lemma ReadinessIsTrue(env: Env, events: seq<Event>)
    ensures Run(env, events).flag ==> Run(env, events).state.key.Some?
    ensures Run(env, events).phase != Refused
    ensures Run(env, events).state.key.Some? ==> Run(env, events).state.config.Some?
  {
    RunKeepsBoot(env, events);
  }

  // ----- the money path -----

  function TotalOf(s: Signed): nat {
    if ParseU256(s.grant.total).Some? then ParseU256(s.grant.total).value else 0
  }

  /** The grant is this image's signature, by this key, over a positive total that was read
      from the burn ledger for an allowed recipient. */
  ghost predicate GrantSound(env: Env, key: Key, s: Signed) {
    && s.recipient !in {0, env.baked.exit, env.baked.kskd}
    && TotalOf(s) > 0 && s.grant.total == PrintDecimal(TotalOf(s))
    && s.grant.signer == env.addressOf(key)
    && env.sign(key, ClaimRequest(s.recipient, TotalOf(s), s.grant.deadline, env.baked.chainId, env.baked.entry))
       == Some(s.grant.signature)
    && BurnedFinalized(s.io.igra, env.baked.exit, s.recipient, IGRA_FINALITY) == Ok((TotalOf(s), s.grant.igraBlock))
    && FinalizedBlock(Over(s.io.rh), HeadMinus(0)).0.Ok?
    && ComputeDeadline(s.io.now, FinalizedBlock(Over(s.io.rh), HeadMinus(0)).0.value.timestamp) == Ok(s.grant.deadline)
  }

  ghost predicate Ratcheted(m: Machine) {
    && (forall i, j | 0 <= i < j < |m.log| && m.log[i].recipient == m.log[j].recipient ::
          TotalOf(m.log[i]) <= TotalOf(m.log[j]))
    && (forall i | 0 <= i < |m.log| :: TotalOf(m.log[i]) <= HighWater(m.state, m.log[i].recipient))
  }

  ghost predicate MoneyInv(env: Env, m: Machine) {
    && (m.log != [] ==> m.state.key.Some?)
    && (forall i | 0 <= i < |m.log| :: GrantSound(env, m.state.key.value, m.log[i]))
    && Ratcheted(m)
  }

  /** A granted claim is sound and not below the recipient's high water mark, and raises the
      mark to its total. */
  lemma ClaimIsSound(env: Env, s: State, recipient: string, io: ClaimIo)
    requires Claim(env, s, recipient, io).Ok?
    requires s.config.Some? ==> WellConfigured(env, s.config.value)
    ensures var signed := Signed(env.parseAddress(recipient).value, io, Claim(env, s, recipient, io).value);
            && s.key.Some? && GrantSound(env, s.key.value, signed)
            && HighWater(s, signed.recipient) <= TotalOf(signed)
            && Claimed(env, s, recipient, io) == Recorded(s, signed.recipient, TotalOf(signed))
  {
    var who := env.parseAddress(recipient).value;
    var inp := InputsFor(s, s.config.value, who, io.now);
    var g := Claim(env, s, recipient, io).value;
    var burned := BurnedFinalized(io.igra, inp.exit, who, IGRA_FINALITY);
    var block := FinalizedBlock(Over(io.rh), HeadMinus(0)).0;
    GrantMeans(env.sign, s.key.value, env.addressOf(s.key.value), inp, burned, block, g);
    BurnedRoundTrips(io.igra, inp.exit, who, IGRA_FINALITY);
  }

  lemma RatchetClaims(m: Machine, s: Signed)
    requires Ratcheted(m) && HighWater(m.state, s.recipient) <= TotalOf(s)
    ensures Ratcheted(m.(state := Recorded(m.state, s.recipient, TotalOf(s)), log := m.log + [s]))
  {
  }

  lemma NextKeepsMoney(env: Env, m: Machine, e: Event)
    requires BootInv(env, m) && MoneyInv(env, m)
    ensures MoneyInv(env, Next(env, m, e))
  {
    if m.state.key.Some? {
      NextFreezes(env, m, e);
    }
    if e.SignClaim? && Claim(env, m.state, e.recipient, e.io).Ok? {
      ClaimIsSound(env, m.state, e.recipient, e.io);
      GrantKeepsMoney(env, m, Signed(env.parseAddress(e.recipient).value, e.io, Claim(env, m.state, e.recipient, e.io).value));
    } else {
      OtherKeepsMoney(env, m, Next(env, m, e));
    }
  }

  lemma GrantKeepsMoney(env: Env, m: Machine, s: Signed)
    requires MoneyInv(env, m) && m.state.key.Some? && GrantSound(env, m.state.key.value, s)
    requires HighWater(m.state, s.recipient) <= TotalOf(s)
    ensures MoneyInv(env, m.(state := Recorded(m.state, s.recipient, TotalOf(s)), log := m.log + [s]))
  {
    RatchetClaims(m, s);
  }

  lemma OtherKeepsMoney(env: Env, m: Machine, m': Machine)
    requires MoneyInv(env, m) && m'.log == m.log && m'.state.lastSigned == m.state.lastSigned
    requires m.state.key.Some? ==> m'.state.key == m.state.key
    ensures MoneyInv(env, m')
  {
  }

  lemma {:induction false} RunKeepsMoney(env: Env, events: seq<Event>)
    ensures MoneyInv(env, Run(env, events))
  {
    if events != [] {
      RunKeepsMoney(env, events[..|events| - 1]);
      RunKeepsBoot(env, events[..|events| - 1]);
      NextKeepsMoney(env, Run(env, events[..|events| - 1]), events[|events| - 1]);
    }
  }

  /** Over every run, in every interleaving: each grant is sound, and the totals signed for one
      recipient never decrease. */
  lemma EveryGrantIsSound(env: Env, events: seq<Event>, i: nat)
    requires i < |Run(env, events).log|
    ensures Run(env, events).state.key.Some?
    ensures GrantSound(env, Run(env, events).state.key.value, Run(env, events).log[i])
    ensures forall j | i < j < |Run(env, events).log| && Run(env, events).log[j].recipient == Run(env, events).log[i].recipient ::
              TotalOf(Run(env, events).log[i]) <= TotalOf(Run(env, events).log[j])
  {
    RunKeepsMoney(env, events);
  }

  /** The burn block of every grant is at most the finalized height its node reported and at
      least 800 below the head it reported. */
  lemma GrantBlockIsDeep(env: Env, events: seq<Event>, i: nat) returns (finalized: nat, head: nat)
    requires i < |Run(env, events).log|
    ensures var s := Run(env, events).log[i];
            && s.grant.igraBlock <= finalized && s.grant.igraBlock + 800 <= head
            && Over(s.io.igra).head(1) == Some(head)
            && Over(s.io.igra).header(0, None).Some? && Over(s.io.igra).header(0, None).value.number == Some(finalized)
  {
    EveryGrantIsSound(env, events, i);
    var s := Run(env, events).log[i];
    var word := BurnedWord(Over(s.io.igra), env.baked.exit, s.recipient, IGRA_FINALITY).value.0;
    var hash0, hash;
    finalized, hash0, head, hash :=
      ReadIsVouched(Over(s.io.igra), env.baked.exit, s.recipient, 800, word, s.grant.igraBlock);
  }

  /** The deadline of every grant lies within the window on both clocks, exactly when the
      64-bit sum does not wrap. */
  lemma GrantDeadlineIsSoft(env: Env, events: seq<Event>, i: nat) returns (blockTime: nat)
    requires i < |Run(env, events).log| && Run(env, events).log[i].io.now < 0x1_0000_0000_0000_0000
    ensures var s := Run(env, events).log[i];
            && AbsDiff(s.io.now, blockTime) <= 600
            && (Max(s.io.now, blockTime) + 3000 <= s.grant.deadline <= Min(s.io.now, blockTime) + 3600
                <==> Min(s.io.now, blockTime) + 3600 < 0x1_0000_0000_0000_0000)
  {
    EveryGrantIsSound(env, events, i);
    var s := Run(env, events).log[i];
    var rd := Over(s.io.rh);
    blockTime := FinalizedBlock(rd, HeadMinus(0)).0.value.timestamp;
    HeadTimeIsU64(s.io.rh);
    DeadlineWithinClocks(s.io.now, blockTime);
  }

  lemma HeadTimeIsU64(t: Transport)
    requires FinalizedBlock(Over(t), HeadMinus(0)).0.Ok?
    ensures FinalizedBlock(Over(t), HeadMinus(0)).0.value.timestamp < 0x1_0000_0000_0000_0000
  {
    var head := Over(t).head(0).value;
    DecodedHeader(t, 1, Some(head));
  }
}
