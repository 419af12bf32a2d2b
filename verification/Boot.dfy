/** The boot state machine shared by both images: one tick decides from the peer sweep and the
    registry's answers, the driver acts on it, and the loop ticks until a key is installed.
    Peers, registry and key generation answer arbitrarily. */
module Boot {
  import opened Wrappers
  import opened Policy

  datatype Action = InstallPeerKey(address: Address) | GenerateCandidate | InstallCandidate | Wait

  /** The registry during one tick: the answer to the n-th membership query (`None` is a
      failed read) and to the population query. */
  datatype View = View(registered: (nat, Address) -> Option<bool>, signerCount: Option<nat>)

  datatype Tick = Tick(role: EnclaveRole, sweep: seq<Address>, freshApproved: bool, candidate: Option<Address>)

  // ----- boot::tick -----

  /** Query the swept addresses in order from `i`: the first one reported registered, none,
      or a read fault. */
  function FirstRegistered(sweep: seq<Address>, view: View, i: nat): (r: Option<Option<Address>>)
    requires i <= |sweep|
    ensures r.Some? && r.value.Some? ==>
              exists j :: i <= j < |sweep| && r.value.value == sweep[j] && view.registered(j, sweep[j]) == Some(true)
                          && forall k | i <= k < j :: view.registered(k, sweep[k]) == Some(false)
    ensures r.Some? && r.value.None? <==> forall k | i <= k < |sweep| :: view.registered(k, sweep[k]) == Some(false)
    decreases |sweep| - i
  {
    if i == |sweep| then Some(None)
    else
      match view.registered(i, sweep[i])
      case None => None
      case Some(true) => Some(Some(sweep[i]))
      case Some(false) => FirstRegistered(sweep, view, i + 1)
  }

  /** The next action, or `None` on a registry read fault. */
  function TickAction(t: Tick, view: View): Option<Action> {
    match FirstRegistered(t.sweep, view, 0)
    case None => None
    case Some(Some(addr)) => Some(InstallPeerKey(addr))
    case Some(None) =>
      match t.role
      case Bridge => Some(if t.sweep == [] then Wait else InstallPeerKey(t.sweep[0]))
      case Oracle =>
        if t.candidate.Some? then
          match view.registered(|t.sweep|, t.candidate.value)
          case None => None
          case Some(true) => Some(InstallCandidate)
          case Some(false) => Some(Wait)
        else if t.freshApproved then Some(GenerateCandidate)
        else
          match view.signerCount
          case None => None
          case Some(n) => Some(if n == 0 then GenerateCandidate else Wait)
  }

  // ----- driver::step -----

  /** A peer's answer: a key, a refusal, or a transport fault. */
  datatype Answer = Gave(key: Key) | Declined | Fault

  /** Everything one tick sees from outside. */
  datatype Input = Input(answers: seq<Answer>, freshApproved: bool, view: View, genesis: Option<Key>)

  datatype Installed = Peer(key: Key) | Candidate(key: Key)

  datatype Outcome = Continue | Done(installed: Installed) | RegistryFault | GenesisFailed
    | AbsentFromSweep | NoHeldCandidate

  type AddressOf = Key -> Address

  function Given(answers: seq<Answer>): seq<Key> {
    if answers == [] then []
    else
      var front, last := Given(answers[..|answers| - 1]), answers[|answers| - 1];
      if last.Gave? then front + [last.key] else front
  }

  function Addresses(keys: seq<Key>, addressOf: AddressOf): (r: seq<Address>)
    ensures |r| == |keys| && forall i | 0 <= i < |keys| :: r[i] == addressOf(keys[i])
  {
    seq(|keys|, i requires 0 <= i < |keys| => addressOf(keys[i]))
  }

  /** The first key with the given address. */
  function FindKey(keys: seq<Key>, addressOf: AddressOf, address: Address): (r: Option<Key>)
    ensures r.Some? ==> r.value in keys && addressOf(r.value) == address
    ensures r.None? ==> forall k | k in keys :: addressOf(k) != address
  {
    if keys == [] then None
    else if addressOf(keys[0]) == address then Some(keys[0])
    else FindKey(keys[1..], addressOf, address)
  }

  function TickOf(role: EnclaveRole, held: Option<Key>, input: Input, addressOf: AddressOf): Tick {
    Tick(role, Addresses(Given(input.answers), addressOf), input.freshApproved,
         if held.Some? then Some(addressOf(held.value)) else None)
  }

  /** The candidate held after a tick, and the tick's outcome. */
  function StepOf(role: EnclaveRole, held: Option<Key>, input: Input, addressOf: AddressOf): (Option<Key>, Outcome) {
    var keys := Given(input.answers);
    match TickAction(TickOf(role, held, input, addressOf), input.view)
    case None => (held, RegistryFault)
    case Some(InstallPeerKey(addr)) =>
      (match FindKey(keys, addressOf, addr)
       case None => (held, AbsentFromSweep)
       case Some(key) => (held, Done(Peer(key))))
    case Some(GenerateCandidate) =>
      (match input.genesis
       case None => (held, GenesisFailed)
       case Some(key) => (Some(key), Continue))
    case Some(InstallCandidate) =>
      if held.None? then (None, NoHeldCandidate) else (None, Done(Candidate(held.value)))
    case Some(Wait) => (held, Continue)
  }

  /** State carried across ticks: the candidate generated and published, awaiting registration. */
  class BootLoop {
    var candidate: Option<Key>

    constructor ()
      ensures candidate == None
    {
      candidate := None;
    }

    method Step(role: EnclaveRole, input: Input, addressOf: AddressOf) returns (outcome: Outcome)
      modifies this
      ensures (candidate, outcome) == StepOf(role, old(candidate), input, addressOf)
    {
      var fetched := [];
      for i := 0 to |input.answers|
        invariant fetched == Given(input.answers[..i])
        invariant candidate == old(candidate)
      {
        assert input.answers[..i + 1][..i] == input.answers[..i];
        if input.answers[i].Gave? {
          fetched := fetched + [input.answers[i].key];
        }
      }
      assert input.answers[..|input.answers|] == input.answers;
      var held := if candidate.Some? then Some(addressOf(candidate.value)) else None;
      var action := TickAction(Tick(role, Addresses(fetched, addressOf), input.freshApproved, held), input.view);
      if action.None? {
        return RegistryFault;
      }
      match action.value {
        case InstallPeerKey(addr) =>
          var key := FindKey(fetched, addressOf, addr);
          outcome := if key.None? then AbsentFromSweep else Done(Peer(key.value));
        case GenerateCandidate =>
          if input.genesis.None? {
            return GenesisFailed;
          }
          candidate := input.genesis;
          outcome := Continue;
        case InstallCandidate =>
          var taken := candidate;
          candidate := None;
          outcome := if taken.None? then NoHeldCandidate else Done(Candidate(taken.value));
        case Wait =>
          outcome := Continue;
      }
    }

    /** Tick on the given inputs until a key is installed, retrying through every fault. */
    method Run(role: EnclaveRole, inputs: seq<Input>, addressOf: AddressOf) returns (r: Option<Installed>)
      modifies this
      ensures r == InstalledKey(RunOf(role, old(candidate), inputs, addressOf))
    {
      ghost var start := candidate;
      for i := 0 to |inputs|
        invariant RunOf(role, start, inputs[..i], addressOf) == Booting(candidate)
      {
        var outcome := Step(role, inputs[i], addressOf);
        assert inputs[..i + 1][..i] == inputs[..i];
        if outcome.Done? {
          RunStaysBooted(role, start, inputs, i + 1, addressOf);
          return Some(outcome.installed);
        }
      }
      assert inputs[..|inputs|] == inputs;
      r := None;
    }
  }

  // ----- runs -----

  datatype RunState = Booting(held: Option<Key>) | Booted(key: Installed)

  function InstalledKey(r: RunState): Option<Installed> {
    if r.Booted? then Some(r.key) else None
  }

  /** The driver after a list of tick inputs; nothing happens once a key is installed. */
  function RunOf(role: EnclaveRole, start: Option<Key>, inputs: seq<Input>, addressOf: AddressOf): RunState {
    if inputs == [] then Booting(start)
    else AfterTick(role, RunOf(role, start, inputs[..|inputs| - 1], addressOf), inputs[|inputs| - 1], addressOf)
  }

  function AfterTick(role: EnclaveRole, before: RunState, input: Input, addressOf: AddressOf): RunState {
    if before.Booted? then before
    else
      var (held, outcome) := StepOf(role, before.held, input, addressOf);
      if outcome.Done? then Booted(outcome.installed) else Booting(held)
  }

  lemma {:induction false} RunStaysBooted(role: EnclaveRole, start: Option<Key>, inputs: seq<Input>, i: nat,
                                          addressOf: AddressOf)
    requires i <= |inputs| && RunOf(role, start, inputs[..i], addressOf).Booted?
    ensures RunOf(role, start, inputs, addressOf) == RunOf(role, start, inputs[..i], addressOf)
  {
    if i == |inputs| {
      assert inputs[..i] == inputs;
    } else {
      assert inputs[..|inputs| - 1][..i] == inputs[..i];
      RunStaysBooted(role, start, inputs[..|inputs| - 1], i, addressOf);
    }
  }

  // ----- one tick -----

  lemma {:induction false} GivenIndex(keys: seq<Key>, addressOf: AddressOf, address: Address)
    requires address in Addresses(keys, addressOf)
    ensures FindKey(keys, addressOf, address).Some?
  {
    var i :| 0 <= i < |keys| && Addresses(keys, addressOf)[i] == address;
    assert keys[i] in keys;
  }

  /** The two errors the driver calls impossible are: the chosen address was swept, and a
      candidate is installed only while one is held. A bridge neither generates nor installs
      a candidate. */
  lemma StepNeverFailsInternally(role: EnclaveRole, held: Option<Key>, input: Input, addressOf: AddressOf)
    ensures !StepOf(role, held, input, addressOf).1.AbsentFromSweep?
    ensures !StepOf(role, held, input, addressOf).1.NoHeldCandidate?
    ensures role == Bridge ==> StepOf(role, held, input, addressOf).0 == held
    ensures role == Bridge ==> StepOf(role, held, input, addressOf).1 in {Continue, RegistryFault}
                               || (StepOf(role, held, input, addressOf).1.Done?
                                   && StepOf(role, held, input, addressOf).1.installed.Peer?)
  {
    var keys := Given(input.answers);
    var t := TickOf(role, held, input, addressOf);
    var action := TickAction(t, input.view);
    if action.Some? && action.value.InstallPeerKey? {
      assert action.value.address in t.sweep;
      GivenIndex(keys, addressOf, action.value.address);
    }
  }

  /** The n-th query of a tick asks for the n-th swept address, the one after the sweep for the
      candidate; it is made only when every earlier answer was negative. */
  ghost predicate ReportedAt(t: Tick, view: View, address: Address, n: nat) {
    && n <= |t.sweep| && (if n < |t.sweep| then t.sweep[n] == address else t.candidate == Some(address))
    && view.registered(n, address) == Some(true)
    && forall k | 0 <= k < n :: view.registered(k, t.sweep[k]) == Some(false)
  }

  /** The registry listed the address in answer to a query this tick made. */
  ghost predicate Reported(t: Tick, view: View, address: Address) {
    exists n: nat :: ReportedAt(t, view, address, n)
  }

  /** An oracle finishes a tick only with a key whose address was reported registered in it. */
  lemma OracleInstallsReported(held: Option<Key>, input: Input, addressOf: AddressOf)
    requires StepOf(Oracle, held, input, addressOf).1.Done?
    ensures Reported(TickOf(Oracle, held, input, addressOf), input.view,
                     addressOf(StepOf(Oracle, held, input, addressOf).1.installed.key))
  {
    var t := TickOf(Oracle, held, input, addressOf);
    var first := FirstRegistered(t.sweep, input.view, 0).value;
    if first.Some? {
      var j :| 0 <= j < |t.sweep| && first.value == t.sweep[j] && input.view.registered(j, t.sweep[j]) == Some(true)
               && forall k | 0 <= k < j :: input.view.registered(k, t.sweep[k]) == Some(false);
      assert ReportedAt(t, input.view, t.sweep[j], j);
    } else {
      assert ReportedAt(t, input.view, addressOf(held.value), |t.sweep|);
    }
  }

  /** The first swept key reported registered wins, for both roles, over any candidate. */
  lemma FirstRegisteredPeerWins(role: EnclaveRole, held: Option<Key>, input: Input, addressOf: AddressOf, j: nat)
    requires j < |Given(input.answers)|
    requires input.view.registered(j, addressOf(Given(input.answers)[j])) == Some(true)
    requires forall k | 0 <= k < j :: input.view.registered(k, addressOf(Given(input.answers)[k])) == Some(false)
    ensures var outcome := StepOf(role, held, input, addressOf).1;
            && outcome.Done? && outcome.installed.Peer?
            && addressOf(outcome.installed.key) == addressOf(Given(input.answers)[j])
  {
    var keys := Given(input.answers);
    var sweep := Addresses(keys, addressOf);
    ScanReaches(sweep, input.view, 0, j);
    GivenIndex(keys, addressOf, sweep[j]);
  }

  lemma {:induction false} ScanReaches(sweep: seq<Address>, view: View, i: nat, j: nat)
    requires i <= j < |sweep|
    requires view.registered(j, sweep[j]) == Some(true)
    requires forall k | i <= k < j :: view.registered(k, sweep[k]) == Some(false)
    ensures FirstRegistered(sweep, view, i) == Some(Some(sweep[j]))
    decreases j - i
  {
    if i < j {
      ScanReaches(sweep, view, i + 1, j);
    }
  }

  // ----- whole runs -----

  /** A tick that mints a candidate. */
  predicate Mints(role: EnclaveRole, held: Option<Key>, input: Input, addressOf: AddressOf) {
    TickAction(TickOf(role, held, input, addressOf), input.view) == Some(GenerateCandidate) && input.genesis.Some?
  }

  /** How many candidates a run minted. */
  ghost function Minted(role: EnclaveRole, start: Option<Key>, inputs: seq<Input>, addressOf: AddressOf): nat {
    if inputs == [] then 0
    else
      var front, last := inputs[..|inputs| - 1], inputs[|inputs| - 1];
      Minted(role, start, front, addressOf) + MintedBy(role, RunOf(role, start, front, addressOf), last, addressOf)
  }

  ghost function MintedBy(role: EnclaveRole, before: RunState, input: Input, addressOf: AddressOf): nat {
    if before.Booting? && Mints(role, before.held, input, addressOf) then 1 else 0
  }

  /** At most one mint, and none by a bridge; while booting a candidate is held exactly when there
      was one, and only then can a candidate have been installed. */
  ghost predicate MintedOnce(role: EnclaveRole, r: RunState, minted: nat) {
    && minted <= 1 && (role == Bridge ==> minted == 0)
    && (r.Booting? ==> (r.held.Some? <==> minted == 1))
    && (r.Booted? && r.key.Candidate? ==> minted == 1)
  }

  lemma TickMintsOnce(role: EnclaveRole, before: RunState, minted: nat, input: Input, addressOf: AddressOf)
    requires MintedOnce(role, before, minted)
    ensures MintedOnce(role, AfterTick(role, before, input, addressOf), minted + MintedBy(role, before, input, addressOf))
  {
    if before.Booting? {
      StepNeverFailsInternally(role, before.held, input, addressOf);
    }
  }

  /** Over every run from an empty state a candidate is minted at most once, and only then
      held; a bridge never holds one. */
  lemma {:induction false} MintsAtMostOnce(role: EnclaveRole, inputs: seq<Input>, addressOf: AddressOf)
    ensures MintedOnce(role, RunOf(role, None, inputs, addressOf), Minted(role, None, inputs, addressOf))
  {
    if inputs != [] {
      var front, last := inputs[..|inputs| - 1], inputs[|inputs| - 1];
      MintsAtMostOnce(role, front, addressOf);
      TickMintsOnce(role, RunOf(role, None, front, addressOf), Minted(role, None, front, addressOf), last, addressOf);
    }
  }

  /** Tick `i` of the run is the one that finished it, with this key, and the registry listed the
      key's address in answer to a query of that tick. */
  ghost predicate InstalledAt(start: Option<Key>, inputs: seq<Input>, addressOf: AddressOf, i: nat, key: Installed) {
    && i < |inputs| && RunOf(Oracle, start, inputs[..i], addressOf).Booting?
    && var held := RunOf(Oracle, start, inputs[..i], addressOf).held;
       && StepOf(Oracle, held, inputs[i], addressOf).1 == Done(key)
       && Reported(TickOf(Oracle, held, inputs[i], addressOf), inputs[i].view, addressOf(key.key))
  }

  lemma InstalledEarlier(start: Option<Key>, inputs: seq<Input>, addressOf: AddressOf, n: nat, i: nat, key: Installed)
    requires n <= |inputs| && InstalledAt(start, inputs[..n], addressOf, i, key)
    ensures InstalledAt(start, inputs, addressOf, i, key)
  {
    assert inputs[..n][..i] == inputs[..i] && inputs[..n][i] == inputs[i];
  }

  lemma InstalledLast(start: Option<Key>, inputs: seq<Input>, addressOf: AddressOf, n: nat, held: Option<Key>)
    requires |inputs| == n + 1 && RunOf(Oracle, start, inputs[..n], addressOf) == Booting(held)
    requires RunOf(Oracle, start, inputs, addressOf).Booted?
    ensures InstalledAt(start, inputs, addressOf, n, RunOf(Oracle, start, inputs, addressOf).key)
  {
    OracleInstallsReported(held, inputs[n], addressOf);
  }

  /** Over every oracle run the installed key's address was reported registered in the very tick
      that installed it. */
  lemma {:induction false} OracleRunInstallsReported(start: Option<Key>, inputs: seq<Input>, addressOf: AddressOf)
    returns (i: nat)
    requires RunOf(Oracle, start, inputs, addressOf).Booted?
    ensures InstalledAt(start, inputs, addressOf, i, RunOf(Oracle, start, inputs, addressOf).key)
  {
    var n := |inputs| - 1;
    var before := RunOf(Oracle, start, inputs[..n], addressOf);
    if before.Booted? {
      i := OracleRunInstallsReported(start, inputs[..n], addressOf);
      InstalledEarlier(start, inputs, addressOf, n, i, before.key);
    } else {
      i := n;
      InstalledLast(start, inputs, addressOf, n, before.held);
    }
  }

  /** Once minted, a candidate survives every fault until it is installed or superseded by a
      peer key that was reported registered in the tick that installed it. */
  lemma {:induction false} CandidateSurvives(key: Key, inputs: seq<Input>, addressOf: AddressOf)
    ensures var r := RunOf(Oracle, Some(key), inputs, addressOf);
            || r == Booting(Some(key))
            || r == Booted(Candidate(key))
            || (r.Booted? && r.key.Peer? && exists i: nat :: InstalledAt(Some(key), inputs, addressOf, i, r.key))
  {
    CandidateIsHeld(key, inputs, addressOf);
    if RunOf(Oracle, Some(key), inputs, addressOf).Booted? {
      var i := OracleRunInstallsReported(Some(key), inputs, addressOf);
    }
  }

  lemma {:induction false} CandidateIsHeld(key: Key, inputs: seq<Input>, addressOf: AddressOf)
    ensures HeldOrInstalled(key, RunOf(Oracle, Some(key), inputs, addressOf))
  {
    if inputs != [] {
      var n := |inputs| - 1;
      CandidateIsHeld(key, inputs[..n], addressOf);
      TickKeepsCandidate(key, RunOf(Oracle, Some(key), inputs[..n], addressOf), inputs[n], addressOf);
    }
  }

  lemma TickKeepsCandidate(key: Key, before: RunState, input: Input, addressOf: AddressOf)
    requires HeldOrInstalled(key, before)
    ensures HeldOrInstalled(key, AfterTick(Oracle, before, input, addressOf))
  {
  }

  /** The candidate is still held, or it or a peer key was installed. */
  ghost predicate HeldOrInstalled(key: Key, r: RunState) {
    r == Booting(Some(key)) || r == Booted(Candidate(key)) || (r.Booted? && r.key.Peer?)
  }
}
