/** A fleet of oracle enclaves and the on-chain registry, stepping in any order: launches,
    registrations, approvals, handover connections, fetches, boot ticks and installs. The host
    may route a fetch to any genuine enclave, of the fleet or not. */
module Fleet {
  import opened Wrappers
  import opened Policy
  import opened Boot
  import O = OracleState

  /** What does not change: the version baked into each measured image, the two key
      functions, and the images that run this code. */
  datatype World = World(versionOf: Pcr0 -> nat, addressOf: Key -> Address, derive: (Key, Label) -> Key,
                         trusted: set<Pcr0>)

  /** Where an enclave's boot thread is. */
  datatype Phase = Sweeping(held: Option<Key>, answers: seq<Answer>) | Installing(key: Key, source: O.KeySource) | Serving

  datatype Enclave = Enclave(pcr0: Pcr0, ancestors: seq<Pcr0>, phase: Phase, state: O.Snapshot)

  /** A handover connection: the key and the approvals it copied under the lock. */
  datatype Conn = Conn(server: nat, key: Key, approvals: seq<Approval>)

  /** A key that arrived: who gave it, under which decision, and what was received. */
  datatype Hop = Hop(giver: nat, receiver: nat, decision: Decision, given: Key, received: Key)

  datatype Mint = Mint(enclave: nat, key: Key)

  /** A grant to a client that is not of the fleet: who gave it, to which image, under which
      decision, and the key granted. */
  datatype Export = Export(giver: nat, to: Pcr0, decision: Decision, given: Key, granted: Key)

  datatype Fleet = Fleet(registry: set<Address>, enclaves: seq<Enclave>, conns: seq<Conn>, hops: seq<Hop>,
                         mints: seq<Mint>, exports: seq<Export>)

  const Empty: Fleet := Fleet({}, [], [], [], [], [])

  datatype Action =
    | Launch(pcr0: Pcr0, ancestors: seq<Pcr0>)
    | Register(address: Address)
    | Approve(i: nat, approval: Approval)
    | Connect(i: nat)
    | FetchFrom(i: nat, conn: nat)
    | FetchOutside(i: nat, pcr0: Pcr0, key: Key)
    | FetchFault(i: nat)
    | ServeOutside(conn: nat, pcr0: Pcr0)
    | EndTick(i: nat, freshApproved: bool, view: View, genesis: Option<Key>)
    | Install(i: nat)

  function IdentityOf(w: World, e: Enclave): Identity {
    Identity(e.pcr0, w.versionOf(e.pcr0))
  }

  /** What a connection grants to a client of an image, by the server's policy over its copies. */
  function GrantTo(w: World, f: Fleet, to: Pcr0, c: Conn): Decision
    requires c.server < |f.enclaves|
  {
    Decide(IdentityOf(w, f.enclaves[c.server]), Oracle, to, false, c.approvals)
  }

  function Transferred(w: World, d: Decision, key: Key): Key
    requires !d.Refuse?
  {
    if d.OwnKey? then key else w.derive(key, d.child)
  }

  predicate Accepts(e: Enclave, server: Pcr0) {
    ClientAccepts(RootFromRoot, e.pcr0, server, e.ancestors)
  }

  /** A positive registry answer is true; negative and failed ones are arbitrary. */
  ghost predicate Truthful(view: View, registry: set<Address>) {
    forall n: nat, a: Address :: view.registered(n, a) == Some(true) ==> a in registry
  }

  ghost predicate Enabled(w: World, f: Fleet, a: Action) {
    match a
    case Launch(pcr0, ancestors) => pcr0 in w.trusted && forall p | p in ancestors :: p in w.trusted
    case Register(_) => true
    case Approve(i, ap) =>
      i < |f.enclaves| && (ap.pcr0 == f.enclaves[i].pcr0 ==> ap.version == w.versionOf(ap.pcr0))
    case Connect(i) => i < |f.enclaves| && f.enclaves[i].state.root.Some?
    case FetchFrom(i, c) =>
      i < |f.enclaves| && f.enclaves[i].phase.Sweeping? && c < |f.conns| && f.conns[c].server < |f.enclaves|
    case FetchOutside(i, pcr0, _) => i < |f.enclaves| && f.enclaves[i].phase.Sweeping? && pcr0 !in w.trusted
    case FetchFault(i) => i < |f.enclaves| && f.enclaves[i].phase.Sweeping?
    case ServeOutside(c, _) => c < |f.conns| && f.conns[c].server < |f.enclaves|
    case EndTick(i, _, view, _) => i < |f.enclaves| && f.enclaves[i].phase.Sweeping? && Truthful(view, f.registry)
    case Install(i) => i < |f.enclaves| && f.enclaves[i].phase.Installing?
  }

  function Answered(e: Enclave, answer: Answer): Enclave
    requires e.phase.Sweeping?
  {
    e.(phase := Sweeping(e.phase.held, e.phase.answers + [answer]))
  }

  /** The enclave after a boot tick. */
  function Ticked(w: World, e: Enclave, input: Input): Enclave
    requires e.phase.Sweeping?
  {
    var (held, outcome) := StepOf(Oracle, e.phase.held, input, w.addressOf);
    if outcome.Done? then
      e.(phase := Installing(outcome.installed.key, if outcome.installed.Peer? then O.PeerSource else O.Genesis))
    else if Mints(Oracle, e.phase.held, input, w.addressOf) then
      e.(phase := Sweeping(held, []), state := O.Published(e.state, w.addressOf(input.genesis.value)))
    else e.(phase := Sweeping(held, []))
  }

  function Next(w: World, f: Fleet, a: Action): Fleet
    requires Enabled(w, f, a)
  {
    match a
    case Launch(pcr0, ancestors) =>
      f.(enclaves := f.enclaves + [Enclave(pcr0, ancestors, Sweeping(None, []), O.Initial)])
    case Register(address) => f.(registry := f.registry + {address})
    case Approve(i, ap) =>
      f.(enclaves := f.enclaves[i := f.enclaves[i].(state := O.Approved(f.enclaves[i].state, ap))])
    case Connect(i) =>
      f.(conns := f.conns + [Conn(i, f.enclaves[i].state.root.value, f.enclaves[i].state.approvals)])
    case FetchFrom(i, c) =>
      var conn := f.conns[c];
      var d := GrantTo(w, f, f.enclaves[i].pcr0, conn);
      if !d.Refuse? && Accepts(f.enclaves[i], f.enclaves[conn.server].pcr0) then
        var key := Transferred(w, d, conn.key);
        f.(enclaves := f.enclaves[i := Answered(f.enclaves[i], Gave(key))],
           hops := f.hops + [Hop(conn.server, i, d, conn.key, key)])
      else f.(enclaves := f.enclaves[i := Answered(f.enclaves[i], Declined)])
    case FetchOutside(i, pcr0, key) =>
      var answer := if Accepts(f.enclaves[i], pcr0) then Gave(key) else Declined;
      f.(enclaves := f.enclaves[i := Answered(f.enclaves[i], answer)])
    case FetchFault(i) => f.(enclaves := f.enclaves[i := Answered(f.enclaves[i], Fault)])
    case ServeOutside(c, pcr0) =>
      var conn := f.conns[c];
      var d := GrantTo(w, f, pcr0, conn);
      if d.Refuse? then f
      else f.(exports := f.exports + [Export(conn.server, pcr0, d, conn.key, Transferred(w, d, conn.key))])
    case EndTick(i, approved, view, genesis) =>
      var e := f.enclaves[i];
      var input := Input(e.phase.answers, approved, view, genesis);
      var minted := Mints(Oracle, e.phase.held, input, w.addressOf);
      f.(enclaves := f.enclaves[i := Ticked(w, e, input)],
         mints := if minted then f.mints + [Mint(i, genesis.value)] else f.mints)
    case Install(i) =>
      var e := f.enclaves[i];
      f.(enclaves := f.enclaves[i := e.(phase := Serving,
            state := O.InstalledKey(e.state, e.phase.key, w.addressOf(e.phase.key), e.phase.source))])
  }

  // ----- the invariant -----

  /** The key reached this enclave by a handover. */
  ghost predicate Arrived(f: Fleet, i: nat, key: Key) {
    exists h :: h in f.hops && h.receiver == i && h.received == key
  }

  /** The key reached this enclave by a handover, or the enclave minted it. */
  ghost predicate Traced(f: Fleet, i: nat, key: Key) {
    Arrived(f, i, key) || Mint(i, key) in f.mints
  }

  ghost predicate EnclaveOk(w: World, f: Fleet, i: nat)
    requires i < |f.enclaves|
  {
    var e := f.enclaves[i];
    && e.pcr0 in w.trusted && (forall p | p in e.ancestors :: p in w.trusted)
    && (e.state.root.Some? <==> e.state.boot == O.Ready)
    && (e.state.root.Some? <==> e.phase.Serving?)
    && (e.state.root.Some? ==> w.addressOf(e.state.root.value) in f.registry && Traced(f, i, e.state.root.value)
                               && e.state.signer == Some(w.addressOf(e.state.root.value)))
    && (e.phase.Installing? ==> w.addressOf(e.phase.key) in f.registry && Traced(f, i, e.phase.key))
    && (e.phase.Sweeping? ==>
          && (forall a | a in e.phase.answers && a.Gave? :: Arrived(f, i, a.key))
          && (e.phase.held.Some? ==> Mint(i, e.phase.held.value) in f.mints
                                     && e.state.boot == O.WaitingRegistration
                                     && e.state.signer == Some(w.addressOf(e.phase.held.value)))
          && (e.phase.held.None? ==> e.state.boot == O.Fetching))
  }

  /** A connection carries the server's installed key and approvals the server still holds. */
  ghost predicate ConnOk(f: Fleet, c: Conn) {
    && c.server < |f.enclaves|
    && f.enclaves[c.server].state.root == Some(c.key)
    && c.approvals <= f.enclaves[c.server].state.approvals
  }

  /** The approval is a carry of that image, scoped to the oracle role, above that version. */
  predicate CarriesTo(a: Approval, to: Pcr0, above: nat) {
    a.pcr0 == to && a.role == Oracle && a.mode == Carry && a.version > above
  }

  /** The giver's installed key or a child of it went out; the key itself to a different image only
      under such a carry. */
  ghost predicate GrantOk(w: World, f: Fleet, giver: nat, to: Pcr0, d: Decision, given: Key, granted: Key) {
    && giver < |f.enclaves| && f.enclaves[giver].state.root == Some(given)
    && !d.Refuse? && granted == Transferred(w, d, given)
    && (d.OwnKey? && f.enclaves[giver].pcr0 != to ==>
          exists a :: a in f.enclaves[giver].state.approvals && CarriesTo(a, to, w.versionOf(f.enclaves[giver].pcr0)))
  }

  ghost predicate HopOk(w: World, f: Fleet, h: Hop) {
    && h.receiver < |f.enclaves|
    && GrantOk(w, f, h.giver, f.enclaves[h.receiver].pcr0, h.decision, h.given, h.received)
  }

  ghost predicate ExportOk(w: World, f: Fleet, e: Export) {
    GrantOk(w, f, e.giver, e.to, e.decision, e.given, e.granted)
  }

  ghost predicate Inv(w: World, f: Fleet) {
    && (forall i | 0 <= i < |f.enclaves| :: EnclaveOk(w, f, i))
    && (forall c | c in f.conns :: ConnOk(f, c))
    && (forall h | h in f.hops :: HopOk(w, f, h))
    && (forall e | e in f.exports :: ExportOk(w, f, e))
  }

  // ----- steps only add -----

  ghost predicate Grew(e: Enclave, e': Enclave) {
    && e'.pcr0 == e.pcr0 && e'.ancestors == e.ancestors
    && (e.state.root.Some? ==> e'.state.root == e.state.root)
    && e.state.approvals <= e'.state.approvals
  }

  /** The registry, the logs, approvals and installed keys only grow. */
  ghost predicate Extends(f: Fleet, g: Fleet) {
    && f.registry <= g.registry
    && |f.enclaves| <= |g.enclaves|
    && (forall i | 0 <= i < |f.enclaves| :: Grew(f.enclaves[i], g.enclaves[i]))
    && f.conns <= g.conns && f.hops <= g.hops && f.mints <= g.mints && f.exports <= g.exports
  }

  lemma ConnStays(f: Fleet, g: Fleet, c: Conn)
    requires Extends(f, g) && ConnOk(f, c)
    ensures ConnOk(g, c)
  {
    assert Grew(f.enclaves[c.server], g.enclaves[c.server]);
  }

  lemma GrantStays(w: World, f: Fleet, g: Fleet, giver: nat, to: Pcr0, d: Decision, given: Key, granted: Key)
    requires Extends(f, g) && GrantOk(w, f, giver, to, d, given, granted)
    ensures GrantOk(w, g, giver, to, d, given, granted)
  {
    assert Grew(f.enclaves[giver], g.enclaves[giver]);
  }

  lemma HopStays(w: World, f: Fleet, g: Fleet, h: Hop)
    requires Extends(f, g) && HopOk(w, f, h)
    ensures HopOk(w, g, h)
  {
    assert Grew(f.enclaves[h.receiver], g.enclaves[h.receiver]);
    GrantStays(w, f, g, h.giver, f.enclaves[h.receiver].pcr0, h.decision, h.given, h.received);
  }

  lemma TracedStays(f: Fleet, g: Fleet, i: nat, key: Key)
    requires Extends(f, g)
    ensures Arrived(f, i, key) ==> Arrived(g, i, key)
    ensures Traced(f, i, key) ==> Traced(g, i, key)
  {
  }

  lemma EnclaveStays(w: World, f: Fleet, g: Fleet, i: nat)
    requires Extends(f, g) && i < |f.enclaves| && EnclaveOk(w, f, i)
    requires g.enclaves[i] == f.enclaves[i]
    ensures EnclaveOk(w, g, i)
  {
    forall key: Key ensures Traced(f, i, key) ==> Traced(g, i, key) { TracedStays(f, g, i, key); }
    forall key: Key ensures Arrived(f, i, key) ==> Arrived(g, i, key) { TracedStays(f, g, i, key); }
  }

  /** It is enough to check what a step changed or added. */
  lemma InvBySteps(w: World, f: Fleet, g: Fleet)
    requires Inv(w, f) && Extends(f, g)
    requires forall i | 0 <= i < |g.enclaves| :: (i < |f.enclaves| && g.enclaves[i] == f.enclaves[i]) || EnclaveOk(w, g, i)
    requires forall c | c in g.conns :: c in f.conns || ConnOk(g, c)
    requires forall h | h in g.hops :: h in f.hops || HopOk(w, g, h)
    requires forall e | e in g.exports :: e in f.exports || ExportOk(w, g, e)
    ensures Inv(w, g)
  {
    forall i | 0 <= i < |g.enclaves| ensures EnclaveOk(w, g, i) {
      if i < |f.enclaves| && g.enclaves[i] == f.enclaves[i] { EnclaveStays(w, f, g, i); }
    }
    forall c | c in g.conns ensures ConnOk(g, c) {
      if c in f.conns { ConnStays(f, g, c); }
    }
    forall h | h in g.hops ensures HopOk(w, g, h) {
      if h in f.hops { HopStays(w, f, g, h); }
    }
    forall e | e in g.exports ensures ExportOk(w, g, e) {
      if e in f.exports { GrantStays(w, f, g, e.giver, e.to, e.decision, e.given, e.granted); }
    }
  }

  lemma NextExtends(w: World, f: Fleet, a: Action)
    requires Inv(w, f) && Enabled(w, f, a)
    ensures Extends(f, Next(w, f, a))
  {
    match a
    case EndTick(_, _, _, _) => EndTickExtends(w, f, a);
    case FetchFrom(_, _) => FetchFromExtends(w, f, a);
    case Install(i) => assert EnclaveOk(w, f, i);
    case _ =>
  }

  lemma FetchFromExtends(w: World, f: Fleet, a: Action)
    requires Inv(w, f) && Enabled(w, f, a) && a.FetchFrom?
    ensures Extends(f, Next(w, f, a))
  {
  }

  lemma EndTickExtends(w: World, f: Fleet, a: Action)
    requires Inv(w, f) && Enabled(w, f, a) && a.EndTick?
    ensures Extends(f, Next(w, f, a))
  {
    assert EnclaveOk(w, f, a.i);
  }

  // ----- each step keeps the invariant -----

  lemma {:induction false} GivenCameFromAnswers(answers: seq<Answer>, key: Key)
    requires key in Given(answers)
    ensures Gave(key) in answers
  {
    var front, last := answers[..|answers| - 1], answers[|answers| - 1];
    if !(last.Gave? && last.key == key) {
      GivenCameFromAnswers(front, key);
    }
  }

  /** A tick that finishes does so with a listed key that the enclave received or minted. */
  lemma TickInstallsTraced(w: World, f: Fleet, i: nat, input: Input)
    requires i < |f.enclaves| && EnclaveOk(w, f, i) && f.enclaves[i].phase.Sweeping?
    requires input.answers == f.enclaves[i].phase.answers && Truthful(input.view, f.registry)
    requires StepOf(Oracle, f.enclaves[i].phase.held, input, w.addressOf).1.Done?
    ensures var key := StepOf(Oracle, f.enclaves[i].phase.held, input, w.addressOf).1.installed.key;
            w.addressOf(key) in f.registry && Traced(f, i, key)
  {
    var held := f.enclaves[i].phase.held;
    OracleInstallsReported(held, input, w.addressOf);
    var installed := StepOf(Oracle, held, input, w.addressOf).1.installed;
    if installed.Peer? {
      assert installed.key in Given(input.answers);
      GivenCameFromAnswers(input.answers, installed.key);
    }
  }

  lemma StepShape(held: Option<Key>, input: Input, addressOf: AddressOf)
    ensures var (held', outcome) := StepOf(Oracle, held, input, addressOf);
            !outcome.Done? ==> if Mints(Oracle, held, input, addressOf) then held.None? && held' == input.genesis
                               else held' == held
  {
    StepNeverFailsInternally(Oracle, held, input, addressOf);
  }

  lemma EndTickKeeps(w: World, f: Fleet, a: Action)
    requires Inv(w, f) && Enabled(w, f, a) && a.EndTick?
    ensures Inv(w, Next(w, f, a))
  {
    var g := Next(w, f, a);
    NextExtends(w, f, a);
    var e := f.enclaves[a.i];
    var input := Input(e.phase.answers, a.freshApproved, a.view, a.genesis);
    assert EnclaveOk(w, f, a.i);
    StepShape(e.phase.held, input, w.addressOf);
    if StepOf(Oracle, e.phase.held, input, w.addressOf).1.Done? {
      var key := StepOf(Oracle, e.phase.held, input, w.addressOf).1.installed.key;
      TickInstallsTraced(w, f, a.i, input);
      TracedStays(f, g, a.i, key);
    }
    assert EnclaveOk(w, g, a.i);
    InvBySteps(w, f, g);
  }

  lemma FetchFromKeeps(w: World, f: Fleet, a: Action)
    requires Inv(w, f) && Enabled(w, f, a) && a.FetchFrom?
    ensures Inv(w, Next(w, f, a))
  {
    var g := Next(w, f, a);
    NextExtends(w, f, a);
    var conn := f.conns[a.conn];
    assert conn in f.conns && ConnOk(f, conn);
    assert EnclaveOk(w, f, a.i);
    forall key: Key ensures Arrived(f, a.i, key) ==> Arrived(g, a.i, key) { TracedStays(f, g, a.i, key); }
    var d := GrantTo(w, f, f.enclaves[a.i].pcr0, conn);
    if !d.Refuse? && Accepts(f.enclaves[a.i], f.enclaves[conn.server].pcr0) {
      var h := Hop(conn.server, a.i, d, conn.key, Transferred(w, d, conn.key));
      assert g.hops == f.hops + [h] && h in g.hops;
      GrantedIsOk(w, f, f.enclaves[a.i].pcr0, conn);
      HopStays(w, f, g, h);
    }
    assert EnclaveOk(w, g, a.i);
    InvBySteps(w, f, g);
  }

  lemma GrantedIsOk(w: World, f: Fleet, to: Pcr0, conn: Conn)
    requires ConnOk(f, conn) && !GrantTo(w, f, to, conn).Refuse?
    ensures var d := GrantTo(w, f, to, conn); GrantOk(w, f, conn.server, to, d, conn.key, Transferred(w, d, conn.key))
  {
    var server := f.enclaves[conn.server];
    if GrantTo(w, f, to, conn).OwnKey? && server.pcr0 != to {
      OwnKeyNeedsNewerCarry(IdentityOf(w, server), Oracle, to, false, conn.approvals);
      var a :| a in conn.approvals && CarriesTo(a, to, w.versionOf(server.pcr0));
      assert a in server.state.approvals;
    }
  }

  lemma ServeOutsideKeeps(w: World, f: Fleet, a: Action)
    requires Inv(w, f) && Enabled(w, f, a) && a.ServeOutside?
    ensures Inv(w, Next(w, f, a))
  {
    NextExtends(w, f, a);
    var conn := f.conns[a.conn];
    assert conn in f.conns && ConnOk(f, conn);
    if !GrantTo(w, f, a.pcr0, conn).Refuse? {
      GrantedIsOk(w, f, a.pcr0, conn);
      GrantStays(w, f, Next(w, f, a), conn.server, a.pcr0, GrantTo(w, f, a.pcr0, conn), conn.key,
                 Transferred(w, GrantTo(w, f, a.pcr0, conn), conn.key));
    }
    InvBySteps(w, f, Next(w, f, a));
  }

  /** A fetch routed to an enclave outside the trusted images never yields a key. */
  lemma OutsideIsRefused(w: World, f: Fleet, i: nat, pcr0: Pcr0)
    requires i < |f.enclaves| && EnclaveOk(w, f, i) && pcr0 !in w.trusted
    ensures !Accepts(f.enclaves[i], pcr0)
  {
  }

  lemma AnswerKeeps(w: World, f: Fleet, a: Action)
    requires Inv(w, f) && Enabled(w, f, a) && (a.FetchOutside? || a.FetchFault?)
    ensures Inv(w, Next(w, f, a))
  {
    var g := Next(w, f, a);
    NextExtends(w, f, a);
    assert EnclaveOk(w, f, a.i);
    if a.FetchOutside? { OutsideIsRefused(w, f, a.i, a.pcr0); }
    forall key: Key ensures Traced(f, a.i, key) ==> Traced(g, a.i, key) { TracedStays(f, g, a.i, key); }
    assert EnclaveOk(w, g, a.i);
    InvBySteps(w, f, g);
  }

  lemma StateKeeps(w: World, f: Fleet, a: Action)
    requires Inv(w, f) && Enabled(w, f, a) && (a.Approve? || a.Install? || a.Connect?)
    ensures Inv(w, Next(w, f, a))
  {
    var g := Next(w, f, a);
    NextExtends(w, f, a);
    assert EnclaveOk(w, f, a.i);
    forall key: Key ensures Traced(f, a.i, key) ==> Traced(g, a.i, key) { TracedStays(f, g, a.i, key); }
    forall key: Key ensures Arrived(f, a.i, key) ==> Arrived(g, a.i, key) { TracedStays(f, g, a.i, key); }
    assert EnclaveOk(w, g, a.i);
    InvBySteps(w, f, g);
  }

  lemma GrowthKeeps(w: World, f: Fleet, a: Action)
    requires Inv(w, f) && Enabled(w, f, a) && (a.Launch? || a.Register?)
    ensures Inv(w, Next(w, f, a))
  {
    var g := Next(w, f, a);
    NextExtends(w, f, a);
    if a.Launch? {
      assert EnclaveOk(w, g, |f.enclaves|);
    }
    InvBySteps(w, f, g);
  }

  lemma NextKeeps(w: World, f: Fleet, a: Action)
    requires Inv(w, f) && Enabled(w, f, a)
    ensures Inv(w, Next(w, f, a))
  {
    match a
    case Launch(_, _) => GrowthKeeps(w, f, a);
    case Register(_) => GrowthKeeps(w, f, a);
    case FetchFrom(_, _) => FetchFromKeeps(w, f, a);
    case EndTick(_, _, _, _) => EndTickKeeps(w, f, a);
    case FetchOutside(_, _, _) => AnswerKeeps(w, f, a);
    case FetchFault(_) => AnswerKeeps(w, f, a);
    case ServeOutside(_, _) => ServeOutsideKeeps(w, f, a);
    case _ => StateKeeps(w, f, a);
  }

  // ----- runs -----

  /** The fleet reached by a list of steps, each enabled when it is taken. */
  ghost predicate Run(w: World, actions: seq<Action>, f: Fleet) {
    if actions == [] then f == Empty
    else
      var n := |actions| - 1;
      exists g :: Run(w, actions[..n], g) && Enabled(w, g, actions[n]) && f == Next(w, g, actions[n])
  }

  lemma {:induction false} RunKeeps(w: World, actions: seq<Action>, f: Fleet)
    requires Run(w, actions, f)
    ensures Inv(w, f)
  {
    if actions != [] {
      var n := |actions| - 1;
      var g :| Run(w, actions[..n], g) && Enabled(w, g, actions[n]) && f == Next(w, g, actions[n]);
      RunKeeps(w, actions[..n], g);
      NextKeeps(w, g, actions[n]);
    }
  }

  /** In every run: an enclave holds a root key exactly when it is ready, that key is listed by
      the registry, and it was received in a handover or minted by the enclave itself. */
  lemma InstalledKeysAreListed(w: World, actions: seq<Action>, f: Fleet, i: nat)
    requires Run(w, actions, f) && i < |f.enclaves|
    ensures var s := f.enclaves[i].state;
            && (s.root.Some? <==> s.boot == O.Ready)
            && (s.root.Some? ==> w.addressOf(s.root.value) in f.registry && Traced(f, i, s.root.value))
  {
    RunKeeps(w, actions, f);
    assert EnclaveOk(w, f, i);
  }

  /** In every run the key is listed already when the install step is taken. */
  lemma ListedBeforeInstall(w: World, actions: seq<Action>, f: Fleet, i: nat)
    requires Run(w, actions, f) && Enabled(w, f, Install(i))
    ensures w.addressOf(f.enclaves[i].phase.key) in f.registry
    ensures Next(w, f, Install(i)).enclaves[i].state.root == Some(f.enclaves[i].phase.key)
  {
    RunKeeps(w, actions, f);
    assert EnclaveOk(w, f, i);
  }

  /** In every run a handover connection serves only a key the registry lists, and an enclave
      that holds no more than a candidate serves nothing. */
  lemma ServedKeysAreListed(w: World, actions: seq<Action>, f: Fleet, c: Conn)
    requires Run(w, actions, f) && c in f.conns
    ensures c.server < |f.enclaves| && w.addressOf(c.key) in f.registry
    ensures f.enclaves[c.server].phase.Serving?
  {
    RunKeeps(w, actions, f);
    assert ConnOk(f, c);
    assert EnclaveOk(w, f, c.server);
  }

  /** In every run a key moved to a different image only under an oracle-scoped carry, held by
      the giver, of that image, above the giver's version. */
  lemma HopsAreCarried(w: World, actions: seq<Action>, f: Fleet, h: Hop)
    requires Run(w, actions, f) && h in f.hops
    ensures HopOk(w, f, h)
  {
    RunKeeps(w, actions, f);
  }

  /** And the same for every grant to a client outside the fleet, whatever its image: the key
      itself leaves only under such a carry, and only a listed key or a child of one leaves. */
  lemma ExportsAreCarried(w: World, actions: seq<Action>, f: Fleet, e: Export)
    requires Run(w, actions, f) && e in f.exports
    ensures ExportOk(w, f, e) && w.addressOf(e.given) in f.registry
  {
    RunKeeps(w, actions, f);
    assert ExportOk(w, f, e);
    assert EnclaveOk(w, f, e.giver);
  }

  // ----- no way back -----

  /** Every approval an enclave holds states the version its image really has. */
  ghost predicate ApprovalsTrue(w: World, f: Fleet) {
    forall i, a | 0 <= i < |f.enclaves| && a in f.enclaves[i].state.approvals :: a.version == w.versionOf(a.pcr0)
  }

  /** One key passed on unchanged from enclave to enclave. */
  ghost predicate Path(f: Fleet, path: seq<Hop>) {
    && (forall k | 0 <= k < |path| :: path[k] in f.hops && path[k].decision.OwnKey?)
    && (forall k | 0 < k < |path| :: path[k - 1].receiver == path[k].giver && path[k - 1].received == path[k].given)
  }

  function ImageOf(f: Fleet, i: nat): Pcr0 {
    if i < |f.enclaves| then f.enclaves[i].pcr0 else 0
  }

  lemma HopGoesUp(w: World, f: Fleet, h: Hop)
    requires Inv(w, f) && ApprovalsTrue(w, f) && h in f.hops && h.decision.OwnKey?
    ensures h.received == h.given
    ensures ImageOf(f, h.giver) == ImageOf(f, h.receiver)
            || w.versionOf(ImageOf(f, h.giver)) < w.versionOf(ImageOf(f, h.receiver))
  {
    assert HopOk(w, f, h);
  }

  lemma {:induction false} PathGoesUp(w: World, f: Fleet, path: seq<Hop>)
    requires Inv(w, f) && ApprovalsTrue(w, f) && Path(f, path) && path != []
    ensures var first, last := ImageOf(f, path[0].giver), ImageOf(f, path[|path| - 1].receiver);
            && path[|path| - 1].received == path[0].given
            && w.versionOf(first) <= w.versionOf(last)
            && (w.versionOf(first) == w.versionOf(last) ==>
                  forall k | 0 <= k < |path| :: ImageOf(f, path[k].receiver) == first)
  {
    var n := |path| - 1;
    HopGoesUp(w, f, path[n]);
    if n > 0 {
      PathGoesUp(w, f, path[..n]);
    }
  }

  /** In every run whose approvals state true versions, a key passed along any path of
      handovers ends on an image at least as new as the one it started on, and unless the whole
      path stayed on one image, on a strictly newer one. */
  lemma KeyNeverGoesBack(w: World, actions: seq<Action>, f: Fleet, path: seq<Hop>)
    requires Run(w, actions, f) && ApprovalsTrue(w, f) && Path(f, path) && path != []
    ensures var first, last := ImageOf(f, path[0].giver), ImageOf(f, path[|path| - 1].receiver);
            || w.versionOf(first) < w.versionOf(last)
            || forall k | 0 <= k < |path| :: ImageOf(f, path[k].giver) == first && ImageOf(f, path[k].receiver) == first
  {
    RunKeeps(w, actions, f);
    PathGoesUp(w, f, path);
    var first, last := ImageOf(f, path[0].giver), ImageOf(f, path[|path| - 1].receiver);
    if w.versionOf(first) == w.versionOf(last) {
      forall k | 0 <= k < |path| ensures ImageOf(f, path[k].giver) == first {
        assert k > 0 ==> path[k].giver == path[k - 1].receiver;
      }
    }
  }

  // ----- every key comes from a mint -----

  /** The key of an enclave descends from a mint along logged hops, each passing on what the one
      before it delivered. */
  ghost predicate Lineage(f: Fleet, mint: Mint, path: seq<Hop>, i: nat, key: Key) {
    && mint in f.mints && (forall k | 0 <= k < |path| :: path[k] in f.hops)
    && (forall k | 0 < k < |path| :: path[k - 1].receiver == path[k].giver && path[k - 1].received == path[k].given)
    && if path == [] then mint.enclave == i && mint.key == key
       else path[0].giver == mint.enclave && path[0].given == mint.key
            && path[|path| - 1].receiver == i && path[|path| - 1].received == key
  }

  ghost predicate Descends(f: Fleet, i: nat, key: Key) {
    exists mint, path :: Lineage(f, mint, path, i, key)
  }

  /** Held, swept, installing and installed keys all descend from mints. */
  ghost predicate EnclaveDescends(f: Fleet, i: nat)
    requires i < |f.enclaves|
  {
    var e := f.enclaves[i];
    && (e.state.root.Some? ==> Descends(f, i, e.state.root.value))
    && (e.phase.Installing? ==> Descends(f, i, e.phase.key))
    && (e.phase.Sweeping? ==> forall a | a in e.phase.answers && a.Gave? :: Descends(f, i, a.key))
  }

  ghost predicate AllDescend(f: Fleet) {
    forall i | 0 <= i < |f.enclaves| :: EnclaveDescends(f, i)
  }

  lemma DescendsStays(f: Fleet, g: Fleet, i: nat, key: Key)
    requires f.mints <= g.mints && f.hops <= g.hops && Descends(f, i, key)
    ensures Descends(g, i, key)
  {
    var mint, path :| Lineage(f, mint, path, i, key);
    assert Lineage(g, mint, path, i, key);
  }

  lemma DescentExtends(f: Fleet, g: Fleet, i: nat, key: Key, h: Hop)
    requires f.mints <= g.mints && f.hops <= g.hops && Descends(f, i, key)
    requires h in g.hops && h.giver == i && h.given == key
    ensures Descends(g, h.receiver, h.received)
  {
    var mint, path :| Lineage(f, mint, path, i, key);
    var longer := path + [h];
    forall k | 0 < k < |longer| ensures longer[k - 1].receiver == longer[k].giver && longer[k - 1].received == longer[k].given {
      if k < |path| { assert longer[k] == path[k] && longer[k - 1] == path[k - 1]; }
    }
    assert Lineage(g, mint, longer, h.receiver, h.received);
  }

  lemma EnclaveDescentStays(f: Fleet, g: Fleet, i: nat)
    requires f.mints <= g.mints && f.hops <= g.hops
    requires i < |f.enclaves| && i < |g.enclaves| && g.enclaves[i] == f.enclaves[i] && EnclaveDescends(f, i)
    ensures EnclaveDescends(g, i)
  {
    forall key: Key | Descends(f, i, key) ensures Descends(g, i, key) { DescendsStays(f, g, i, key); }
  }

  /** It is enough to look at what a step changed or added. */
  lemma DescentBySteps(w: World, f: Fleet, a: Action, i: nat)
    requires Inv(w, f) && Enabled(w, f, a) && AllDescend(f)
    requires i <= |f.enclaves| && |Next(w, f, a).enclaves| <= |f.enclaves| + 1
    requires forall j | 0 <= j < |f.enclaves| && j != i :: Next(w, f, a).enclaves[j] == f.enclaves[j]
    requires i < |Next(w, f, a).enclaves| ==> EnclaveDescends(Next(w, f, a), i)
    requires i < |f.enclaves| ==> |Next(w, f, a).enclaves| == |f.enclaves|
    ensures AllDescend(Next(w, f, a))
  {
    var g := Next(w, f, a);
    NextExtends(w, f, a);
    forall j | 0 <= j < |g.enclaves| ensures EnclaveDescends(g, j) {
      if j != i {
        assert EnclaveDescends(f, j);
        EnclaveDescentStays(f, g, j);
      }
    }
  }

  lemma MintDescends(f: Fleet, i: nat, key: Key)
    requires Mint(i, key) in f.mints
    ensures Descends(f, i, key)
  {
    assert Lineage(f, Mint(i, key), [], i, key);
  }

  lemma EndTickDescends(w: World, f: Fleet, a: Action)
    requires Inv(w, f) && Enabled(w, f, a) && AllDescend(f) && a.EndTick?
    ensures AllDescend(Next(w, f, a))
  {
    var g := Next(w, f, a);
    NextExtends(w, f, a);
    assert EnclaveOk(w, f, a.i) && EnclaveDescends(f, a.i);
    var e := f.enclaves[a.i];
    var input := Input(e.phase.answers, a.freshApproved, a.view, a.genesis);
    var step := StepOf(Oracle, e.phase.held, input, w.addressOf);
    if step.1.Done? {
      TickKeyDescends(w, f, a.i, input);
      DescendsStays(f, g, a.i, step.1.installed.key);
    }
    assert EnclaveDescends(g, a.i);
    DescentBySteps(w, f, a, a.i);
  }

  lemma TickKeyDescends(w: World, f: Fleet, i: nat, input: Input)
    requires i < |f.enclaves| && EnclaveOk(w, f, i) && EnclaveDescends(f, i) && f.enclaves[i].phase.Sweeping?
    requires input.answers == f.enclaves[i].phase.answers
    requires StepOf(Oracle, f.enclaves[i].phase.held, input, w.addressOf).1.Done?
    ensures Descends(f, i, StepOf(Oracle, f.enclaves[i].phase.held, input, w.addressOf).1.installed.key)
  {
    var installed := StepOf(Oracle, f.enclaves[i].phase.held, input, w.addressOf).1.installed;
    if installed.Peer? {
      assert installed.key in Given(input.answers);
      GivenCameFromAnswers(input.answers, installed.key);
    } else {
      MintDescends(f, i, installed.key);
    }
  }

  lemma FetchFromDescends(w: World, f: Fleet, a: Action)
    requires Inv(w, f) && Enabled(w, f, a) && AllDescend(f) && a.FetchFrom?
    ensures AllDescend(Next(w, f, a))
  {
    var g := Next(w, f, a);
    NextExtends(w, f, a);
    var conn := f.conns[a.conn];
    assert conn in f.conns && ConnOk(f, conn);
    assert EnclaveOk(w, f, a.i) && EnclaveDescends(f, a.i) && EnclaveDescends(f, conn.server);
    forall key: Key | Descends(f, a.i, key) ensures Descends(g, a.i, key) { DescendsStays(f, g, a.i, key); }
    var d := GrantTo(w, f, f.enclaves[a.i].pcr0, conn);
    if !d.Refuse? && Accepts(f.enclaves[a.i], f.enclaves[conn.server].pcr0) {
      var h := Hop(conn.server, a.i, d, conn.key, Transferred(w, d, conn.key));
      assert h in g.hops;
      DescentExtends(f, g, conn.server, conn.key, h);
    }
    assert EnclaveDescends(g, a.i);
    DescentBySteps(w, f, a, a.i);
  }

  lemma OwnStepDescends(w: World, f: Fleet, a: Action)
    requires Inv(w, f) && Enabled(w, f, a) && AllDescend(f)
    requires a.FetchOutside? || a.FetchFault? || a.Approve? || a.Install? || a.Connect?
    ensures AllDescend(Next(w, f, a))
  {
    var g := Next(w, f, a);
    NextExtends(w, f, a);
    assert EnclaveOk(w, f, a.i) && EnclaveDescends(f, a.i);
    if a.FetchOutside? { OutsideIsRefused(w, f, a.i, a.pcr0); }
    forall key: Key | Descends(f, a.i, key) ensures Descends(g, a.i, key) { DescendsStays(f, g, a.i, key); }
    assert EnclaveDescends(g, a.i);
    DescentBySteps(w, f, a, a.i);
  }

  lemma OtherStepDescends(w: World, f: Fleet, a: Action)
    requires Inv(w, f) && Enabled(w, f, a) && AllDescend(f)
    requires a.Launch? || a.Register? || a.ServeOutside?
    ensures AllDescend(Next(w, f, a))
  {
    DescentBySteps(w, f, a, |f.enclaves|);
  }

  lemma NextDescends(w: World, f: Fleet, a: Action)
    requires Inv(w, f) && Enabled(w, f, a) && AllDescend(f)
    ensures AllDescend(Next(w, f, a))
  {
    match a
    case FetchFrom(_, _) => FetchFromDescends(w, f, a);
    case EndTick(_, _, _, _) => EndTickDescends(w, f, a);
    case Launch(_, _) => OtherStepDescends(w, f, a);
    case Register(_) => OtherStepDescends(w, f, a);
    case ServeOutside(_, _) => OtherStepDescends(w, f, a);
    case _ => OwnStepDescends(w, f, a);
  }

  lemma {:induction false} RunDescends(w: World, actions: seq<Action>, f: Fleet)
    requires Run(w, actions, f)
    ensures AllDescend(f)
  {
    if actions != [] {
      var n := |actions| - 1;
      var g :| Run(w, actions[..n], g) && Enabled(w, g, actions[n]) && f == Next(w, g, actions[n]);
      RunKeeps(w, actions[..n], g);
      RunDescends(w, actions[..n], g);
      NextDescends(w, g, actions[n]);
    }
  }

  /** In every run an installed key descends from a mint along logged hops; and when the approvals
      state true versions and every hop passed the key itself, it is the minted key, on an image no
      older than the one that minted it. */
  lemma InstalledKeyDescends(w: World, actions: seq<Action>, f: Fleet, i: nat) returns (mint: Mint, path: seq<Hop>)
    requires Run(w, actions, f) && i < |f.enclaves| && f.enclaves[i].state.root.Some?
    ensures Lineage(f, mint, path, i, f.enclaves[i].state.root.value)
    ensures ApprovalsTrue(w, f) && (forall k | 0 <= k < |path| :: path[k].decision.OwnKey?) ==>
              f.enclaves[i].state.root.value == mint.key
              && w.versionOf(ImageOf(f, mint.enclave)) <= w.versionOf(ImageOf(f, i))
  {
    RunKeeps(w, actions, f);
    RunDescends(w, actions, f);
    assert EnclaveDescends(f, i);
    mint, path :| Lineage(f, mint, path, i, f.enclaves[i].state.root.value);
    if ApprovalsTrue(w, f) && (forall k | 0 <= k < |path| :: path[k].decision.OwnKey?) && path != [] {
      PathGoesUp(w, f, path);
    }
  }
}
