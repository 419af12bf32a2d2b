/** The relayer's serial transaction queue. The drain loop is cut at the points where it
    suspends; between them pushes and completions of other work may happen. */
module TxQueues {
  import opened Wrappers

  const MAX_RETRIES: nat := 3

  /** A queued transaction; `id` is the identity of the queued object. */
  datatype Intent = Intent(id: nat, text: string, retries: nat)

  datatype Status = Confirmed | Reverted | Failed

  datatype Completion = Completion(intent: Intent, status: Status)

  /** Where the drain loop is suspended: not running, between two iterations, or inside a send,
      either waiting for the chain or for the retry delay. */
  datatype Drainer = Off | Looping | Sending(intent: Intent) | Sleeping(intent: Intent)

  /** A transaction the node accepted, with the nonce used and how often the nonce had been
      read from the chain by then. */
  datatype Sent = Sent(id: nat, nonce: nat, syncs: nat)

  /** The tracked nonce, how often it was read from the chain, and what was accepted. */
  datatype Track = Track(nonce: Option<nat>, syncs: nat, sent: seq<Sent>)

  datatype Queue = Queue(queue: seq<Intent>, drainer: Drainer, track: Track,
                         pushed: nat, attempts: seq<nat>, done: seq<Completion>)

  const EMPTY: Queue := Queue([], Off, Track(None, 0, []), 0, [], [])

  /** How the loop reads an error: a contract revert, a nonce problem, or anything else. */
  datatype Fault = ContractRevert | NonceIssue | OtherFault

  /** What the node does with one attempt: the nonce read fails, the submission is refused, the
      wait for the receipt fails, or the transaction is mined. */
  datatype Reply = SyncFailed(fault: Fault) | SendFailed(fault: Fault) | WaitFailed(fault: Fault) | Mined(success: bool)

  // ----- errors -----

  const NULL_RECEIPT: string := "Receipt is null \U{2014} TX dropped"

  predicate Contains(s: string, part: string) {
    part <= s || (s != [] && Contains(s[1..], part))
  }

  predicate IsContractRevert(message: string) {
    || Contains(message, "StalePrice") || Contains(message, "UpdateTooFrequent")
    || Contains(message, "PriceChangeExceedsLimit") || Contains(message, "InvalidSignature")
    || Contains(message, "NoEnclaveRegistered") || Contains(message, "revert") || Contains(message, "CALL_EXCEPTION")
  }

  function FaultOf(message: string): Fault {
    if IsContractRevert(message) then ContractRevert
    else if Contains(message, "nonce") || Contains(message, "replacement") then NonceIssue
    else OtherFault
  }

  // ----- steps -----

  function Taken(q: Queue): Queue {
    if q.queue == [] then q.(drainer := Off)
    else q.(queue := q.queue[1..], drainer := Sending(q.queue[0]))
  }

  /** Appends, and starts the drain loop if none runs. */
  function Pushed(q: Queue, text: string): Queue {
    var q' := q.(queue := q.queue + [Intent(q.pushed, text, 0)], pushed := q.pushed + 1);
    if q.drainer == Off then Taken(q') else q'
  }

  function Completed(q: Queue, intent: Intent, status: Status): Queue {
    q.(drainer := Looping, done := q.done + [Completion(intent, status)])
  }

  function Caught(q: Queue, intent: Intent, fault: Fault): Queue {
    if fault == ContractRevert then Completed(q, intent, Reverted)
    else
      var q' := if fault == NonceIssue then q.(track := q.track.(nonce := None)) else q;
      if intent.retries < MAX_RETRIES - 1 then q'.(drainer := Sleeping(intent.(retries := intent.retries + 1)))
      else Completed(q', intent, Failed)
  }

  /** The nonce is read from the chain when none is tracked. */
  function Synced(t: Track, chainNonce: nat): (r: Track)
    ensures r.nonce.Some?
  {
    if t.nonce.Some? then t else t.(nonce := Some(chainNonce), syncs := t.syncs + 1)
  }

  function Submitted(t: Track, id: nat): Track
    requires t.nonce.Some?
  {
    Track(Some(t.nonce.value + 1), t.syncs, t.sent + [Sent(id, t.nonce.value, t.syncs)])
  }

  function Resolved(q: Queue, intent: Intent, reply: Reply, chainNonce: nat): Queue {
    var synced := Synced(q.track, chainNonce);
    var submitted := Submitted(synced, intent.id);
    match reply
    case SyncFailed(fault) => Caught(q, intent, fault)
    case SendFailed(fault) => Caught(q.(track := synced), intent, fault)
    case WaitFailed(fault) => Caught(q.(track := submitted), intent, fault)
    case Mined(success) => Completed(q.(track := submitted), intent, if success then Confirmed else Reverted)
  }

  /** One whole attempt at the intent in hand. */
  function Attempted(q: Queue, reply: Reply, chainNonce: nat): Queue
    requires q.drainer.Sending?
  {
    var intent := q.drainer.intent;
    Resolved(q.(attempts := q.attempts + [intent.id]), intent, reply, chainNonce)
  }

  /** After the retry delay the intent goes back to the head. */
  function Woken(q: Queue): Queue
    requires q.drainer.Sleeping?
  {
    q.(queue := [q.drainer.intent] + q.queue, drainer := Looping)
  }

  datatype Event = Push(text: string) | Attempt(reply: Reply, chainNonce: nat) | Wake | Loop

  function Next(q: Queue, e: Event): Queue {
    match e
    case Push(text) => Pushed(q, text)
    case Attempt(reply, chainNonce) => if q.drainer.Sending? then Attempted(q, reply, chainNonce) else q
    case Wake => if q.drainer.Sleeping? then Woken(q) else q
    case Loop => if q.drainer.Looping? then Taken(q) else q
  }

  function Run(events: seq<Event>): Queue {
    if events == [] then EMPTY else Next(Run(events[..|events| - 1]), events[|events| - 1])
  }

  // ----- what every step keeps -----

  /** Pushed and not completed, in the order they will be handled. */
  function Outstanding(q: Queue): seq<Intent> {
    if q.drainer.Sending? || q.drainer.Sleeping? then [q.drainer.intent] + q.queue else q.queue
  }

  function Count(ids: seq<nat>, id: nat): nat {
    if ids == [] then 0 else Count(ids[..|ids| - 1], id) + if ids[|ids| - 1] == id then 1 else 0
  }

  ghost predicate InOrder(q: Queue) {
    && |q.done| + |Outstanding(q)| == q.pushed
    && (forall i | 0 <= i < |q.done| :: q.done[i].intent.id == i)
    && (forall i | 0 <= i < |Outstanding(q)| :: Outstanding(q)[i].id == |q.done| + i)
    && (q.drainer == Off ==> q.queue == [])
  }

  /** Every completed intent had between one and three attempts, an outstanding one as many as it
      has retries, and no other any. */
  ghost predicate Counts(attempts: seq<nat>, done: nat, out: seq<Intent>, pushed: nat) {
    && (forall i | 0 <= i < done :: 1 <= Count(attempts, i) <= MAX_RETRIES)
    && (forall i | 0 <= i < |out| :: out[i].retries < MAX_RETRIES && Count(attempts, done + i) == out[i].retries)
    && (forall id | id >= pushed :: Count(attempts, id) == 0)
  }

  ghost predicate Counted(q: Queue) {
    Counts(q.attempts, |q.done|, Outstanding(q), q.pushed)
  }

  lemma CountPush(ids: seq<nat>, id: nat, last: nat)
    ensures Count(ids + [last], id) == Count(ids, id) + if last == id then 1 else 0
  {
    assert (ids + [last])[..|ids + [last]| - 1] == ids;
  }

  /** An attempt either completes the intent in hand or, while retries are left, puts it to
      sleep with one retry more. */
  lemma AttemptFacts(q: Queue, reply: Reply, chainNonce: nat)
    requires q.drainer.Sending?
    ensures var intent, q' := q.drainer.intent, Attempted(q, reply, chainNonce);
            && q'.queue == q.queue && q'.pushed == q.pushed && q'.attempts == q.attempts + [intent.id]
            && if q'.drainer.Looping? then |q'.done| == |q.done| + 1 && q'.done[..|q.done|] == q.done && q'.done[|q.done|].intent == intent
               else q'.drainer == Sleeping(intent.(retries := intent.retries + 1)) && intent.retries < MAX_RETRIES - 1 && q'.done == q.done
  {
  }

  lemma OutstandingShrinks(q: Queue, q': Queue)
    requires q.drainer.Sending? && q'.drainer.Looping? && q'.queue == q.queue
    ensures Outstanding(q)[0] == q.drainer.intent && Outstanding(q') == Outstanding(q)[1..]
  {
  }

  lemma AttemptKeepsOrder(q: Queue, reply: Reply, chainNonce: nat)
    requires InOrder(q) && q.drainer.Sending?
    ensures InOrder(Attempted(q, reply, chainNonce))
  {
    var q' := Attempted(q, reply, chainNonce);
    AttemptFacts(q, reply, chainNonce);
    assert Outstanding(q)[0] == q.drainer.intent;
    if q'.drainer.Looping? {
      OutstandingShrinks(q, q');
      forall i | 0 <= i < |q'.done| ensures q'.done[i].intent.id == i {
        if i < |q.done| { assert q'.done[..|q.done|][i] == q.done[i]; }
      }
    } else {
      assert Outstanding(q')[1..] == Outstanding(q)[1..];
      forall i | 0 <= i < |Outstanding(q')| ensures Outstanding(q')[i].id == |q'.done| + i {
        if i > 0 { assert Outstanding(q')[1..][i - 1] == Outstanding(q)[1..][i - 1] == Outstanding(q)[i]; }
      }
    }
  }

  lemma MovesKeepOutstanding(q: Queue, e: Event)
    requires e.Wake? || e.Loop?
    ensures Outstanding(Next(q, e)) == Outstanding(q)
  {
  }

  lemma PushAppends(q: Queue, text: string)
    requires q.drainer == Off ==> q.queue == []
    ensures Outstanding(Pushed(q, text)) == Outstanding(q) + [Intent(q.pushed, text, 0)]
  {
  }

  lemma NextKeepsOrder(q: Queue, e: Event)
    requires InOrder(q)
    ensures InOrder(Next(q, e))
  {
    match e {
      case Push(text) => PushAppends(q, text);
      case Attempt(reply, chainNonce) =>
        if q.drainer.Sending? { AttemptKeepsOrder(q, reply, chainNonce); }
      case _ => MovesKeepOutstanding(q, e);
    }
  }

  lemma CountAttempt(q: Queue, q': Queue, id: nat)
    requires q'.attempts == q.attempts + [id]
    ensures forall other: nat :: Count(q'.attempts, other) == Count(q.attempts, other) + if id == other then 1 else 0
  {
    forall other: nat ensures Count(q'.attempts, other) == Count(q.attempts, other) + if id == other then 1 else 0 {
      CountPush(q.attempts, other, id);
    }
  }

  /** What an attempt does to the counts, for either of its two results. */
  lemma SettledKeepsCounts(q: Queue, q': Queue)
    requires InOrder(q) && Counted(q) && q.drainer.Sending? && q'.pushed == q.pushed && q'.queue == q.queue
    requires q'.attempts == q.attempts + [q.drainer.intent.id]
    requires q'.drainer.Looping? && |q'.done| == |q.done| + 1
    ensures Counted(q')
  {
    OutstandingShrinks(q, q');
    CountAttempt(q, q', |q.done|);
    assert Count(q.attempts, |q.done| + 0) == Outstanding(q)[0].retries < MAX_RETRIES;
    forall i | 0 <= i < |Outstanding(q')|
      ensures Outstanding(q')[i].retries < MAX_RETRIES && Count(q'.attempts, |q'.done| + i) == Outstanding(q')[i].retries
    {
      assert Outstanding(q')[i] == Outstanding(q)[i + 1];
      assert Count(q.attempts, |q.done| + (i + 1)) == Outstanding(q)[i + 1].retries;
    }
  }

  lemma DelayedKeepsCounts(q: Queue, q': Queue)
    requires InOrder(q) && Counted(q) && q.drainer.Sending? && q'.pushed == q.pushed && q'.queue == q.queue
    requires q'.attempts == q.attempts + [q.drainer.intent.id] && q'.done == q.done
    requires q.drainer.intent.retries < MAX_RETRIES - 1
    requires q'.drainer == Sleeping(q.drainer.intent.(retries := q.drainer.intent.retries + 1))
    ensures Counted(q')
  {
    assert Outstanding(q)[0] == q.drainer.intent;
    CountAttempt(q, q', |q.done|);
    assert Count(q.attempts, |q.done| + 0) == Outstanding(q)[0].retries;
    forall i | 0 <= i < |Outstanding(q')|
      ensures Outstanding(q')[i].retries < MAX_RETRIES && Count(q'.attempts, |q'.done| + i) == Outstanding(q')[i].retries
    {
      if i > 0 {
        assert Outstanding(q')[i] == Outstanding(q)[i];
        assert Count(q.attempts, |q.done| + i) == Outstanding(q)[i].retries;
      }
    }
  }

  lemma AttemptKeepsCounts(q: Queue, reply: Reply, chainNonce: nat)
    requires InOrder(q) && Counted(q) && q.drainer.Sending?
    ensures Counted(Attempted(q, reply, chainNonce))
  {
    var q' := Attempted(q, reply, chainNonce);
    AttemptFacts(q, reply, chainNonce);
    if q'.drainer.Looping? {
      SettledKeepsCounts(q, q');
    } else {
      DelayedKeepsCounts(q, q');
    }
  }

  lemma PushKeepsCounts(q: Queue, text: string)
    requires InOrder(q) && Counted(q)
    ensures Counted(Pushed(q, text))
  {
    PushAppends(q, text);
    var q' := Pushed(q, text);
    assert q'.attempts == q.attempts && q'.done == q.done && q'.pushed == q.pushed + 1;
    assert Count(q.attempts, q.pushed) == 0;
  }

  lemma MovesKeepCounts(q: Queue, e: Event)
    requires Counted(q) && (e.Wake? || e.Loop?)
    ensures Counted(Next(q, e))
  {
    MovesKeepOutstanding(q, e);
    var q' := Next(q, e);
    assert q'.attempts == q.attempts && q'.done == q.done && q'.pushed == q.pushed;
  }

  lemma NextKeepsCounts(q: Queue, e: Event)
    requires InOrder(q) && Counted(q)
    ensures Counted(Next(q, e))
  {
    match e {
      case Push(text) => PushKeepsCounts(q, text);
      case Attempt(reply, chainNonce) =>
        if q.drainer.Sending? { AttemptKeepsCounts(q, reply, chainNonce); }
      case _ => MovesKeepCounts(q, e);
    }
  }

  lemma {:induction false} RunKeeps(events: seq<Event>)
    ensures InOrder(Run(events)) && Counted(Run(events))
  {
    if events != [] {
      RunKeeps(events[..|events| - 1]);
      NextKeepsOrder(Run(events[..|events| - 1]), events[|events| - 1]);
      NextKeepsCounts(Run(events[..|events| - 1]), events[|events| - 1]);
    }
  }

  /** Over every run: the n-th intent to complete is the n-th pushed, so each completes at most
      once and in push order despite retries; completed and outstanding together are all that
      was pushed; and while anything is outstanding the drain loop runs. */
  lemma CompletesInPushOrder(events: seq<Event>)
    ensures var q := Run(events);
            && (forall i | 0 <= i < |q.done| :: q.done[i].intent.id == i)
            && |q.done| + |Outstanding(q)| == q.pushed
            && (Outstanding(q) != [] ==> q.drainer != Off)
  {
    RunKeeps(events);
  }

  /** No intent is sent more than three times, and none completes unsent. */
  lemma SentAtMostThrice(events: seq<Event>, id: nat)
    ensures Count(Run(events).attempts, id) <= MAX_RETRIES
    ensures id < |Run(events).done| ==> Count(Run(events).attempts, id) >= 1
  {
    RunKeeps(events);
    CountedIsBounded(Run(events), id);
  }

  lemma CountedIsBounded(q: Queue, id: nat)
    requires InOrder(q) && Counted(q)
    ensures Count(q.attempts, id) <= MAX_RETRIES
    ensures id < |q.done| ==> Count(q.attempts, id) >= 1
  {
    if |q.done| <= id < q.pushed {
      var i := id - |q.done|;
      assert Outstanding(q)[i].retries < MAX_RETRIES && Count(q.attempts, |q.done| + i) == Outstanding(q)[i].retries;
    }
  }

  // ----- nonces -----

  /** Nonces accepted since one chain read are consecutive, and the tracked nonce is the next. */
  ghost predicate Sequenced(t: Track) {
    && (forall i | 0 < i < |t.sent| && t.sent[i].syncs == t.sent[i - 1].syncs :: t.sent[i].nonce == t.sent[i - 1].nonce + 1)
    && (forall i | 0 <= i < |t.sent| :: t.sent[i].syncs <= t.syncs)
    && (t.nonce.Some? && t.sent != [] && t.sent[|t.sent| - 1].syncs == t.syncs ==>
          t.nonce.value == t.sent[|t.sent| - 1].nonce + 1)
  }

  lemma SubmitKeepsNonces(t: Track, id: nat)
    requires Sequenced(t) && t.nonce.Some?
    ensures Sequenced(Submitted(t, id))
  {
    var t' := Submitted(t, id);
    forall i | 0 < i < |t'.sent| && t'.sent[i].syncs == t'.sent[i - 1].syncs
      ensures t'.sent[i].nonce == t'.sent[i - 1].nonce + 1
    {
      if i < |t.sent| {
        assert t'.sent[i] == t.sent[i] && t'.sent[i - 1] == t.sent[i - 1];
      }
    }
  }

  lemma SyncKeepsNonces(t: Track, chainNonce: nat)
    requires Sequenced(t)
    ensures Sequenced(Synced(t, chainNonce)) && Sequenced(t.(nonce := None))
  {
  }

  lemma CatchKeepsNonces(q: Queue, intent: Intent, fault: Fault)
    requires Sequenced(q.track)
    ensures Sequenced(Caught(q, intent, fault).track)
  {
    SyncKeepsNonces(q.track, 0);
  }

  lemma AttemptKeepsNonces(q: Queue, intent: Intent, reply: Reply, chainNonce: nat)
    requires Sequenced(q.track)
    ensures Sequenced(Resolved(q, intent, reply, chainNonce).track)
  {
    var synced := Synced(q.track, chainNonce);
    SyncKeepsNonces(q.track, chainNonce);
    SubmitKeepsNonces(synced, intent.id);
    match reply {
      case SyncFailed(fault) => CatchKeepsNonces(q, intent, fault);
      case SendFailed(fault) => CatchKeepsNonces(q.(track := synced), intent, fault);
      case WaitFailed(fault) => CatchKeepsNonces(q.(track := Submitted(synced, intent.id)), intent, fault);
      case Mined(_) =>
    }
  }

  lemma NextKeepsNonces(q: Queue, e: Event)
    requires Sequenced(q.track)
    ensures Sequenced(Next(q, e).track)
  {
    if e.Attempt? && q.drainer.Sending? {
      AttemptKeepsNonces(q.(attempts := q.attempts + [q.drainer.intent.id]), q.drainer.intent, e.reply, e.chainNonce);
    } else {
      assert Next(q, e).track == q.track;
    }
  }

  /** Over every run, transactions accepted without a chain read between them carry consecutive
      nonces, so no nonce is used twice in between. */
  lemma {:induction false} NoncesAreConsecutive(events: seq<Event>)
    ensures Sequenced(Run(events).track)
  {
    if events != [] {
      NoncesAreConsecutive(events[..|events| - 1]);
      NextKeepsNonces(Run(events[..|events| - 1]), events[|events| - 1]);
    }
  }

  // ----- the drain loop ends -----

  /** Steps left for the intents: at most three per remaining attempt. */
  function Work(s: seq<Intent>): int {
    if s == [] then 0 else Work(s[..|s| - 1]) + 3 * (MAX_RETRIES - s[|s| - 1].retries)
  }

  lemma {:induction false} WorkSplit(head: Intent, s: seq<Intent>)
    ensures Work([head] + s) == 3 * (MAX_RETRIES - head.retries) + Work(s)
  {
    if s == [] {
      assert [head] + s == [head] && [head][..0] == [];
    } else {
      WorkSplit(head, s[..|s| - 1]);
      assert ([head] + s)[..|[head] + s| - 1] == [head] + s[..|s| - 1];
    }
  }

  ghost predicate Bounded(q: Queue) {
    forall i | 0 <= i < |Outstanding(q)| :: Outstanding(q)[i].retries < MAX_RETRIES
  }

  lemma {:induction false} WorkIsPositive(s: seq<Intent>)
    requires forall i | 0 <= i < |s| :: s[i].retries < MAX_RETRIES
    ensures Work(s) >= 3 * |s|
  {
    if s != [] { WorkIsPositive(s[..|s| - 1]); }
  }

  function Measure(q: Queue): int {
    Work(q.queue) +
    match q.drainer
    case Off => 0
    case Looping => 1
    case Sending(intent) => 3 * (MAX_RETRIES - intent.retries)
    case Sleeping(intent) => 3 * (MAX_RETRIES - intent.retries) + 2
  }

  /** The step the suspended loop takes next. */
  function Resume(q: Queue, reply: Reply, chainNonce: nat): Event {
    match q.drainer
    case Sending(_) => Attempt(reply, chainNonce)
    case Sleeping(_) => Wake
    case _ => Loop
  }

  /** Whatever the node answers, every step of the loop brings it closer to its end. */
  lemma ResumeDecreases(q: Queue, reply: Reply, chainNonce: nat)
    requires Bounded(q) && q.drainer != Off
    ensures 0 <= Measure(Next(q, Resume(q, reply, chainNonce))) < Measure(q)
  {
    var q' := Next(q, Resume(q, reply, chainNonce));
    BoundedQueue(q);
    WorkIsPositive(q.queue);
    match q.drainer {
      case Looping =>
        if q.queue != [] {
          assert [q.queue[0]] + q.queue[1..] == q.queue;
          WorkSplit(q.queue[0], q.queue[1..]);
          WorkIsPositive(q.queue[1..]);
        }
      case Sending(intent) =>
        AttemptFacts(q, reply, chainNonce);
        assert Outstanding(q)[0] == intent;
      case Sleeping(intent) =>
        assert Outstanding(q)[0] == intent;
        WorkSplit(intent, q.queue);
    }
  }

  /** A step of the loop either completes the first outstanding intent or leaves the labels of
      the outstanding ones as they are. */
  lemma ResumeFacts(q: Queue, reply: Reply, chainNonce: nat)
    ensures var out, q' := Outstanding(q), Next(q, Resume(q, reply, chainNonce));
            if |q'.done| > |q.done| then
              out != [] && q'.done[|q.done|].intent == out[0] && Outstanding(q') == out[1..]
            else |Outstanding(q')| == |out| && forall i | 0 <= i < |out| :: Outstanding(q')[i].text == out[i].text
  {
    var e := Resume(q, reply, chainNonce);
    if q.drainer.Sending? {
      var q' := Attempted(q, reply, chainNonce);
      AttemptFacts(q, reply, chainNonce);
      if q'.drainer.Looping? {
        OutstandingShrinks(q, q');
      }
    } else {
      MovesKeepOutstanding(q, e);
    }
  }

  lemma BoundedQueue(q: Queue)
    requires Bounded(q)
    ensures forall i | 0 <= i < |q.queue| :: q.queue[i].retries < MAX_RETRIES
  {
    forall i | 0 <= i < |q.queue| ensures q.queue[i].retries < MAX_RETRIES {
      var k := if q.drainer.Sending? || q.drainer.Sleeping? then i + 1 else i;
      assert Outstanding(q)[k] == q.queue[i];
    }
  }

  // ----- the class -----

  /** The node's replies with their error messages. */
  datatype NodeReply = NonceError(message: string) | SubmitError(message: string) | WaitError(message: string)
    | NoReceipt | Receipt(success: bool)

  function Read(reply: NodeReply): Reply {
    match reply
    case NonceError(message) => SyncFailed(FaultOf(message))
    case SubmitError(message) => SendFailed(FaultOf(message))
    case WaitError(message) => WaitFailed(FaultOf(message))
    case NoReceipt => WaitFailed(FaultOf(NULL_RECEIPT))
    case Receipt(success) => Mined(success)
  }

  class TxQueue {
    var queue: seq<Intent>
    var drainer: Drainer
    var nonce: Option<nat>
    var pushed: nat
    ghost var syncs: nat
    ghost var attempts: seq<nat>
    ghost var sent: seq<Sent>
    ghost var done: seq<Completion>

    ghost function View(): Queue
      reads this
    {
      Queue(queue, drainer, Track(nonce, syncs, sent), pushed, attempts, done)
    }

    constructor ()
      ensures View() == EMPTY
    {
      queue, drainer, nonce, pushed := [], Off, None, 0;
      syncs, attempts, sent, done := 0, [], [], [];
    }

    method Push(text: string)
      modifies this
      ensures View() == Pushed(old(View()), text)
    {
      queue := queue + [Intent(pushed, text, 0)];
      pushed := pushed + 1;
      if drainer == Off {
        Loop();
      }
    }

    /** The head of the drain loop. */
    method Loop()
      modifies this
      ensures View() == Taken(old(View()))
    {
      if queue == [] {
        drainer := Off;
      } else {
        drainer := Sending(queue[0]);
        queue := queue[1..];
      }
    }

    method Complete(intent: Intent, status: Status)
      modifies this
      ensures View() == Completed(old(View()), intent, status)
    {
      done := done + [Completion(intent, status)];
      drainer := Looping;
    }

    /** One attempt at the intent in hand, up to the callback or the retry delay. */
    method Send(reply: Reply, chainNonce: nat)
      requires drainer.Sending?
      modifies this
      ensures View() == Attempted(old(View()), reply, chainNonce)
    {
      var intent := drainer.intent;
      attempts := attempts + [intent.id];
      if reply.SyncFailed? {
        Catch(intent, reply.fault);
        return;
      }
      if nonce.None? {
        nonce := Some(chainNonce);
        syncs := syncs + 1;
      }
      if reply.SendFailed? {
        Catch(intent, reply.fault);
        return;
      }
      sent := sent + [Sent(intent.id, nonce.value, syncs)];
      nonce := Some(nonce.value + 1);
      if reply.WaitFailed? {
        Catch(intent, reply.fault);
      } else {
        Complete(intent, if reply.success then Confirmed else Reverted);
      }
    }

    method Catch(intent: Intent, fault: Fault)
      modifies this
      ensures View() == Caught(old(View()), intent, fault)
    {
      if fault == ContractRevert {
        Complete(intent, Reverted);
        return;
      }
      if fault == NonceIssue {
        nonce := None;
      }
      if intent.retries < MAX_RETRIES - 1 {
        drainer := Sleeping(intent.(retries := intent.retries + 1));
      } else {
        Complete(intent, Failed);
      }
    }

    /** One turn of the loop from where it is suspended. */
    method Turn(reply: Reply, chainNonce: nat)
      requires drainer != Off
      modifies this
      ensures View() == Next(old(View()), Resume(old(View()), reply, chainNonce))
    {
      match drainer {
        case Looping =>
          Loop();
        case Sending(_) =>
          Send(reply, chainNonce);
        case Sleeping(intent) =>
          queue := [intent] + queue;
          drainer := Looping;
      }
    }

    /** Run the loop to its end with nothing pushed meanwhile: whatever the node answers,
        everything outstanding completes, in order. */
    method Drain(replies: nat -> NodeReply, chainNonce: nat -> nat)
      requires InOrder(View()) && Counted(View())
      modifies this
      ensures InOrder(View()) && Counted(View())
      ensures drainer == Off && queue == [] && |done| == pushed == old(pushed)
    {
      var n := 0;
      while drainer != Off
        invariant InOrder(View()) && Counted(View()) && pushed == old(pushed)
        decreases Measure(View())
      {
        var reply := Read(replies(n));
        TurnKeeps(View(), reply, chainNonce(n));
        Turn(reply, chainNonce(n));
        n := n + 1;
      }
    }
  }

  lemma TurnKeeps(q: Queue, reply: Reply, chainNonce: nat)
    requires InOrder(q) && Counted(q) && q.drainer != Off
    ensures var q' := Next(q, Resume(q, reply, chainNonce));
            InOrder(q') && Counted(q') && q'.pushed == q.pushed && 0 <= Measure(q') < Measure(q)
  {
    var e := Resume(q, reply, chainNonce);
    NextKeepsOrder(q, e);
    NextKeepsCounts(q, e);
    ResumeDecreases(q, reply, chainNonce);
    TurnPushesNothing(q, reply, chainNonce);
  }

  lemma TurnPushesNothing(q: Queue, reply: Reply, chainNonce: nat)
    ensures Next(q, Resume(q, reply, chainNonce)).pushed == q.pushed
  {
    if q.drainer.Sending? { AttemptFacts(q, reply, chainNonce); }
  }
}
