/**
  The bounded hand-off from the reading thread to its consumer, as a state machine whose
  steps are the atomic actions of one sender and one receiver, interleaved in any way.
 */
module OutputQueue {
  const OUTPUT_QUEUE_BYTES: nat := 16 * 1024 * 1024
  const OUTPUT_QUEUE_ITEMS: nat := 128

  datatype Envelope<T> = Envelope(value: T, size: nat)

  /** Where `send` stands. */
  datatype Sending<T> =
    | NotSending
    | Checked(e: Envelope<T>)    // the failure flag was seen clear
    | Reserved(e: Envelope<T>)   // the bytes are reserved, the envelope exists
    | Bounced(e: Envelope<T>)    // the channel gave the envelope back
    | MustFail                   // about to raise the failure flag

  /** Where `recv_timeout` stands. */
  datatype Receiving<T> =
    | NotReceiving
    | Ready                      // the failure flag was seen clear
    | Holding(e: Envelope<T>)    // an envelope was taken from the channel
    | Dropping(e: Envelope<T>)   // its value was returned or discarded

  /**
    The shared state (`used`, `failed`, the channel), both program counters, and what has
    happened: values offered to `send`, its answers, envelopes that entered and left the
    channel, values returned by `recv_timeout`.
   */
  datatype State<T> = State(
    used: nat, failed: bool, connected: bool, queue: seq<Envelope<T>>,
    sending: Sending<T>, receiving: Receiving<T>,
    offered: seq<Envelope<T>>, answers: seq<bool>,
    entered: seq<Envelope<T>>, taken: seq<Envelope<T>>, received: seq<T>)

  datatype Step<T> =
    | BeginSend(e: Envelope<T>) | ContinueSend
    | BeginReceive | ContinueReceive | TimeOut
    | Disconnect | Drain

  function Initial<T>(): State<T> {
    State(0, false, true, [], NotSending, NotReceiving, [], [], [], [], [])
  }

  function Minus(a: nat, b: nat): nat {
    if b <= a then a - b else 0
  }

  /** `send`, one atomic action at a time. */
  function Send<T>(s: State<T>, step: Step<T>): State<T> {
    match (s.sending, step)
    case (NotSending, BeginSend(e)) =>
      if s.failed then s.(offered := s.offered + [e], answers := s.answers + [false])
      else s.(offered := s.offered + [e], sending := Checked(e))
    case (Checked(e), ContinueSend) =>
      if s.used + e.size <= OUTPUT_QUEUE_BYTES then s.(used := s.used + e.size, sending := Reserved(e))
      else s.(sending := MustFail)
    case (Reserved(e), ContinueSend) =>
      if s.connected && |s.queue| < OUTPUT_QUEUE_ITEMS then
        s.(queue := s.queue + [e], entered := s.entered + [e], answers := s.answers + [true], sending := NotSending)
      else s.(sending := Bounced(e))
    case (Bounced(e), ContinueSend) => s.(used := Minus(s.used, e.size), sending := MustFail)
    case (MustFail, ContinueSend) => s.(failed := true, answers := s.answers + [false], sending := NotSending)
    case _ => s
  }

  /** `recv_timeout` and dropping the receiver, one atomic action at a time. */
  function Receive<T>(s: State<T>, step: Step<T>): State<T> {
    match (s.receiving, step)
    case (NotReceiving, BeginReceive) => if s.failed || !s.connected then s else s.(receiving := Ready)
    case (Ready, ContinueReceive) =>
      if s.queue == [] then s
      else s.(receiving := Holding(s.queue[0]), queue := s.queue[1..], taken := s.taken + [s.queue[0]])
    case (Ready, TimeOut) => s.(receiving := NotReceiving)
    case (Holding(e), ContinueReceive) =>
      if s.failed then s.(receiving := Dropping(e))
      else s.(receiving := Dropping(e), received := s.received + [e.value])
    case (Dropping(e), ContinueReceive) => s.(used := Minus(s.used, e.size), receiving := NotReceiving)
    case (NotReceiving, Disconnect) => s.(connected := false)
    case (NotReceiving, Drain) =>
      if s.connected || s.queue == [] then s
      else s.(used := Minus(s.used, s.queue[0].size), queue := s.queue[1..])
    case _ => s
  }

  function Next<T>(s: State<T>, step: Step<T>): State<T> {
    if step.BeginSend? || step.ContinueSend? then Send(s, step) else Receive(s, step)
  }

  function Run<T>(s: State<T>, schedule: seq<Step<T>>): State<T>
    decreases |schedule|
  {
    if schedule == [] then s else Run(Next(s, schedule[0]), schedule[1..])
  }

  // ---------------------------------------------------------------- what every interleaving keeps

  function Sizes<T>(queue: seq<Envelope<T>>): nat {
    if queue == [] then 0 else queue[0].size + Sizes(queue[1..])
  }

  function Values<T>(envelopes: seq<Envelope<T>>): (r: seq<T>)
    ensures |r| == |envelopes| && forall i :: 0 <= i < |r| ==> r[i] == envelopes[i].value
  {
    seq(|envelopes|, i requires 0 <= i < |envelopes| => envelopes[i].value)
  }

  function SenderHolds<T>(p: Sending<T>): nat {
    if p.Reserved? || p.Bounced? then p.e.size else 0
  }

  function ReceiverHolds<T>(p: Receiving<T>): nat {
    if p.Holding? || p.Dropping? then p.e.size else 0
  }

  /** Total size of the envelopes that exist. */
  function Live<T>(s: State<T>): nat {
    SenderHolds(s.sending) + Sizes(s.queue) + ReceiverHolds(s.receiving)
  }

  /** The byte budget and the item budget. */
  ghost predicate Budgeted<T>(s: State<T>) {
    s.used == Live(s) && s.used <= OUTPUT_QUEUE_BYTES && |s.queue| <= OUTPUT_QUEUE_ITEMS
  }

  /** Offered values enter the channel in order, until one fails; the answers say which. */
  ghost predicate EntersInOrder<T>(s: State<T>) {
    && |s.entered| <= |s.offered| && s.offered[..|s.entered|] == s.entered
    && |s.answers| + (if s.sending.NotSending? then 0 else 1) == |s.offered|
    && (forall i :: 0 <= i < |s.answers| ==> (s.answers[i] <==> i < |s.entered|))
    && (s.sending.NotSending? && !s.failed ==> s.entered == s.offered)
    && (!s.sending.NotSending? ==> !s.failed && |s.entered| == |s.offered| - 1)
    && (s.sending.Checked? || s.sending.Reserved? || s.sending.Bounced? ==> s.offered[|s.entered|] == s.sending.e)
  }

  /** Envelopes leave the channel in order, and their values are returned without a gap. */
  ghost predicate LeavesInOrder<T>(s: State<T>) {
    && |s.taken| <= |s.entered| && s.entered[..|s.taken|] == s.taken
    && (s.connected ==> s.entered == s.taken + s.queue)
    && |s.received| <= |s.taken| <= |s.received| + 1
    && s.received == Values(s.taken)[..|s.received|]
    && (s.receiving.Ready? ==> s.connected && |s.taken| == |s.received|)
    && (s.receiving.Holding? ==>
         s.connected && |s.taken| == |s.received| + 1 && s.taken[|s.received|] == s.receiving.e)
    && (s.receiving.Dropping? ==> s.connected)
    && (!s.failed && !s.receiving.Holding? ==> |s.taken| == |s.received|)
  }

  ghost predicate Inv<T>(s: State<T>) {
    Budgeted(s) && EntersInOrder(s) && LeavesInOrder(s)
  }

  lemma {:induction false} SizesAppend<T>(queue: seq<Envelope<T>>, e: Envelope<T>)
    ensures Sizes(queue + [e]) == Sizes(queue) + e.size
  {
    if queue == [] {
      assert queue + [e] == [e];
    } else {
      assert (queue + [e])[1..] == queue[1..] + [e];
      SizesAppend(queue[1..], e);
    }
  }

  lemma SendKeepsBudget<T>(s: State<T>, step: Step<T>)
    requires Budgeted(s)
    ensures Budgeted(Send(s, step))
  {
    if s.sending.Reserved? {
      SizesAppend(s.queue, s.sending.e);
    }
  }

  lemma ReceiveKeepsBudget<T>(s: State<T>, step: Step<T>)
    requires Budgeted(s)
    ensures Budgeted(Receive(s, step))
  {
  }

  lemma NextKeepsBudget<T>(s: State<T>, step: Step<T>)
    requires Inv(s)
    ensures Budgeted(Next(s, step))
  {
    hide Budgeted, EntersInOrder, LeavesInOrder, Send, Receive;
    SendKeepsBudget(s, step);
    ReceiveKeepsBudget(s, step);
  }

  lemma NextKeepsEntering<T>(s: State<T>, step: Step<T>)
    requires Inv(s)
    ensures EntersInOrder(Next(s, step))
  {
    hide Budgeted, LeavesInOrder;
    if step.BeginSend? || step.ContinueSend? {
      SendKeepsEntering(s, step);
    }
  }

  lemma SendKeepsEntering<T>(s: State<T>, step: Step<T>)
    requires EntersInOrder(s) && (step.BeginSend? || step.ContinueSend?)
    ensures EntersInOrder(Send(s, step))
  {
  }

  lemma SendKeepsLeaving<T>(s: State<T>, step: Step<T>)
    requires Inv(s) && (step.BeginSend? || step.ContinueSend?)
    ensures LeavesInOrder(Next(s, step))
  {
  }

  lemma TakingKeepsLeaving<T>(s: State<T>, step: Step<T>)
    requires Inv(s) && s.receiving.Ready? && step.ContinueReceive? && s.queue != []
    ensures LeavesInOrder(Next(s, step))
  {
    var t := Next(s, step);
    assert s.taken + s.queue == t.taken + t.queue;
    assert Values(t.taken)[..|t.received|] == Values(s.taken)[..|s.received|];
  }

  lemma NextKeepsLeaving<T>(s: State<T>, step: Step<T>)
    requires Inv(s)
    ensures LeavesInOrder(Next(s, step))
  {
    hide Budgeted, EntersInOrder;
    if step.BeginSend? || step.ContinueSend? {
      SendKeepsLeaving(s, step);
    } else if s.receiving.Ready? && step.ContinueReceive? && s.queue != [] {
      TakingKeepsLeaving(s, step);
    }
  }

  lemma NextKeepsInv<T>(s: State<T>, step: Step<T>)
    requires Inv(s)
    ensures Inv(Next(s, step))
  {
    hide Next, Budgeted, EntersInOrder, LeavesInOrder;
    NextKeepsBudget(s, step);
    NextKeepsEntering(s, step);
    NextKeepsLeaving(s, step);
  }

  lemma {:induction false} RunKeepsInv<T>(s: State<T>, schedule: seq<Step<T>>)
    requires Inv(s)
    ensures Inv(Run(s, schedule))
    ensures s.failed ==> Run(s, schedule).failed
    ensures s.received <= Run(s, schedule).received
    decreases |schedule|
  {
    hide Inv;
    if schedule != [] {
      NextKeepsInv(s, schedule[0]);
      RunKeepsInv(Next(s, schedule[0]), schedule[1..]);
    }
  }

  lemma ReceivedIsPrefix<T>(s: State<T>)
    requires EntersInOrder(s) && LeavesInOrder(s)
    ensures s.received <= Values(s.offered)
  {
    forall i | 0 <= i < |s.received|
      ensures s.received[i] == s.offered[i].value
    {
      assert s.taken[i] == s.entered[..|s.taken|][i] == s.offered[..|s.entered|][i];
    }
  }

  lemma RefusedMeansFailed<T>(s: State<T>)
    requires EntersInOrder(s)
    ensures forall i :: 0 <= i < |s.answers| && !s.answers[i] ==> s.failed
  {
  }

  /** The queue's promise, for every schedule of the two threads. */
  lemma EveryInterleavingIsSafe<T>(schedule: seq<Step<T>>)
    ensures var s := Run(Initial<T>(), schedule);
      && s.used == Live(s) <= OUTPUT_QUEUE_BYTES
      && |s.queue| <= OUTPUT_QUEUE_ITEMS
      && s.received <= Values(s.offered)
      && (forall i :: 0 <= i < |s.answers| && !s.answers[i] ==> s.failed)
  {
    hide Run, EntersInOrder, LeavesInOrder, Live, Values;
    var s := Run(Initial<T>(), schedule);
    InitialInv<T>();
    RunKeepsInv(Initial<T>(), schedule);
    ReceivedIsPrefix(s);
    RefusedMeansFailed(s);
  }

  lemma InitialInv<T>()
    ensures Inv(Initial<T>())
  {
  }

  /** While nothing failed and the receiver lives, every offered value is accounted for. */
  lemma NothingIsLost<T>(schedule: seq<Step<T>>)
    ensures var s := Run(Initial<T>(), schedule);
      !s.failed && s.connected && s.sending.NotSending? ==>
        s.received
        + (if s.receiving.Holding? then [s.receiving.e.value] else [])
        + Values(s.queue) == Values(s.offered)
  {
    hide Run, EntersInOrder, LeavesInOrder, Live, Values;
    InitialInv<T>();
    RunKeepsInv(Initial<T>(), schedule);
    AllAccounted(Run(Initial<T>(), schedule));
  }

  lemma AllAccounted<T>(s: State<T>)
    requires EntersInOrder(s) && LeavesInOrder(s)
    ensures !s.failed && s.connected && s.sending.NotSending? ==>
      s.received
      + (if s.receiving.Holding? then [s.receiving.e.value] else [])
      + Values(s.queue) == Values(s.offered)
  {
    if !s.failed && s.connected && s.sending.NotSending? {
      assert s.offered == s.taken + s.queue;
    }
  }

  /** Once failed, always failed: no later send is accepted and nothing more is returned. */
  lemma {:induction false} FailureIsSticky<T>(before: seq<Step<T>>, schedule: seq<Step<T>>)
    requires Run(Initial<T>(), before).failed
    ensures var s, t := Run(Initial<T>(), before), Run(Run(Initial<T>(), before), schedule);
      t.failed && t.entered == s.entered && t.received == s.received
  {
    RunKeepsInv(Initial<T>(), before);
    FailedStaysFailed(Run(Initial<T>(), before), schedule);
  }

  lemma {:induction false} FailedStaysFailed<T>(s: State<T>, schedule: seq<Step<T>>)
    requires Inv(s) && s.failed
    ensures var t := Run(s, schedule); t.failed && t.entered == s.entered && t.received == s.received
    decreases |schedule|
  {
    if schedule != [] {
      NextKeepsInv(s, schedule[0]);
      FailedStaysFailed(Next(s, schedule[0]), schedule[1..]);
    }
  }
}
