/** What a send and a receive achieve when the other side does not interfere. */
module QueueProgress {
  import opened OutputQueue

  /** One whole send: its beginning and as many further actions as the longest one has. */
  function WholeSend<T>(e: Envelope<T>): seq<Step<T>> {
    [BeginSend(e), ContinueSend, ContinueSend, ContinueSend, ContinueSend]
  }

  /** One whole receive of an envelope that is there. */
  function WholeReceive<T>(): seq<Step<T>> {
    [BeginReceive, ContinueReceive, ContinueReceive, ContinueReceive]
  }

  /** There is room for one more item of this size. */
  ghost predicate HasRoom<T>(s: State<T>, size: nat) {
    |s.queue| < 128 && Live(s) + size <= 16_777_216
  }

  lemma RunFirst<T>(s: State<T>, step: Step<T>, rest: seq<Step<T>>)
    ensures Run(s, [step] + rest) == Run(Next(s, step), rest)
  {
    hide Next;
    assert ([step] + rest)[1..] == rest;
  }

  lemma RunNone<T>(s: State<T>)
    ensures Run(s, []) == s
  {
  }

  function SentWhole<T>(s: State<T>, e: Envelope<T>): State<T> {
    Send(Send(Send(Send(Send(s, BeginSend(e)), ContinueSend), ContinueSend), ContinueSend), ContinueSend)
  }

  function ReceivedWhole<T>(s: State<T>): State<T> {
    Receive(Receive(Receive(Receive(s, BeginReceive), ContinueReceive), ContinueReceive), ContinueReceive)
  }

  lemma SendUnfolds<T>(s: State<T>, e: Envelope<T>)
    ensures Run(s, WholeSend(e)) == SentWhole(s, e)
  {
    hide Send, Receive, Run;
    var c: seq<Step<T>> := [ContinueSend];
    assert WholeSend(e) == [BeginSend(e)] + (c + (c + (c + (c + []))));
    RunFirst(s, BeginSend(e), c + (c + (c + (c + []))));
    var s1 := Send(s, BeginSend(e));
    RunFirst(s1, ContinueSend, c + (c + (c + [])));
    RunFirst(Send(s1, ContinueSend), ContinueSend, c + (c + []));
    RunFirst(Send(Send(s1, ContinueSend), ContinueSend), ContinueSend, c + []);
    RunFirst(Send(Send(Send(s1, ContinueSend), ContinueSend), ContinueSend), ContinueSend, []);
    RunNone(Send(Send(Send(Send(s1, ContinueSend), ContinueSend), ContinueSend), ContinueSend));
  }

  /** The accepted send: three actions, after which further ones do nothing. */
  lemma AcceptedSend<T>(s: State<T>, e: Envelope<T>)
    requires Budgeted(s) && s.sending.NotSending? && !s.failed && s.connected && HasRoom(s, e.size)
    ensures var t := SentWhole(s, e);
      t == s.(used := s.used + e.size, queue := s.queue + [e], offered := s.offered + [e],
              entered := s.entered + [e], answers := s.answers + [true])
  {
    var s1 := Send(s, BeginSend(e));
    assert s1 == s.(offered := s.offered + [e], sending := Checked(e));
    var s2 := Send(s1, ContinueSend);
    assert s2 == s1.(used := s.used + e.size, sending := Reserved(e));
    var s3 := Send(s2, ContinueSend);
    assert s3.sending == NotSending;
    assert Send(s3, ContinueSend) == s3;
  }

  /** The refused send leaves queue and byte count alone and raises the failure flag. */
  lemma RefusedSend<T>(s: State<T>, e: Envelope<T>)
    requires Budgeted(s) && s.sending.NotSending? && (s.failed || !s.connected || !HasRoom(s, e.size))
    ensures var t := SentWhole(s, e);
      t == s.(failed := true, offered := s.offered + [e], answers := s.answers + [false])
  {
    var s1 := Send(s, BeginSend(e));
    if s.failed {
      assert s1 == s.(offered := s.offered + [e], answers := s.answers + [false]);
      assert Send(s1, ContinueSend) == s1;
    } else if s.used + e.size > 16_777_216 {
      var s2 := Send(s1, ContinueSend);
      var s3 := Send(s2, ContinueSend);
      assert s2 == s1.(sending := MustFail);
      assert s3.sending == NotSending && Send(s3, ContinueSend) == s3;
    } else {
      var s2 := Send(s1, ContinueSend);
      assert s2 == s1.(used := s.used + e.size, sending := Reserved(e));
      var s3 := Send(s2, ContinueSend);
      assert s3 == s2.(sending := Bounced(e));
      var s4 := Send(s3, ContinueSend);
      assert s4 == s3.(used := s.used, sending := MustFail);
    }
  }

  /**
    From any reachable state with no send under way, a send that is not interrupted is
    accepted, its envelope last in the queue, exactly when the queue has not failed, the
    receiver lives and there is room; otherwise the queue fails, its content and its byte
    count as they were.
   */
  lemma SendAcceptedExactlyWhen<T>(schedule: seq<Step<T>>, e: Envelope<T>)
    requires Run(Initial<T>(), schedule).sending.NotSending?
    ensures var s := Run(Initial<T>(), schedule);
      var t := Run(s, WholeSend(e));
      && t.sending.NotSending? && t.receiving == s.receiving && t.received == s.received && t.connected == s.connected
      && if !s.failed && s.connected && HasRoom(s, e.size)
         then
           && t.answers == s.answers + [true] && t.queue == s.queue + [e]
           && t.used == s.used + e.size && !t.failed
         else
           && t.answers == s.answers + [false] && t.queue == s.queue
           && t.used == s.used && t.failed
  {
    hide Run, Send, Receive, EntersInOrder, LeavesInOrder, Live, HasRoom, Budgeted;
    InitialInv<T>();
    RunKeepsInv(Initial<T>(), schedule);
    var s := Run(Initial<T>(), schedule);
    SendUnfolds(s, e);
    if !s.failed && s.connected && HasRoom(s, e.size) {
      AcceptedSend(s, e);
    } else {
      RefusedSend(s, e);
    }
  }

  lemma ReceiveUnfolds<T>(s: State<T>)
    ensures Run(s, WholeReceive<T>()) == ReceivedWhole(s)
  {
    hide Send, Receive, Run;
    var c: seq<Step<T>> := [ContinueReceive];
    assert WholeReceive<T>() == [BeginReceive] + (c + (c + (c + [])));
    RunFirst(s, BeginReceive, c + (c + (c + [])));
    var s1 := Receive(s, BeginReceive);
    RunFirst(s1, ContinueReceive, c + (c + []));
    RunFirst(Receive(s1, ContinueReceive), ContinueReceive, c + []);
    RunFirst(Receive(Receive(s1, ContinueReceive), ContinueReceive), ContinueReceive, []);
    RunNone(Receive(Receive(Receive(s1, ContinueReceive), ContinueReceive), ContinueReceive));
  }

  lemma ReceiveSteps<T>(s: State<T>)
    requires Budgeted(s) && s.receiving.NotReceiving? && s.connected && s.queue != [] && !s.failed
    ensures var t := ReceivedWhole(s);
      t == s.(queue := s.queue[1..], taken := s.taken + [s.queue[0]], received := s.received + [s.queue[0].value],
              used := s.used - s.queue[0].size)
    ensures s.used >= s.queue[0].size
  {
    var s1 := Receive(s, BeginReceive);
    var s2 := Receive(s1, ContinueReceive);
    assert s2 == s.(receiving := Holding(s.queue[0]), queue := s.queue[1..], taken := s.taken + [s.queue[0]]);
    var s3 := Receive(s2, ContinueReceive);
    assert s3 == s2.(receiving := Dropping(s.queue[0]), received := s.received + [s.queue[0].value]);
  }

  /**
    From any reachable state with no receive under way and something queued, a receive that
    is not interrupted returns the oldest value and frees its bytes, unless the queue has
    failed, in which case it returns nothing and changes nothing.
   */
  lemma ReceiveReturnsOldest<T>(schedule: seq<Step<T>>)
    requires var s := Run(Initial<T>(), schedule); s.receiving.NotReceiving? && s.connected && s.queue != []
    ensures var s := Run(Initial<T>(), schedule);
      var t := Run(s, WholeReceive<T>());
      if s.failed then t == s
      else
        && t.received == s.received + [s.queue[0].value] && t.queue == s.queue[1..]
        && t.used + s.queue[0].size == s.used && t.receiving.NotReceiving? && !t.failed
        && t.sending == s.sending && t.answers == s.answers
  {
    hide Run, Send, EntersInOrder, LeavesInOrder, Live, Budgeted;
    InitialInv<T>();
    RunKeepsInv(Initial<T>(), schedule);
    var s := Run(Initial<T>(), schedule);
    ReceiveUnfolds(s);
    if !s.failed {
      ReceiveSteps(s);
    } else {
      FailedReceive(s);
    }
  }

  lemma FailedReceive<T>(s: State<T>)
    requires s.receiving.NotReceiving? && s.failed
    ensures ReceivedWhole(s) == s
  {
    assert Receive(s, BeginReceive) == s;
    assert Receive(s, ContinueReceive) == s;
  }

  /** Waiting for an envelope that is not there changes nothing but the time. */
  lemma ReceiveTimesOut<T>(s: State<T>)
    requires s.receiving.NotReceiving? && s.queue == [] && !s.failed && s.connected
    ensures Receive(Receive(Receive(s, BeginReceive), ContinueReceive), TimeOut) == s
  {
  }

  /** Dropping the receiver's end: disconnecting, then releasing what is queued. */
  function Drop<T>(n: nat): seq<Step<T>> {
    if n == 0 then [] else [Drain] + Drop(n - 1)
  }

  lemma {:induction false} DrainFrees<T>(s: State<T>)
    requires Budgeted(s) && s.receiving.NotReceiving? && !s.connected
    ensures var t := Run(s, Drop(|s.queue|));
      t.queue == [] && t.used == SenderHolds(s.sending) && t.received == s.received && t.failed == s.failed
    decreases |s.queue|
  {
    hide Run, Send;
    if s.queue == [] {
      RunNone(s);
    } else {
      var s1 := Receive(s, Drain);
      RunFirst(s, Drain, Drop<T>(|s.queue| - 1));
      ReceiveKeepsBudget(s, Drain);
      assert s1.queue == s.queue[1..];
      DrainFrees(s1);
    }
  }

  /** Dropping an idle receiver releases the bytes of everything that was queued. */
  lemma DropReleasesQueue<T>(schedule: seq<Step<T>>)
    requires var s := Run(Initial<T>(), schedule); s.receiving.NotReceiving? && s.sending.NotSending?
    ensures var s := Run(Initial<T>(), schedule);
      var t := Run(s, [Disconnect] + Drop(|s.queue|));
      t.queue == [] && t.used == 0 && !t.connected && t.failed == s.failed
  {
    hide Run, Send, EntersInOrder, LeavesInOrder, Live, Budgeted;
    InitialInv<T>();
    RunKeepsInv(Initial<T>(), schedule);
    var s := Run(Initial<T>(), schedule);
    RunFirst(s, Disconnect, Drop(|s.queue|));
    ReceiveKeepsBudget(s, Disconnect);
    DrainFrees(Receive(s, Disconnect));
    StaysDisconnected(Receive(s, Disconnect), Drop(|s.queue|));
  }

  lemma {:induction false} StaysDisconnected<T>(s: State<T>, schedule: seq<Step<T>>)
    requires !s.connected
    ensures !Run(s, schedule).connected
    decreases |schedule|
  {
    if schedule != [] {
      StaysDisconnected(Next(s, schedule[0]), schedule[1..]);
    }
  }
}
