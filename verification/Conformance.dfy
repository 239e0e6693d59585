/** The conformance checker's event rules, and the shape of trace that satisfies them. */
module Conformance {
  import opened Prelude
  import opened AdapterContract

  datatype Finding = NoEvents | InvalidEvent | FinalStateMismatch

  /** Sequence numbers only go up, and every event is well formed by itself. */
  ghost predicate EventsAreLegal(events: seq<NormalizedEvent>, run: RunId) {
    && (forall i :: 0 <= i < |events| ==> WellFormedEvent(events[i], run))
    && forall i, j :: 0 <= i < j < |events| ==> events[i].sequence < events[j].sequence
  }

  /** The findings the event rules call for. */
  ghost function ExpectedFindings(events: seq<NormalizedEvent>, run: RunId, final: RunState): seq<Finding> {
    if events == [] then [NoEvents]
    else
      (if EventsAreLegal(events, run) then [] else [InvalidEvent])
      + (if events[|events| - 1].state == final then [] else [FinalStateMismatch])
  }

  lemma LegalSoFar(events: seq<NormalizedEvent>, run: RunId, k: nat)
    requires k < |events| && EventsAreLegal(events[..k], run)
    ensures EventsAreLegal(events[..k + 1], run) <==>
      WellFormedEvent(events[k], run) && (k > 0 ==> events[k - 1].sequence < events[k].sequence)
  {
    var before, after := events[..k], events[..k + 1];
    assert after[k] == events[k] && forall i :: 0 <= i < k ==> after[i] == before[i];
    if WellFormedEvent(events[k], run) && (k > 0 ==> events[k - 1].sequence < events[k].sequence) {
      forall i, j | 0 <= i < j < |after|
        ensures after[i].sequence < after[j].sequence
      {
        if j == k && i < k - 1 {
          assert before[i].sequence < before[k - 1].sequence;
        }
      }
    } else if k > 0 && EventsAreLegal(after, run) {
      assert after[k - 1].sequence < after[k].sequence;
    }
  }

  /** An illegal beginning makes the whole trace illegal. */
  lemma IllegalPrefix(events: seq<NormalizedEvent>, run: RunId, k: nat)
    requires k <= |events| && !EventsAreLegal(events[..k], run)
    ensures !EventsAreLegal(events, run)
  {
    if EventsAreLegal(events, run) {
      assert forall i :: 0 <= i < k ==> events[..k][i] == events[i];
    }
  }

  /** `validate_events`, which stops at the first bad event but always compares the final state. */
  method ValidateEvents(events: seq<NormalizedEvent>, run: RunId, final: RunState) returns (findings: seq<Finding>)
    ensures findings == ExpectedFindings(events, run, final)
  {
    hide WellFormedEvent, EventsAreLegal;
    if events == [] {
      return [NoEvents];
    }
    findings := [];
    var previous: Option<nat>, seen: set<nat> := None, {};
    EmptyIsLegal(run);
    assert events[..0] == [];
    var k := 0;
    while k < |events| && findings == []
      invariant k <= |events| && findings in {[], [InvalidEvent]}
      invariant findings == [] ==> EventsAreLegal(events[..k], run)
      invariant findings == [InvalidEvent] ==> !EventsAreLegal(events, run)
      invariant findings == [] ==> previous == if k == 0 then None else Some(events[k - 1].sequence)
      invariant findings == [] ==> forall n :: n in seen ==> previous.Some? && n <= previous.value
      decreases |events| - k, |findings| == 0
    {
      LegalSoFar(events, run, k);
      var e := events[k];
      if (previous.Some? && e.sequence <= previous.value) || e.sequence in seen || !WellFormedEvent(e, run) {
        IllegalPrefix(events, run, k + 1);
        findings := [InvalidEvent];
      } else {
        seen := seen + {e.sequence};
        previous := Some(e.sequence);
        k := k + 1;
      }
    }
    assert findings == [] ==> events[..k] == events;
    if events[|events| - 1].state != final {
      findings := findings + [FinalStateMismatch];
    }
  }

  lemma EmptyIsLegal(run: RunId)
    ensures EventsAreLegal([], run)
  {
  }

  /** The text has something to read in it. */
  ghost predicate SaysSomething(text: string) {
    exists i :: 0 <= i < |text| && !IsWhitespace(text[i])
  }

  /**
    Events are legal exactly when each is of the contract's version and of this run, says what
    it is and when, has known evidence, a payload that is JSON and no blank provider id, and
    each number is greater than the one before.
   */
  lemma LegalExactlyWhen(events: seq<NormalizedEvent>, run: RunId)
    ensures EventsAreLegal(events, run) <==>
      && (forall i :: 0 <= i < |events| ==> IsAcceptable(events[i], run))
      && forall i :: 1 <= i < |events| ==> events[i - 1].sequence < events[i].sequence
  {
    hide WellFormedEvent, IsAcceptable;
    forall i | 0 <= i < |events|
      ensures WellFormedEvent(events[i], run) <==> IsAcceptable(events[i], run)
    {
      AcceptableMeans(events[i], run);
    }
    if forall i :: 1 <= i < |events| ==> events[i - 1].sequence < events[i].sequence {
      NeighboursRise(events);
    }
  }

  ghost predicate IsAcceptable(e: NormalizedEvent, run: RunId) {
    && e.version == 1 && e.run == run && SaysSomething(e.eventType) && SaysSomething(e.occurredAt)
    && e.evidence in {ProviderReported, AgentReported, LocallyMeasured, Estimated}
    && (e.providerEventId.None? || SaysSomething(e.providerEventId.value)) && !e.payload.RawPayload?
  }

  lemma AcceptableMeans(e: NormalizedEvent, run: RunId)
    ensures WellFormedEvent(e, run) <==> IsAcceptable(e, run)
  {
    hide IsWhitespace;
  }

  lemma {:induction false} NeighboursRise(events: seq<NormalizedEvent>)
    requires forall i :: 1 <= i < |events| ==> events[i - 1].sequence < events[i].sequence
    ensures forall i, j :: 0 <= i < j < |events| ==> events[i].sequence < events[j].sequence
  {
    if events != [] {
      var last := |events| - 1;
      var front := events[..last];
      assert forall i :: 1 <= i < last ==> front[i - 1].sequence < front[i].sequence;
      NeighboursRise(front);
      forall i, j | 0 <= i < j < |events|
        ensures events[i].sequence < events[j].sequence
      {
        if j == last && i < last - 1 {
          assert front[i].sequence < front[last - 1].sequence;
        }
        assert j < last ==> front[i].sequence < front[j].sequence;
      }
    }
  }

  // ---------------------------------------------------------------- well-numbered traces

  /**
    Events numbered from `first` without a gap, each well formed, with a terminal state in
    the last one at most.
   */
  ghost predicate Trace(events: seq<NormalizedEvent>, run: RunId, first: nat) {
    && (forall i :: 0 <= i < |events| ==> events[i].sequence == first + i && WellFormedEvent(events[i], run))
    && forall i :: 0 <= i < |events| - 1 ==> !IsTerminal(events[i].state)
  }

  lemma TracePrepend(e: NormalizedEvent, rest: seq<NormalizedEvent>, run: RunId)
    requires Trace(rest, run, e.sequence + 1) && WellFormedEvent(e, run)
    requires IsTerminal(e.state) ==> rest == []
    ensures Trace([e] + rest, run, e.sequence)
  {
    var all := [e] + rest;
    forall i | 0 <= i < |all|
      ensures all[i].sequence == e.sequence + i && WellFormedEvent(all[i], run)
    {
      assert i > 0 ==> all[i] == rest[i - 1];
    }
    forall i | 0 <= i < |all| - 1
      ensures !IsTerminal(all[i].state)
    {
      assert i > 0 ==> all[i] == rest[i - 1];
    }
  }

  /** A non-empty trace passes the checker when its last state is taken as the final one. */
  lemma TracePasses(events: seq<NormalizedEvent>, run: RunId, first: nat)
    requires Trace(events, run, first) && events != []
    ensures ExpectedFindings(events, run, events[|events| - 1].state) == []
  {
  }
}
