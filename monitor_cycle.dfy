/**
 * One cycle of the `while True` loop of `monitor_video_stream`, and runs of
 * consecutive cycles, as functions of the monitor's state and of the
 * outcomes of the two external steps (the queue and the description service).
 */
module MonitorCycle {
  import opened Wrappers
  import opened LiveRequests
  import opened ChangeGate

  /** What the description service gives back for the submitted frame. */
  datatype Reply =
    | GenerateFailed                  // the call raised
    | Response(text: Option<string>)  // the text of the first part of the first candidate
    | NoCandidate                     // the response has no first candidate or part to read

  /** An item yielded to the agent runtime. */
  datatype Emission =
    | Alert(text: Option<string>)     // the response, identified here by its text
    | ErrorMarker(message: string)

  const DrainErrorMessage: string := "Error pulling latest images"
  const GenerateErrorMessage: string := "Error while generating response"

  /** The requests waiting in the input queue and the value of `last_count`. */
  datatype MonitorState = MonitorState(pending: seq<LiveRequest>, lastCount: Option<string>)

  /**
   * What one cycle did: the blob submitted to the description service, the
   * description that reached the gate, the items yielded, whether the cycle
   * ended with the fixed sleep, and whether the generator ended by an
   * exception it did not catch.
   */
  datatype CycleOutcome = CycleOutcome(
    sent: Option<Blob>,
    described: Option<Option<string>>,
    emitted: seq<Emission>,
    slept: bool,
    halted: bool)

  datatype CycleResult = CycleResult(state: MonitorState, outcome: CycleOutcome)

  /**
   * One cycle: drain the queue (which raises as `fault` says), submit the
   * retained frame if there is one, feed the reply through the gate, sleep.
   * A failing drain or a failing call yields an error marker and skips the
   * sleep; a reply without a candidate ends the generator.
   */
  function Cycle(s: MonitorState, fault: Option<nat>, reply: Reply): CycleResult {
    if DrainFails(s.pending, fault) then
      CycleResult(
        s.(pending := DrainRemainder(s.pending, fault)),
        CycleOutcome(None, None, [ErrorMarker(DrainErrorMessage)], false, false))
    else
      var drained := s.(pending := []);
      match LastFrame(s.pending)
      case None =>
        CycleResult(drained, CycleOutcome(None, None, [], true, false))
      case Some(req) =>
        var blob := req.blob.value;
        match reply
        case GenerateFailed =>
          CycleResult(drained, CycleOutcome(Some(blob), None, [ErrorMarker(GenerateErrorMessage)], false, false))
        case NoCandidate =>
          CycleResult(drained, CycleOutcome(Some(blob), None, [], false, true))
        case Response(text) =>
          var g := Gate(s.lastCount, text);
          CycleResult(
            drained.(lastCount := g.slot),
            CycleOutcome(Some(blob), Some(text), if g.alert then [Alert(text)] else [], true, false))
  }

  /** The descriptions surfaced among the yielded items, in order. */
  function Alerts(es: seq<Emission>): (r: seq<Option<string>>)
    ensures |r| <= |es|
    ensures forall k :: 0 <= k < |r| ==> Alert(r[k]) in es
  {
    if es == [] then []
    else (if es[0].Alert? then [es[0].text] else []) + Alerts(es[1..])
  }

  lemma {:induction false} AlertsAppend(a: seq<Emission>, b: seq<Emission>)
    ensures Alerts(a + b) == Alerts(a) + Alerts(b)
  {
    if a == [] {
      assert a + b == b;
    } else {
      assert (a + b)[0] == a[0];
      assert (a + b)[1..] == a[1..] + b;
      AlertsAppend(a[1..], b);
    }
  }

  /** A normal drain leaves the queue empty, and a failed one leaves what it had not taken. */
  lemma CycleDrainsQueue(s: MonitorState, fault: Option<nat>, reply: Reply)
    ensures !DrainFails(s.pending, fault) ==> Cycle(s, fault, reply).state.pending == []
    ensures DrainFails(s.pending, fault) ==>
      s.pending == s.pending[..DrainStop(s.pending, fault).value] + Cycle(s, fault, reply).state.pending
  {
  }

  /**
   * The blob submitted to the service is that of the latest JPEG request in
   * the queue, and no request after it was a frame; without a frame nothing
   * is submitted.
   */
  lemma CycleSendsLatestFrame(s: MonitorState, fault: Option<nat>, reply: Reply) returns (i: nat)
    requires !DrainFails(s.pending, fault)
    requires Cycle(s, fault, reply).outcome.sent.Some?
    ensures i < |s.pending| && s.pending[i].blob == Cycle(s, fault, reply).outcome.sent
    ensures Cycle(s, fault, reply).outcome.sent.value.mimeType == JpegMimeType
    ensures Cycle(s, fault, reply).outcome.sent.value.data.Some?
    ensures forall j :: i < j < |s.pending| ==> !IsFrame(s.pending[j])
  {
    i := LastFramePosition(s.pending);
  }

  /** Non-JPEG and blob-less requests are never submitted, whatever their position. */
  lemma CycleIgnoresNonFrames(s: MonitorState, fault: Option<nat>, reply: Reply)
    requires forall i :: 0 <= i < |s.pending| ==> !IsFrame(s.pending[i])
    ensures Cycle(s, fault, reply).outcome.sent == None
  {
  }

  /**
   * A cycle with no frame to submit makes no call, yields nothing, keeps
   * `last_count` and sleeps.
   */
  lemma CycleWithoutFrame(s: MonitorState, fault: Option<nat>, reply: Reply)
    requires !DrainFails(s.pending, fault)
    requires LastFrame(s.pending) == None
    ensures var c := Cycle(s, fault, reply);
      c.outcome.sent == None && c.outcome.emitted == [] && c.state.lastCount == s.lastCount && c.outcome.slept
  {
  }

  /**
   * An unreadable frame ends the drain right after it is taken, even when the
   * queue itself does not raise: the requests after it stay queued and the
   * cycle fails like any other failing drain.
   */
  lemma CycleUnreadableFrame(s: MonitorState, reply: Reply, j: nat)
    requires j < |s.pending| && IsUnreadableFrame(s.pending[j])
    requires forall i :: 0 <= i < j ==> !IsUnreadableFrame(s.pending[i])
    ensures var c := Cycle(s, None, reply);
      c.state.pending == s.pending[j + 1..] && c.outcome.sent == None &&
      c.outcome.emitted == [ErrorMarker(DrainErrorMessage)] && c.state.lastCount == s.lastCount && !c.outcome.slept
  {
    assert FirstUnreadable(s.pending) == Some(j);
  }

  /** A failing drain yields exactly one error marker, keeps `last_count` and skips the sleep. */
  lemma CycleDrainFailure(s: MonitorState, fault: Option<nat>, reply: Reply)
    requires DrainFails(s.pending, fault)
    ensures var c := Cycle(s, fault, reply);
      c.outcome.emitted == [ErrorMarker(DrainErrorMessage)] && c.outcome.sent == None &&
      c.state.lastCount == s.lastCount && !c.outcome.slept && !c.outcome.halted
  {
  }

  /** A failing call yields exactly one error marker, keeps `last_count` and skips the sleep. */
  lemma CycleGenerateFailure(s: MonitorState, fault: Option<nat>)
    requires !DrainFails(s.pending, fault)
    requires LastFrame(s.pending).Some?
    ensures var c := Cycle(s, fault, GenerateFailed);
      c.outcome.emitted == [ErrorMarker(GenerateErrorMessage)] && c.outcome.sent.Some? &&
      c.state.lastCount == s.lastCount && !c.outcome.slept && !c.outcome.halted
  {
  }

  /**
   * A description reaching the gate: a falsy slot takes it silently; a set and
   * different slot takes it and exactly one alert carries it; an equal one
   * changes nothing. The cycle then sleeps.
   */
  lemma CycleGatesDescription(s: MonitorState, fault: Option<nat>, text: Option<string>)
    requires !DrainFails(s.pending, fault)
    requires LastFrame(s.pending).Some?
    ensures var c := Cycle(s, fault, Response(text));
      && c.outcome.described == Some(text) && c.outcome.slept && !c.outcome.halted
      && (!Truthy(s.lastCount) ==> c.state.lastCount == text && c.outcome.emitted == [])
      && (Truthy(s.lastCount) && s.lastCount != text ==> c.state.lastCount == text && c.outcome.emitted == [Alert(text)])
      && (s.lastCount == text ==> c.state.lastCount == s.lastCount && c.outcome.emitted == [])
  {
  }

  /** The gate sees a description only when a frame was submitted and the call gave a text. */
  lemma CycleDescribedOnlyAfterCall(s: MonitorState, fault: Option<nat>, reply: Reply)
    ensures var c := Cycle(s, fault, reply);
      c.outcome.described.Some? <==> c.outcome.sent.Some? && reply.Response?
  {
  }

  /** The outcomes of the external steps in one cycle, and the requests that arrived during the preceding sleep. */
  datatype CycleInput = CycleInput(arrivals: seq<LiveRequest>, fault: Option<nat>, reply: Reply)

  /** A run of cycles: the final state, every item yielded, every description gated, and whether the generator ended. */
  datatype RunResult = RunResult(state: MonitorState, emitted: seq<Emission>, described: seq<Option<string>>, halted: bool)

  /** The state added by the arrivals of one cycle input. */
  function Arrive(s: MonitorState, input: CycleInput): MonitorState {
    s.(pending := s.pending + input.arrivals)
  }

  /** Consecutive cycles, each after its arrivals, until the inputs run out or the generator ends. */
  function Run(s: MonitorState, inputs: seq<CycleInput>): RunResult
    decreases |inputs|
  {
    if inputs == [] then RunResult(s, [], [], false)
    else
      var c := Cycle(Arrive(s, inputs[0]), inputs[0].fault, inputs[0].reply);
      var seen := if c.outcome.described.Some? then [c.outcome.described.value] else [];
      if c.outcome.halted then RunResult(c.state, c.outcome.emitted, seen, true)
      else
        var rest := Run(c.state, inputs[1..]);
        RunResult(rest.state, c.outcome.emitted + rest.emitted, seen + rest.described, rest.halted)
  }

  /**
   * Over any run, the alerts and the final `last_count` are exactly what the
   * gate makes of the descriptions that reached it: failed cycles and cycles
   * without a frame are invisible to the gate.
   */
  lemma {:induction false} RunFollowsGate(s: MonitorState, inputs: seq<CycleInput>)
    ensures Alerts(Run(s, inputs).emitted) == GateRun(s.lastCount, Run(s, inputs).described).alerts
    ensures Run(s, inputs).state.lastCount == GateRun(s.lastCount, Run(s, inputs).described).slot
    decreases |inputs|
  {
    if inputs != [] {
      var a := Arrive(s, inputs[0]);
      var c := Cycle(a, inputs[0].fault, inputs[0].reply);
      var seen := if c.outcome.described.Some? then [c.outcome.described.value] else [];
      assert Alerts(c.outcome.emitted) == GateRun(s.lastCount, seen).alerts;
      assert c.state.lastCount == GateRun(s.lastCount, seen).slot;
      if !c.outcome.halted {
        var rest := Run(c.state, inputs[1..]);
        RunFollowsGate(c.state, inputs[1..]);
        AlertsAppend(c.outcome.emitted, rest.emitted);
        if seen != [] {
          assert (seen + rest.described)[1..] == rest.described;
        } else {
          assert seen + rest.described == rest.described;
        }
      }
    }
  }

  /**
   * From the initial state, when every description is non-empty, the run
   * surfaces exactly the descriptions that differ from the one before them.
   */
  lemma RunAlertsAreChanges(s: MonitorState, inputs: seq<CycleInput>)
    requires s.lastCount == None
    requires AllTruthy(Run(s, inputs).described)
    ensures Alerts(Run(s, inputs).emitted) == Changes(Run(s, inputs).described)
  {
    RunFollowsGate(s, inputs);
    GateRunIsChanges(s.lastCount, Run(s, inputs).described);
  }

  /** The requests of `q` and of every arrival hold no frame. */
  predicate NoFrames(q: seq<LiveRequest>, inputs: seq<CycleInput>) {
    && (forall i :: 0 <= i < |q| ==> !IsFrame(q[i]))
    && (forall k, i :: 0 <= k < |inputs| && 0 <= i < |inputs[k].arrivals| ==> !IsFrame(inputs[k].arrivals[i]))
  }

  /**
   * A stream that never delivers a JPEG frame never surfaces a description,
   * never ends the generator and never touches `last_count`; all it can yield
   * are drain error markers.
   */
  lemma {:induction false} RunWithoutFrames(s: MonitorState, inputs: seq<CycleInput>)
    requires NoFrames(s.pending, inputs)
    ensures var r := Run(s, inputs);
      && r.described == [] && !r.halted && r.state.lastCount == s.lastCount
      && forall k :: 0 <= k < |r.emitted| ==> r.emitted[k] == ErrorMarker(DrainErrorMessage)
    decreases |inputs|
  {
    if inputs != [] {
      var a := Arrive(s, inputs[0]);
      assert forall i :: 0 <= i < |a.pending| ==> !IsFrame(a.pending[i]) by {
        forall i | 0 <= i < |a.pending| ensures !IsFrame(a.pending[i]) {
          if i >= |s.pending| {
            assert a.pending[i] == inputs[0].arrivals[i - |s.pending|];
          }
        }
      }
      var c := Cycle(a, inputs[0].fault, inputs[0].reply);
      var pending := c.state.pending;
      assert forall i :: 0 <= i < |pending| ==> !IsFrame(pending[i]) by {
        if DrainFails(a.pending, inputs[0].fault) {
          forall i | 0 <= i < |pending| ensures !IsFrame(pending[i]) {
            assert pending[i] == a.pending[DrainStop(a.pending, inputs[0].fault).value + i];
          }
        }
      }
      var tail := inputs[1..];
      assert forall k, i :: 0 <= k < |tail| && 0 <= i < |tail[k].arrivals| ==> !IsFrame(tail[k].arrivals[i]) by {
        forall k, i | 0 <= k < |tail| && 0 <= i < |tail[k].arrivals| ensures !IsFrame(tail[k].arrivals[i]) {
          assert tail[k] == inputs[k + 1];
        }
      }
      RunWithoutFrames(c.state, tail);
    }
  }

  /**
   * A failed call does not consume a change: after it, the next cycle that
   * gets a description different from a set `last_count` still surfaces it.
   */
  lemma ChangeSurvivesGenerateFailure(s: MonitorState, frame1: LiveRequest, frame2: LiveRequest, text: Option<string>)
    requires IsFrame(frame1) && IsFrame(frame2) && !IsUnreadableFrame(frame1) && !IsUnreadableFrame(frame2)
    requires forall i :: 0 <= i < |s.pending| ==> !IsUnreadableFrame(s.pending[i])
    requires Truthy(s.lastCount) && s.lastCount != text
    ensures var r := Run(s, [CycleInput([frame1], None, GenerateFailed), CycleInput([frame2], None, Response(text))]);
      && r.emitted == [ErrorMarker(GenerateErrorMessage), Alert(text)]
      && r.state.lastCount == text
  {
    var inputs := [CycleInput([frame1], None, GenerateFailed), CycleInput([frame2], None, Response(text))];
    var a1 := Arrive(s, inputs[0]);
    assert forall i :: 0 <= i < |a1.pending| ==> !IsUnreadableFrame(a1.pending[i]) by {
      forall i | 0 <= i < |a1.pending| ensures !IsUnreadableFrame(a1.pending[i]) {
        if i < |s.pending| {
          assert a1.pending[i] == s.pending[i];
        }
      }
    }
    assert FirstUnreadable(a1.pending) == None;
    LastFrameSnoc(s.pending, frame1);
    CycleGenerateFailure(a1, None);
    CycleDrainsQueue(a1, None, GenerateFailed);
    var c1 := Cycle(a1, None, GenerateFailed);
    var a2 := Arrive(c1.state, inputs[1]);
    assert a2 == MonitorState([frame2], s.lastCount);
    assert FirstUnreadable(a2.pending) == None;
    LastFrameSnoc([], frame2);
    CycleGatesDescription(a2, None, text);
    CycleDrainsQueue(a2, None, Response(text));
    var c2 := Cycle(a2, None, Response(text));
    assert inputs[1..] == [inputs[1]] && inputs[1..][1..] == [];
    assert Run(c2.state, inputs[1..][1..]) == RunResult(c2.state, [], [], false);
    assert Run(c1.state, inputs[1..]).emitted == [Alert(text)];
  }
}
