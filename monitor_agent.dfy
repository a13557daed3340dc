/**
 * The streaming tool itself: the input queue it drains, the generator frame
 * that owns `last_count`, the drain loop, one cycle of the outer loop, the
 * outer loop over a finite sequence of cycles, and `stop_streaming`.
 */
module MonitorAgent {
  import opened Wrappers
  import opened LiveRequests
  import opened ChangeGate
  import opened MonitorCycle

  /** The queue the runtime fills with live requests (its size query and its blocking get). */
  class LiveRequestQueue {
    var pending: seq<LiveRequest>

    constructor (initial: seq<LiveRequest>)
      ensures pending == initial
    {
      pending := initial;
    }

    /** The number of requests waiting. */
    method QSize() returns (n: nat)
      ensures n == |pending|
    {
      n := |pending|;
    }

    /** Removes and returns the oldest request; the drain only calls it on a non-empty queue. */
    method Get() returns (req: LiveRequest)
      requires pending != []
      modifies this
      ensures req == old(pending)[0] && pending == old(pending)[1..]
    {
      req := pending[0];
      pending := pending[1..];
    }

    /** The runtime's side: requests that arrive while the monitor sleeps. */
    method Send(reqs: seq<LiveRequest>)
      modifies this
      ensures pending == old(pending) + reqs
    {
      pending := pending + reqs;
    }
  }

  /** One running `monitor_video_stream` generator: its input queue and its slot `last_count`. */
  class VideoMonitor {
    const input: LiveRequestQueue
    var lastCount: Option<string>

    /** The generator starts with `last_count = None`. */
    constructor (input: LiveRequestQueue)
      ensures this.input == input && lastCount == None
    {
      this.input := input;
      lastCount := None;
    }

    function State(): MonitorState
      reads this, input
    {
      MonitorState(input.pending, lastCount)
    }

    /**
     * The inner `while qsize() != 0` loop. It pops every request, keeps the
     * latest JPEG one, and stops on an empty queue, when the queue raises
     * (as `fault` says) or when a JPEG blob has no data to log; `last_count`
     * is not touched.
     */
    method DrainLatest(fault: Option<nat>) returns (r: DrainResult)
      modifies input
      ensures r == if DrainFails(old(input.pending), fault) then DrainFailed else Drained(LastFrame(old(input.pending)))
      ensures input.pending == DrainRemainder(old(input.pending), fault)
    {
      ghost var q := input.pending;
      var lastValid: Option<LiveRequest> := None;
      var consumed: nat := 0;
      while true
        invariant consumed <= |q| && input.pending == q[consumed..]
        invariant lastValid == LastFrame(q[..consumed])
        invariant fault.Some? ==> consumed <= fault.value
        invariant forall j :: 0 <= j < consumed ==> !IsUnreadableFrame(q[j])
        decreases |input.pending|
      {
        if fault == Some(consumed) {
          return DrainFailed;
        }
        var size := input.QSize();
        if size == 0 {
          break;
        }
        var req := input.Get();
        assert q[..consumed + 1] == q[..consumed] + [req];
        LastFrameSnoc(q[..consumed], req);
        if req.blob.Some? && req.blob.value.mimeType == JpegMimeType {
          if req.blob.value.data.None? {
            // logging the first bytes of absent data raises inside the `try`
            assert FirstUnreadable(q) == Some(consumed);
            return DrainFailed;
          }
          lastValid := Some(req);
        }
        consumed := consumed + 1;
      }
      assert q[..consumed] == q;
      r := Drained(lastValid);
    }

    /**
     * One iteration of the outer loop: drain, submit the retained frame and
     * take `reply` as the service's answer, gate the description, sleep.
     */
    method RunCycle(fault: Option<nat>, reply: Reply) returns (o: CycleOutcome)
      modifies this, input
      ensures CycleResult(State(), o) == Cycle(old(State()), fault, reply)
    {
      var d := DrainLatest(fault);
      if d.DrainFailed? {
        return CycleOutcome(None, None, [ErrorMarker(DrainErrorMessage)], false, false);
      }
      var emitted: seq<Emission> := [];
      var sent: Option<Blob> := None;
      var described: Option<Option<string>> := None;
      if d.frame.Some? {
        var blob := d.frame.value.blob.value;
        sent := Some(blob);
        match reply
        case GenerateFailed =>
          return CycleOutcome(sent, None, [ErrorMarker(GenerateErrorMessage)], false, false);
        case NoCandidate =>
          return CycleOutcome(sent, None, [], false, true);
        case Response(text) =>
          described := Some(text);
          if !Truthy(lastCount) {
            lastCount := text;
          } else if lastCount != text {
            lastCount := text;
            emitted := [Alert(text)];
          }
      }
      o := CycleOutcome(sent, described, emitted, true, false);
    }

    /**
     * The outer `while True` loop, run for the cycles of `inputs` (the
     * runtime cancels it after the last one) or until a cycle ends the
     * generator; before each cycle the requests that arrived are queued.
     */
    method Monitor(inputs: seq<CycleInput>) returns (emitted: seq<Emission>, halted: bool)
      modifies this, input
      ensures var r := Run(old(State()), inputs);
        State() == r.state && emitted == r.emitted && halted == r.halted
    {
      ghost var total := Run(State(), inputs);
      emitted, halted := [], false;
      var i := 0;
      while i < |inputs|
        invariant 0 <= i <= |inputs|
        invariant total.state == Run(State(), inputs[i..]).state
        invariant total.emitted == emitted + Run(State(), inputs[i..]).emitted
        invariant total.halted == Run(State(), inputs[i..]).halted
        decreases |inputs| - i
      {
        ghost var before := State();
        ghost var rest := inputs[i..];
        assert rest[0] == inputs[i] && rest[1..] == inputs[i + 1..];
        input.Send(inputs[i].arrivals);
        assert State() == Arrive(before, inputs[i]);
        var o := RunCycle(inputs[i].fault, inputs[i].reply);
        ghost var c := Cycle(Arrive(before, inputs[i]), inputs[i].fault, inputs[i].reply);
        assert c.state == State() && c.outcome == o;
        emitted := emitted + o.emitted;
        if o.halted {
          halted := true;
          assert Run(before, rest).state == State() && Run(before, rest).emitted == o.emitted && Run(before, rest).halted;
          return;
        }
        assert Run(before, rest).emitted == o.emitted + Run(State(), inputs[i + 1..]).emitted;
        i := i + 1;
      }
      assert inputs[i..] == [];
    }
  }

  /** The stop tool only acknowledges the name it is given; it has no state to change. */
  method StopStreaming(functionName: string)
  {
  }

  /** Calling the stop tool leaves a running monitor and its queue exactly as they were. */
  method StopStreamingKeepsMonitor(monitor: VideoMonitor, functionName: string)
    ensures unchanged(monitor, monitor.input)
  {
    StopStreaming(functionName);
  }
}
