/** The conventional optional value, used for the nullable slots of the monitor. */
module Wrappers {
  datatype Option<+T> = None | Some(value: T)
}

/**
 * The items that the agent runtime pushes into a live request queue, and
 * the choice the frame drain makes among them: the most recent JPEG frame.
 */
module LiveRequests {
  import opened Wrappers

  newtype byte = x: int | 0 <= x < 256

  /** An inline media payload: its raw bytes (which may be absent) and the MIME type declared for them. */
  datatype Blob = Blob(data: Option<seq<byte>>, mimeType: string)

  /** One queued request; the monitor looks only at its optional blob. */
  datatype LiveRequest = LiveRequest(blob: Option<Blob>)

  /** The only media type the drain keeps (compared exactly, no parameters, no case folding). */
  const JpegMimeType: string := "image/jpeg"

  /** A request the drain may retain: a blob is present and it is declared as JPEG. */
  predicate IsFrame(req: LiveRequest) {
    req.blob.Some? && req.blob.value.mimeType == JpegMimeType
  }

  /**
   * The request that the drain loop holds in `last_valid_req` once it has
   * consumed all of `q` in arrival order: the latest frame of `q`, or None
   * when `q` holds no frame at all.
   */
  function LastFrame(q: seq<LiveRequest>): (r: Option<LiveRequest>)
    ensures r.Some? ==> r.value in q && IsFrame(r.value)
    ensures r.None? <==> forall i :: 0 <= i < |q| ==> !IsFrame(q[i])
  {
    if q == [] then None
    else if IsFrame(q[|q| - 1]) then Some(q[|q| - 1])
    else LastFrame(q[..|q| - 1])
  }

  /** A frame with no frame after it is the one retained. */
  lemma {:induction false} LastFrameIsLatest(q: seq<LiveRequest>, i: nat)
    requires i < |q| && IsFrame(q[i])
    requires forall j :: i < j < |q| ==> !IsFrame(q[j])
    ensures LastFrame(q) == Some(q[i])
  {
    if i < |q| - 1 {
      var p := q[..|q| - 1];
      assert !IsFrame(q[|q| - 1]);
      assert forall j :: i < j < |p| ==> p[j] == q[j];
      LastFrameIsLatest(p, i);
    }
  }

  /**
   * Conversely, the retained request sits at a position of `q` after which
   * no frame arrived: every later request was consumed and dropped.
   */
  lemma {:induction false} LastFramePosition(q: seq<LiveRequest>) returns (i: nat)
    requires LastFrame(q).Some?
    ensures i < |q| && q[i] == LastFrame(q).value
    ensures forall j :: i < j < |q| ==> !IsFrame(q[j])
  {
    if IsFrame(q[|q| - 1]) {
      i := |q| - 1;
    } else {
      var p := q[..|q| - 1];
      i := LastFramePosition(p);
      assert forall j :: i < j < |p| ==> p[j] == q[j];
    }
  }

  /** Consuming one more request updates the retained one as the loop body does. */
  lemma LastFrameSnoc(q: seq<LiveRequest>, req: LiveRequest)
    ensures LastFrame(q + [req]) == if IsFrame(req) then Some(req) else LastFrame(q)
  {
    assert (q + [req])[..|q|] == q;
  }

  /**
   * A frame whose blob carries no bytes. The drain logs the first bytes of
   * every frame it takes, and slicing absent data raises inside the drain's
   * `try`, so such a frame interrupts the drain right after it is taken.
   */
  predicate IsUnreadableFrame(req: LiveRequest) {
    IsFrame(req) && req.blob.value.data.None?
  }

  /** The position of the first unreadable frame of `q`, if there is one. */
  function FirstUnreadable(q: seq<LiveRequest>): (r: Option<nat>)
    ensures r.Some? ==> r.value < |q| && IsUnreadableFrame(q[r.value])
    ensures r.Some? ==> forall j :: 0 <= j < r.value ==> !IsUnreadableFrame(q[j])
    ensures r.None? <==> forall j :: 0 <= j < |q| ==> !IsUnreadableFrame(q[j])
    decreases |q|
  {
    if q == [] then None
    else if IsUnreadableFrame(q[0]) then Some(0)
    else match FirstUnreadable(q[1..])
      case None => None
      case Some(i) => Some(i + 1)
  }

  /**
   * The number of requests the drain has taken when it raises, or None when
   * it empties the queue normally. `fault == Some(k)` says that the queue
   * raises at the size test made after k requests were taken; an unreadable
   * frame raises right after it is taken. Whichever comes first ends the drain.
   */
  function DrainStop(q: seq<LiveRequest>, fault: Option<nat>): Option<nat> {
    var u := FirstUnreadable(q);
    if u.Some? && (fault.None? || u.value < fault.value) then Some(u.value + 1)
    else if fault.Some? && fault.value <= |q| then Some(fault.value)
    else None
  }

  /** The drain is interrupted by an exception inside its `try`. */
  predicate DrainFails(q: seq<LiveRequest>, fault: Option<nat>) {
    DrainStop(q, fault).Some?
  }

  /**
   * The drain raises exactly when the queue raises at a size test it reaches,
   * or when it takes an unreadable frame; it then has taken at most the whole queue.
   */
  lemma DrainFailsWhen(q: seq<LiveRequest>, fault: Option<nat>)
    ensures DrainFails(q, fault) ==> DrainStop(q, fault).value <= |q|
    ensures DrainFails(q, fault) <==>
      (fault.Some? && fault.value <= |q|) || exists j :: 0 <= j < |q| && IsUnreadableFrame(q[j])
  {
  }

  /** What the drain leaves in the queue: nothing, or the requests it had not yet taken when it raised. */
  function DrainRemainder(q: seq<LiveRequest>, fault: Option<nat>): seq<LiveRequest> {
    if DrainFails(q, fault) then q[DrainStop(q, fault).value..] else []
  }

  /** The two ways a drain ends: the queue raised, or it emptied with the latest frame (if any) retained. */
  datatype DrainResult = DrainFailed | Drained(frame: Option<LiveRequest>)
}
