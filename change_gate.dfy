/**
 * The change gate of the monitoring loop: the one mutable slot
 * `last_count` and the rule that decides, for each new description, whether
 * it is stored silently, stored and surfaced, or ignored.
 */
module ChangeGate {
  import opened Wrappers

  /** Python truthiness of the slot: None and the empty string are falsy. */
  predicate Truthy(slot: Option<string>) {
    slot.Some? && slot.value != ""
  }

  /** The slot after one description, and whether that description is surfaced. */
  datatype GateResult = GateResult(slot: Option<string>, alert: bool)

  /**
   * One pass through the gate with the text of a new description: a falsy
   * slot takes the text as a silent baseline; a set slot that differs takes
   * the text and surfaces it; an equal text leaves everything as it was.
   */
  function Gate(last: Option<string>, text: Option<string>): GateResult {
    if !Truthy(last) then GateResult(text, false)
    else if last != text then GateResult(text, true)
    else GateResult(last, false)
  }

  /** Whatever the case, the slot ends up holding the latest description. */
  lemma GateStoresLatest(last: Option<string>, text: Option<string>)
    ensures Gate(last, text).slot == text
  {
  }

  /** A description is surfaced exactly when the slot was set and held a different text. */
  lemma GateAlertsOnChange(last: Option<string>, text: Option<string>)
    ensures Gate(last, text).alert <==> Truthy(last) && last != text
  {
  }

  /** The slot and the surfaced descriptions after a sequence of descriptions. */
  datatype GateTrace = GateTrace(slot: Option<string>, alerts: seq<Option<string>>)

  /** The gate applied to each description of `texts` in turn, starting from slot `last`. */
  function GateRun(last: Option<string>, texts: seq<Option<string>>): GateTrace
    decreases |texts|
  {
    if texts == [] then GateTrace(last, [])
    else
      var g := Gate(last, texts[0]);
      var rest := GateRun(g.slot, texts[1..]);
      GateTrace(rest.slot, (if g.alert then [texts[0]] else []) + rest.alerts)
  }

  /** Every description is non-empty (none of them re-arms the baseline). */
  predicate AllTruthy(texts: seq<Option<string>>) {
    forall i :: 0 <= i < |texts| ==> Truthy(texts[i])
  }

  /**
   * The reference policy, stated without a slot: every description that
   * differs from the one just before it, the first description never.
   */
  function Changes(texts: seq<Option<string>>): (r: seq<Option<string>>)
    ensures |texts| <= 1 ==> r == []
    ensures |r| < |texts| || texts == []
    ensures forall k :: 0 <= k < |r| ==> r[k] in texts[1..]
    decreases |texts|
  {
    if |texts| < 2 then []
    else (if texts[1] != texts[0] then [texts[1]] else []) + Changes(texts[1..])
  }

  /** After any run the slot holds the last description seen, or the initial slot when there was none. */
  lemma {:induction false} GateRunSlot(last: Option<string>, texts: seq<Option<string>>)
    ensures GateRun(last, texts).slot == if texts == [] then last else texts[|texts| - 1]
    decreases |texts|
  {
    if texts != [] {
      GateRunSlot(texts[0], texts[1..]);
    }
  }

  /**
   * With non-empty descriptions, a run from a set slot surfaces exactly the
   * changes of the slot followed by the descriptions, and a run from an unset
   * slot surfaces exactly the changes of the descriptions: the first one is
   * the silent baseline.
   */
  lemma {:induction false} GateRunIsChanges(last: Option<string>, texts: seq<Option<string>>)
    requires AllTruthy(texts)
    ensures GateRun(last, texts).alerts == if Truthy(last) then Changes([last] + texts) else Changes(texts)
    decreases |texts|
  {
    if texts != [] {
      var tail := texts[1..];
      assert AllTruthy(tail) by {
        forall i | 0 <= i < |tail| ensures Truthy(tail[i]) {
          assert tail[i] == texts[i + 1];
        }
      }
      assert Truthy(texts[0]);
      GateRunIsChanges(texts[0], tail);
      assert texts == [texts[0]] + tail;
      assert ([last] + texts)[1..] == texts;
    }
  }

  /** A first description alone sets the baseline and surfaces nothing. */
  lemma FirstDescriptionIsSilent(text: Option<string>)
    ensures GateRun(None, [text]) == GateTrace(text, [])
  {
  }

  /** ["A", "A", "B"] surfaces only "B". */
  lemma RepeatThenChange()
    ensures GateRun(None, [Some("A scene"), Some("A scene"), Some("B scene")]).alerts == [Some("B scene")]
  {
  }

  /** ["A", "B", "B", "A"] surfaces "B" and then "A". */
  lemma ChangeRepeatChangeBack()
    ensures GateRun(None, [Some("A scene"), Some("B scene"), Some("B scene"), Some("A scene")]).alerts
         == [Some("B scene"), Some("A scene")]
  {
  }

  /**
   * Because the gate tests truthiness, an empty description that differs
   * from a set slot is surfaced and then re-arms the baseline, so the next
   * description is stored silently.
   */
  lemma EmptyDescriptionRearmsBaseline()
    ensures GateRun(Some("A scene"), [Some(""), Some("B scene")]) == GateTrace(Some("B scene"), [Some("")])
  {
  }
}
