/**
 A session with the tracker: any sequence of card clicks, keystrokes in the
 amount field and clicks on "Update Harvest". The capacity invariant and the
 crop list's shape survive every such sequence, and no harvest ever shrinks.
 */
module Sessions {
  import opened JsNumbers
  import opened Harvest

  /** One user interaction. */
  datatype Event = ClickCard(index: nat) | TypeAmount(text: string) | UpdateHarvest

  /** Every card click in `events` hits one of the `cards` rendered cards. */
  predicate ClicksInRange(events: seq<Event>, cards: nat) {
    forall k :: 0 <= k < |events| && events[k].ClickCard? ==> events[k].index < cards
  }

  lemma ClicksInRangeTail(events: seq<Event>, cards: nat)
    requires events != [] && ClicksInRange(events, cards)
    ensures ClicksInRange(events[1..], cards)
  {
    forall k | 0 <= k < |events| - 1 && events[1..][k].ClickCard?
      ensures events[1..][k].index < cards
    {
      assert events[1..][k] == events[k + 1];
    }
  }

  /**
   The tracker's reaction to one event. An update always runs the handler, even
   where the page's button would be disabled; since the handler rejects every
   input the button guard rejects (TrackerProperties.AcceptedInputEnablesButton,
   given `parseFloat("")` is NaN), such a click changes nothing either way.
   */
  function Step(t: Tracker, e: Event, parse: string -> JsNumber): (r: Tracker)
    requires e.ClickCard? ==> e.index < |t.crops|
    ensures |r.crops| == |t.crops|
    ensures e.ClickCard? ==> r.crops == t.crops && r.selected == t.crops[e.index] && r.input == t.input
    ensures e.TypeAmount? ==> r.crops == t.crops && r.selected == t.selected && r.input == e.text
    ensures e.UpdateHarvest? ==> r == Commit(t, parse)
  {
    match e
    case ClickCard(i) => Select(t, i)
    case TypeAmount(text) => SetInput(t, text)
    case UpdateHarvest => Commit(t, parse)
  }

  /** The tracker after all of `events`, in order. */
  function Run(t: Tracker, events: seq<Event>, parse: string -> JsNumber): (r: Tracker)
    requires ClicksInRange(events, |t.crops|)
    ensures |r.crops| == |t.crops|
    decreases |events|
  {
    if events == [] then t
    else
      var t' := Step(t, events[0], parse);
      ClicksInRangeTail(events, |t.crops|);
      Run(t', events[1..], parse)
  }

  lemma StepPreservesValid(t: Tracker, e: Event, parse: string -> JsNumber)
    requires Valid(t) && (e.ClickCard? ==> e.index < |t.crops|)
    ensures Valid(Step(t, e, parse))
  {
  }

  lemma StepPreservesShape(t: Tracker, e: Event, parse: string -> JsNumber)
    requires forall i :: 0 <= i < |t.crops| ==> CropOk(t.crops[i])
    requires e.ClickCard? ==> e.index < |t.crops|
    ensures var r := Step(t, e, parse);
      && (forall i :: 0 <= i < |t.crops| ==> CropOk(r.crops[i]))
      && (forall i :: 0 <= i < |t.crops| ==> r.crops[i].name == t.crops[i].name && r.crops[i].total == t.crops[i].total)
      && (forall i :: 0 <= i < |t.crops| ==> r.crops[i].harvested >= t.crops[i].harvested)
  {
  }

  /** However the user interacts, every crop stays within capacity and the selection stays in the list. */
  lemma {:induction false} RunPreservesValid(t: Tracker, events: seq<Event>, parse: string -> JsNumber)
    requires Valid(t) && ClicksInRange(events, |t.crops|)
    ensures Valid(Run(t, events, parse))
    decreases |events|
  {
    if events != [] {
      var t' := Step(t, events[0], parse);
      StepPreservesValid(t, events[0], parse);
      ClicksInRangeTail(events, |t.crops|);
      RunPreservesValid(t', events[1..], parse);
    }
  }

  /** Names and capacities never change, and no harvest ever decreases, over a whole session. */
  lemma {:induction false} RunNeverDecreases(t: Tracker, events: seq<Event>, parse: string -> JsNumber)
    requires forall i :: 0 <= i < |t.crops| ==> CropOk(t.crops[i])
    requires ClicksInRange(events, |t.crops|)
    ensures var r := Run(t, events, parse);
      && (forall i :: 0 <= i < |t.crops| ==> r.crops[i].name == t.crops[i].name && r.crops[i].total == t.crops[i].total)
      && (forall i :: 0 <= i < |t.crops| ==> r.crops[i].harvested >= t.crops[i].harvested)
    decreases |events|
  {
    if events != [] {
      var t' := Step(t, events[0], parse);
      StepPreservesShape(t, events[0], parse);
      ClicksInRangeTail(events, |t.crops|);
      RunNeverDecreases(t', events[1..], parse);
    }
  }
}
