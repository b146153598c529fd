/**
 The "Harvest Progress Tracker" card of the signed-in dashboard: its own
 five-crop table, the first crop selected, and a toast after every
 successful update that names the crop and the amount as typed.
 */
module DashboardWidget {
  import opened JsNumbers
  import opened Harvest

  /** The dashboard's fixed crop table. */
  const InitialCrops: seq<Crop> := [
    Crop("Potatoes", "🥔", 120.0, 150.0),
    Crop("Tomatoes", "🍅", 80.0, 100.0),
    Crop("Carrots", "🥕", 45.0, 80.0),
    Crop("Cabbage", "🥬", 30.0, 60.0),
    Crop("Onions", "🧅", 55.0, 70.0)
  ]

  const UpdatedTitle := "Harvest Updated!"

  /** A success toast, "Added <amount> tons to <crop>", kept as its two parameters. */
  datatype Toast = Toast(title: string, crop: string, amount: JsNumber)

  /** The widget's state after a handler ran, with the toasts it emitted. */
  datatype Outcome = Outcome(tracker: Tracker, toasts: seq<Toast>)

  /** The widget on first render. */
  function Init(): (t: Tracker)
    ensures t.crops == InitialCrops && |t.crops| == 5
    ensures Valid(t) && UniqueNames(t.crops)
    ensures t.selected == t.crops[0] && t.input == ""
  {
    Tracker(InitialCrops, InitialCrops[0], "")
  }

  /**
   "Update Harvest": a rejected amount returns early with no toast; an
   accepted one commits and emits one toast naming the selected crop and the
   parsed amount.
   */
  function UpdateHarvest(t: Tracker, parse: string -> JsNumber): (o: Outcome)
    ensures Rejects(parse(t.input)) ==> o.tracker == t && o.toasts == []
    ensures !Rejects(parse(t.input)) ==>
              && o.tracker.input == ""
              && o.toasts == [Toast(UpdatedTitle, t.selected.name, parse(t.input))]
    ensures o.tracker == Commit(t, parse)
    ensures |o.tracker.crops| == |t.crops|
  {
    var amount := parse(t.input);
    if Rejects(amount) then Outcome(t, [])
    else Outcome(CommitAmount(t, amount), [Toast(UpdatedTitle, t.selected.name, amount)])
  }

  /** Every card's rounded percentage lies between 0 and 100 while the invariant holds. */
  lemma CardLabelsInRange(t: Tracker)
    requires Valid(t)
    ensures forall i :: 0 <= i < |t.crops| ==>
              PercentLabel(t.crops[i]).Num? && 0.0 <= PercentLabel(t.crops[i]).value <= 100.0
  {
  }

  /** The card labels on first render: 80 %, 80 %, 56 %, 50 % and 79 %. */
  lemma InitialCardLabels()
    ensures PercentLabel(InitialCrops[0]) == Num(80.0)
    ensures PercentLabel(InitialCrops[1]) == Num(80.0)
    ensures PercentLabel(InitialCrops[2]) == Num(56.0)
    ensures PercentLabel(InitialCrops[3]) == Num(50.0)
    ensures PercentLabel(InitialCrops[4]) == Num(79.0)
  {
  }

  /**
   The toast reports the amount typed, not what was added: 50 tons for the
   Potatoes at 120 of 150 raise them by 30 but the toast still says 50.
   */
  lemma ToastReportsTypedAmount(parse: string -> JsNumber)
    requires parse("50") == Num(50.0)
    ensures var o := UpdateHarvest(SetInput(Init(), "50"), parse);
      && o.toasts == [Toast(UpdatedTitle, "Potatoes", Num(50.0))]
      && o.tracker.crops[0].harvested - InitialCrops[0].harvested == 30.0
  {
  }
}
