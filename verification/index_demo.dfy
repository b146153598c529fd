/**
 The "Live Demo" tracker of the landing page: five crops in tons, the first
 one selected, an empty amount field, and a success banner that a valid
 update switches on.
 */
module IndexDemo {
  import opened JsNumbers
  import opened Harvest

  /** The demo's fixed crop table. */
  const InitialCrops: seq<Crop> := [
    Crop("Carrot", "🥕", 90.0, 100.0),
    Crop("Tomato", "🍅", 75.0, 80.0),
    Crop("Potato", "🥔", 120.0, 150.0),
    Crop("Leek", "🧅", 45.0, 60.0),
    Crop("Cabbage", "🥬", 85.0, 100.0)
  ]

  /** The demo's state: the tracker plus the "updated successfully" banner flag. */
  datatype Demo = Demo(tracker: Tracker, banner: bool)

  /** The state on page load. */
  function Init(): (d: Demo)
    ensures d.tracker.crops == InitialCrops && |d.tracker.crops| == 5
    ensures Valid(d.tracker) && UniqueNames(d.tracker.crops)
    ensures d.tracker.selected == d.tracker.crops[0] && d.tracker.input == ""
    ensures !d.banner
  {
    Demo(Tracker(InitialCrops, InitialCrops[0], ""), false)
  }

  /** A click on the crop card at `index`. */
  function ClickCard(d: Demo, index: nat): (r: Demo)
    requires index < |d.tracker.crops|
    ensures r.tracker.selected == d.tracker.crops[index]
    ensures r.tracker.crops == d.tracker.crops && r.tracker.input == d.tracker.input && r.banner == d.banner
  {
    d.(tracker := Select(d.tracker, index))
  }

  /** A change of the amount field. */
  function TypeAmount(d: Demo, text: string): (r: Demo)
    ensures r.tracker.input == text
    ensures r.tracker.crops == d.tracker.crops && r.tracker.selected == d.tracker.selected && r.banner == d.banner
  {
    d.(tracker := SetInput(d.tracker, text))
  }

  /** "Update Harvest": an early return on a rejected amount, otherwise commit and show the banner. */
  function UpdateHarvest(d: Demo, parse: string -> JsNumber): (r: Demo)
    ensures Rejects(parse(d.tracker.input)) ==> r == d
    ensures !Rejects(parse(d.tracker.input)) ==> r.banner && r.tracker.input == ""
    ensures !Rejects(parse(d.tracker.input)) ==> r == Demo(Commit(d.tracker, parse), true)
    ensures r.tracker == Commit(d.tracker, parse)
    ensures |r.tracker.crops| == |d.tracker.crops|
  {
    var amount := parse(d.tracker.input);
    if Rejects(amount) then d
    else Demo(CommitAmount(d.tracker, amount), true)
  }

  /**
   Fifty tons more for the Carrot, which stands at 90 of 100, fills it to
   exactly 100: the ten surplus tons are dropped without notice.
   */
  lemma CarrotSaturates(parse: string -> JsNumber)
    requires parse("50") == Num(50.0)
    ensures var d := UpdateHarvest(TypeAmount(Init(), "50"), parse);
      && d.tracker.crops[0].harvested == 100.0
      && d.tracker.selected == d.tracker.crops[0]
      && d.tracker.crops[1..] == InitialCrops[1..]
      && d.tracker.input == "" && d.banner
  {
  }

  /** The progress label of the selected crop on page load: 90 %. */
  lemma InitialProgressLabel()
    ensures PercentLabel(Init().tracker.selected) == Num(90.0)
  {
  }
}
