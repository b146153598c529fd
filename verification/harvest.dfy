/**
 The capacity-clamped harvest tracker shared by the landing-page demo and the
 dashboard widget. Its state is an ordered list of crops, the selected crop
 (a copy of one list entry, as React keeps it) and the raw text of the amount
 input. The page's `parseFloat` is a parameter `parse`, so the model is
 independent of JavaScript's string-to-number rules.
 */
module Harvest {
  import opened Options
  import opened JsNumbers

  /** One crop card: `harvested` of `total` tons. */
  datatype Crop = Crop(name: string, icon: string, harvested: real, total: real)

  /** The tracker's React state: crop list, selected crop and amount input text. */
  datatype Tracker = Tracker(crops: seq<Crop>, selected: Crop, input: string)

  /** An amount the handler's guard lets through: a positive finite value or `Infinity`. */
  datatype Amount = Finite(value: real) | Infinite

  predicate Positive(a: Amount) {
    a.Infinite? || a.value > 0.0
  }

  type Accepted = a: Amount | Positive(a) witness Infinite

  /** The capacity invariant of a single crop. */
  predicate CropOk(c: Crop) {
    0.0 <= c.harvested <= c.total && c.total > 0.0
  }

  /** Names identify crops: no two entries share one. */
  predicate UniqueNames(cs: seq<Crop>) {
    forall i, j :: 0 <= i < j < |cs| ==> cs[i].name != cs[j].name
  }

  /** Every crop respects its capacity, and the selection is an entry of the list. */
  predicate Valid(t: Tracker) {
    && (forall i :: 0 <= i < |t.crops| ==> CropOk(t.crops[i]))
    && t.selected in t.crops
  }

  /** The early-return test of the update handler, `!amount || amount <= 0 || isNaN(amount)`. */
  function Rejects(n: JsNumber): (b: bool)
    ensures b <==> n.NaN? || n.NegInf? || (n.Num? && n.value <= 0.0)
  {
    Falsy(n) || AtMostZero(n) || n.NaN?
  }

  /** The handler's guard: the parsed number, or nothing when the handler returns early. */
  function Validate(n: JsNumber): (a: Option<Accepted>)
    ensures a.None? <==> (n.NaN? || n.NegInf? || (n.Num? && n.value <= 0.0))
    ensures n.Num? && n.value > 0.0 ==> a == Some(Finite(n.value))
    ensures n.PosInf? ==> a == Some(Infinite)
  {
    if Rejects(n) then None
    else if n.Num? then Some(Finite(n.value))
    else Some(Infinite)
  }

  /** `Math.min(harvested + amount, total)`: a saturating add that never passes capacity. */
  function Clamp(c: Crop, a: Accepted): (h: real)
    ensures h <= c.total
    ensures c.harvested <= c.total ==> c.harvested <= h
    ensures c.harvested <= c.total ==> (h == c.total <==> a.Infinite? || c.harvested + a.value >= c.total)
    ensures a.Finite? && c.harvested + a.value <= c.total ==> h == c.harvested + a.value
  {
    match a
    case Finite(v) => Min(c.harvested + v, c.total)
    case Infinite => c.total
  }

  /** The callback of `cropsData.map`: bump the crop whose name matches, copy the others. */
  function Bump(c: Crop, name: string, a: Accepted): Crop {
    if c.name == name then c.(harvested := Clamp(c, a)) else c
  }

  /** The rebuilt crop list: same length and order, only crops named `name` are bumped. */
  function UpdateCrops(cs: seq<Crop>, name: string, a: Accepted): (r: seq<Crop>)
    ensures |r| == |cs|
    ensures forall i :: 0 <= i < |cs| && cs[i].name != name ==> r[i] == cs[i]
    ensures forall i :: 0 <= i < |cs| && cs[i].name == name ==>
              r[i] == cs[i].(harvested := Clamp(cs[i], a))
  {
    if cs == [] then [] else [Bump(cs[0], name, a)] + UpdateCrops(cs[1..], name, a)
  }

  /** `Array.prototype.find` by name: the first crop carrying `name`, if any. */
  function FindByName(cs: seq<Crop>, name: string): (r: Option<Crop>)
    ensures r.None? <==> forall i :: 0 <= i < |cs| ==> cs[i].name != name
    ensures r.Some? ==> r.value in cs && r.value.name == name
    ensures forall i :: 0 <= i < |cs| && cs[i].name == name && (forall k :: 0 <= k < i ==> cs[k].name != name) ==>
              r == Some(cs[i])
  {
    if cs == [] then None
    else if cs[0].name == name then Some(cs[0])
    else FindByName(cs[1..], name)
  }

  /** Clicking the card at `index`: that entry becomes the selection. */
  function Select(t: Tracker, index: nat): (r: Tracker)
    requires index < |t.crops|
    ensures r.selected == t.crops[index]
    ensures r.crops == t.crops && r.input == t.input
  {
    t.(selected := t.crops[index])
  }

  /** Typing into the amount field: the text is stored verbatim, nothing is parsed. */
  function SetInput(t: Tracker, text: string): (r: Tracker)
    ensures r.input == text
    ensures r.crops == t.crops && r.selected == t.selected
  {
    t.(input := text)
  }

  /**
   The update handler once `parseFloat` has produced `n`: a rejected amount
   changes nothing; an accepted one bumps the selected crop, refreshes the
   selection to the updated entry and clears the input.
   */
  function CommitAmount(t: Tracker, n: JsNumber): (r: Tracker)
    ensures Rejects(n) ==> r == t
    ensures !Rejects(n) ==> r.input == ""
    ensures |r.crops| == |t.crops|
    ensures forall i :: 0 <= i < |t.crops| ==>
              r.crops[i].name == t.crops[i].name && r.crops[i].icon == t.crops[i].icon && r.crops[i].total == t.crops[i].total
    ensures forall i :: 0 <= i < |t.crops| && t.crops[i].name != t.selected.name ==> r.crops[i] == t.crops[i]
    ensures r.selected.name == t.selected.name
    ensures t.selected in t.crops ==> r.selected in r.crops
  {
    match Validate(n)
    case None => t
    case Some(a) =>
      var updated := UpdateCrops(t.crops, t.selected.name, a);
      var selected := match FindByName(updated, t.selected.name)
        case Some(c) => c
        case None => t.selected;
      Tracker(updated, selected, "")
  }

  /** `handleUpdateHarvest`: parse the input, then commit the parsed amount. */
  function Commit(t: Tracker, parse: string -> JsNumber): (r: Tracker)
    ensures Rejects(parse(t.input)) ==> r == t
    ensures !Rejects(parse(t.input)) ==> r.input == "" && |r.crops| == |t.crops|
  {
    CommitAmount(t, parse(t.input))
  }

  /** The button's `disabled={!harvestInput || parseFloat(harvestInput) <= 0}`, negated. */
  function ButtonEnabled(input: string, parse: string -> JsNumber): (b: bool)
    ensures b <==> input != "" && (parse(input).NaN? || parse(input).PosInf? || (parse(input).Num? && parse(input).value > 0.0))
  {
    input != "" && !AtMostZero(parse(input))
  }

  /** The progress-bar value `harvested / total * 100`. */
  function Progress(c: Crop): (p: JsNumber)
    ensures CropOk(c) ==> p.Num? && 0.0 <= p.value <= 100.0
  {
    var p := Scale(Divide(c.harvested, c.total), 100.0);
    if CropOk(c) then
      RatioAtMostOne(c.harvested, c.total);
      p
    else p
  }

  /** The percentage label `Math.round(harvested / total * 100)`. */
  function PercentLabel(c: Crop): (p: JsNumber)
    ensures CropOk(c) ==> p.Num? && 0.0 <= p.value <= 100.0 && p.value == p.value.Floor as real
  {
    Round(Progress(c))
  }

  lemma RatioAtMostOne(h: real, total: real)
    requires 0.0 <= h <= total && total > 0.0
    ensures 0.0 <= h / total <= 1.0
  {
  }
}
