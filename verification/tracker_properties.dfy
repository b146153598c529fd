/**
 Properties of single tracker transitions: the capacity invariant is kept,
 harvests never shrink, only the selected crop moves, a full crop stays full,
 and repeated commits add up to a clamped sum.
 */
module TrackerProperties {
  import opened Options
  import opened JsNumbers
  import opened Harvest

  /** The harvested amount the selected crop ends up with after a commit of `n`. */
  lemma CommitClampsSelected(t: Tracker, n: JsNumber, j: nat)
    requires j < |t.crops| && t.crops[j].name == t.selected.name
    requires !Rejects(n)
    ensures n.Num? ==> CommitAmount(t, n).crops[j].harvested == Min(t.crops[j].harvested + n.value, t.crops[j].total)
    ensures n.PosInf? ==> CommitAmount(t, n).crops[j].harvested == t.crops[j].total
  {
  }

  /** A commit keeps `0 <= harvested <= total` and `total > 0` for every crop. */
  lemma CommitKeepsCapacity(t: Tracker, n: JsNumber)
    requires forall i :: 0 <= i < |t.crops| ==> CropOk(t.crops[i])
    ensures forall i :: 0 <= i < |t.crops| ==> CropOk(CommitAmount(t, n).crops[i])
  {
  }

  /** A commit keeps the capacity invariant and the selection in the list. */
  lemma CommitPreservesValid(t: Tracker, n: JsNumber)
    requires Valid(t)
    ensures Valid(CommitAmount(t, n))
  {
  }

  /** Names are never rewritten, so unique names stay unique. */
  lemma CommitPreservesUniqueNames(t: Tracker, n: JsNumber)
    requires UniqueNames(t.crops)
    ensures UniqueNames(CommitAmount(t, n).crops)
  {
  }

  /** Under the capacity invariant no crop's harvest ever decreases. */
  lemma CommitNeverDecreases(t: Tracker, n: JsNumber)
    requires forall i :: 0 <= i < |t.crops| ==> CropOk(t.crops[i])
    ensures forall i :: 0 <= i < |t.crops| ==> CommitAmount(t, n).crops[i].harvested >= t.crops[i].harvested
  {
  }

  /**
   With unique names the name-based update touches exactly the entry `j` of
   the selected crop, and the refreshed selection is that updated entry.
   */
  lemma CommitTouchesOnlySelected(t: Tracker, n: JsNumber, j: nat)
    requires UniqueNames(t.crops)
    requires j < |t.crops| && t.crops[j].name == t.selected.name
    ensures forall i :: 0 <= i < |t.crops| && i != j ==> CommitAmount(t, n).crops[i] == t.crops[i]
    ensures !Rejects(n) ==> CommitAmount(t, n).selected == CommitAmount(t, n).crops[j]
  {
  }

  /** A crop already at capacity stays there: committing to it changes neither the list nor the selection. */
  lemma SaturatedCommitChangesNothing(t: Tracker, n: JsNumber)
    requires Valid(t) && UniqueNames(t.crops)
    requires t.selected.harvested == t.selected.total
    ensures CommitAmount(t, n).crops == t.crops
    ensures CommitAmount(t, n).selected == t.selected
  {
    var j :| 0 <= j < |t.crops| && t.crops[j] == t.selected;
    CommitTouchesOnlySelected(t, n, j);
    if !Rejects(n) {
      var r := CommitAmount(t, n);
      assert r.crops[j] == t.crops[j];
      assert r.crops == t.crops;
    }
  }

  /** Without the capacity invariant a commit can lower a harvest: the clamp cuts an over-full crop back to `total`. */
  lemma OverfullCropIsCutBack(t: Tracker, j: nat)
    requires j < |t.crops| && t.crops[j].name == t.selected.name
    requires t.crops[j].harvested > t.crops[j].total
    ensures CommitAmount(t, Num(1.0)).crops[j].harvested < t.crops[j].harvested
  {
  }

  /** Selecting a card keeps the invariant. */
  lemma SelectPreservesValid(t: Tracker, index: nat)
    requires Valid(t) && index < |t.crops|
    ensures Valid(Select(t, index))
  {
  }

  /** A button enabled for text the handler rejects: a non-empty input that parses to NaN. */
  lemma NaNInputEnablesButton(t: Tracker, parse: string -> JsNumber)
    requires t.input != "" && parse(t.input).NaN?
    ensures ButtonEnabled(t.input, parse)
    ensures Commit(t, parse) == t
  {
  }

  /** Every input the handler accepts also enables the button, because `parseFloat("")` is NaN. */
  lemma AcceptedInputEnablesButton(input: string, parse: string -> JsNumber)
    requires parse("").NaN?
    ensures !Rejects(parse(input)) ==> ButtonEnabled(input, parse)
  {
  }

  function Sum(amounts: seq<real>): real {
    if amounts == [] then 0.0 else amounts[0] + Sum(amounts[1..])
  }

  /** Commits of the finite amounts `amounts`, one after another. */
  function CommitAll(t: Tracker, amounts: seq<real>): Tracker
    decreases |amounts|
  {
    if amounts == [] then t else CommitAll(CommitAmount(t, Num(amounts[0])), amounts[1..])
  }

  /** The harvest after clamping at `total` once per added amount. */
  function ClampEach(h: real, amounts: seq<real>, total: real): real
    decreases |amounts|
  {
    if amounts == [] then h else ClampEach(Min(h + amounts[0], total), amounts[1..], total)
  }

  lemma {:induction false} SumOfPositives(amounts: seq<real>)
    requires forall k :: 0 <= k < |amounts| ==> amounts[k] > 0.0
    ensures Sum(amounts) >= 0.0
  {
    if amounts != [] {
      SumOfPositives(amounts[1..]);
    }
  }

  /** Clamping after each of two additions equals clamping once after both. */
  lemma ClampTwice(h: real, a: real, b: real, total: real)
    requires b >= 0.0
    ensures Min(Min(h + a, total) + b, total) == Min(h + (a + b), total)
  {
  }

  /** Clamping after every positive addition equals clamping the sum once. */
  lemma {:induction false} ClampEachIsClampedSum(h: real, amounts: seq<real>, total: real)
    requires h <= total
    requires forall k :: 0 <= k < |amounts| ==> amounts[k] > 0.0
    ensures ClampEach(h, amounts, total) == Min(h + Sum(amounts), total)
    decreases |amounts|
  {
    if amounts != [] {
      var a, rest := amounts[0], amounts[1..];
      ClampEachIsClampedSum(Min(h + a, total), rest, total);
      SumOfPositives(rest);
      ClampTwice(h, a, Sum(rest), total);
    }
  }

  /** The crop list after bumping the crops named `name` by each amount in turn. */
  function UpdateAll(cs: seq<Crop>, name: string, amounts: seq<real>): (r: seq<Crop>)
    requires forall k :: 0 <= k < |amounts| ==> amounts[k] > 0.0
    decreases |amounts|
  {
    if amounts == [] then cs else UpdateAll(UpdateCrops(cs, name, Finite(amounts[0])), name, amounts[1..])
  }

  /** Successive commits rebuild the list exactly as successive name-based updates do. */
  lemma {:induction false} CommitAllIsUpdateAll(t: Tracker, amounts: seq<real>)
    requires forall k :: 0 <= k < |amounts| ==> amounts[k] > 0.0
    ensures CommitAll(t, amounts).crops == UpdateAll(t.crops, t.selected.name, amounts)
    decreases |amounts|
  {
    if amounts != [] {
      var t' := CommitAmount(t, Num(amounts[0]));
      assert t'.crops == UpdateCrops(t.crops, t.selected.name, Finite(amounts[0]));
      CommitAllIsUpdateAll(t', amounts[1..]);
    }
  }

  /** Entry `j`, named `name`, is clamped after every amount; its capacity is kept. */
  lemma {:induction false} UpdateAllClampsEach(cs: seq<Crop>, name: string, amounts: seq<real>, j: nat)
    requires j < |cs| && cs[j].name == name
    requires forall k :: 0 <= k < |amounts| ==> amounts[k] > 0.0
    ensures |UpdateAll(cs, name, amounts)| == |cs|
    ensures UpdateAll(cs, name, amounts)[j].name == name
    ensures UpdateAll(cs, name, amounts)[j].total == cs[j].total
    ensures UpdateAll(cs, name, amounts)[j].harvested == ClampEach(cs[j].harvested, amounts, cs[j].total)
    decreases |amounts|
  {
    if amounts != [] {
      var cs' := UpdateCrops(cs, name, Finite(amounts[0]));
      UpdateAllClampsEach(cs', name, amounts[1..], j);
    }
  }

  /** Successive commits to the selected crop clamp after every amount. */
  lemma {:induction false} RepeatedCommitsClampEach(t: Tracker, amounts: seq<real>, j: nat)
    requires j < |t.crops| && t.crops[j].name == t.selected.name
    requires forall k :: 0 <= k < |amounts| ==> amounts[k] > 0.0
    ensures |CommitAll(t, amounts).crops| == |t.crops|
    ensures CommitAll(t, amounts).crops[j].total == t.crops[j].total
    ensures CommitAll(t, amounts).crops[j].harvested == ClampEach(t.crops[j].harvested, amounts, t.crops[j].total)
  {
    CommitAllIsUpdateAll(t, amounts);
    UpdateAllClampsEach(t.crops, t.selected.name, amounts, j);
  }

  /** The entry named `name`, starting within capacity, ends at `min(harvested + sum, total)`. */
  lemma {:induction false} UpdateAllClampsTheSum(cs: seq<Crop>, name: string, amounts: seq<real>, j: nat)
    requires j < |cs| && cs[j].name == name && cs[j].harvested <= cs[j].total
    requires forall k :: 0 <= k < |amounts| ==> amounts[k] > 0.0
    ensures |UpdateAll(cs, name, amounts)| == |cs|
    ensures UpdateAll(cs, name, amounts)[j].harvested == Min(cs[j].harvested + Sum(amounts), cs[j].total)
  {
    UpdateAllClampsEach(cs, name, amounts, j);
    ClampEachIsClampedSum(cs[j].harvested, amounts, cs[j].total);
  }

  /** After successive commits of positive amounts the selected crop holds `min(harvested + sum, total)`. */
  lemma {:induction false} RepeatedCommitsClampTheSum(t: Tracker, amounts: seq<real>, j: nat)
    requires j < |t.crops| && t.crops[j].name == t.selected.name && CropOk(t.crops[j])
    requires forall k :: 0 <= k < |amounts| ==> amounts[k] > 0.0
    ensures |CommitAll(t, amounts).crops| == |t.crops|
    ensures CommitAll(t, amounts).crops[j].harvested == Min(t.crops[j].harvested + Sum(amounts), t.crops[j].total)
  {
    var cs := UpdateAll(t.crops, t.selected.name, amounts);
    assert CommitAll(t, amounts).crops == cs by {
      CommitAllIsUpdateAll(t, amounts);
    }
    assert |cs| == |t.crops| && cs[j].harvested == Min(t.crops[j].harvested + Sum(amounts), t.crops[j].total) by {
      UpdateAllClampsTheSum(t.crops, t.selected.name, amounts, j);
    }
  }
}
