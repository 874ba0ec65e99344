/** Special cards: entries that start a new page or change the default
    label instead of carrying content.  Checking a card also repairs it in
    place; the model returns the repaired card. */
module Specials {
  import opened Wrappers
  import opened Yaml

  /** Whether the mapping holds one of the special keys. */
  predicate HasSpecialKey(d: Dict) {
    "newpage" in d || "newlabel" in d || "newlabelsize" in d
  }

  /** Values Python considers equal to `True`. */
  predicate EqualsTrue(v: Scalar) {
    v == Bool(true) || v == Int(1) || v == Real(1.0)
  }

  /** Why a check stops the generator: a `newlabelsize` that `int()`
      cannot convert. */
  datatype SpecialError = BadLabelSize(value: Scalar)

  /** What later code expects of the special keys of a checked card. */
  predicate Repaired(d: Dict) {
    && ("newpage" in d ==> EqualsTrue(d["newpage"]))
    && ("newlabel" in d ==> d["newlabel"].Str?)
    && ("newlabelsize" in d ==> d["newlabelsize"].Int? || d["newlabelsize"].Bool?)
  }

  /** The keys that the repairs may touch. */
  const SpecialKeys: set<string> := {"newpage", "newlabel", "newlabelsize"}

  /** Every key outside `SpecialKeys` has the same value in both. */
  ghost predicate SameOrdinaryKeys(a: Dict, b: Dict) {
    forall k :: k !in SpecialKeys ==> (k in a <==> k in b) && (k in a ==> a[k] == b[k])
  }

  /** A `newpage` other than true becomes true. */
  function RepairNewpage(d: Dict): Dict {
    if "newpage" in d && !EqualsTrue(d["newpage"]) then d["newpage" := Bool(true)] else d
  }

  /** A `newlabel` that is not a string is deleted. */
  function RepairNewlabel(d: Dict): Dict {
    if "newlabel" in d && !d["newlabel"].Str? then d - {"newlabel"} else d
  }

  /** A `newlabelsize` that is not an integer is converted with `int()`,
      which may fail. */
  function RepairLabelSize(d: Dict): Result<Dict, SpecialError> {
    if "newlabelsize" in d && !(d["newlabelsize"].Int? || d["newlabelsize"].Bool?) then
      match AsInt(d["newlabelsize"])
      case None => Err(BadLabelSize(d["newlabelsize"]))
      case Some(k) => Ok(d["newlabelsize" := Int(k)])
    else Ok(d)
  }

  /** The in-place repairs of a card, in the order the generator makes
      them. */
  function Repair(d: Dict): (r: Result<Dict, SpecialError>)
    ensures r.Err? ==> "newlabelsize" in d && AsInt(d["newlabelsize"]).None?
    ensures r.Ok? ==> Repaired(r.value) && forall k :: k in r.value ==> k in d
  {
    NewpageMeans(d);
    NewlabelMeans(RepairNewpage(d));
    LabelSizeMeans(RepairNewlabel(RepairNewpage(d)));
    match RepairLabelSize(RepairNewlabel(RepairNewpage(d)))
    case Err(e) => Err(e)
    case Ok(d') => Ok(d')
  }

  /** After the `newpage` repair, `newpage` is true if present, and no
      other key changed. */
  lemma NewpageMeans(d: Dict)
    ensures "newpage" in RepairNewpage(d) ==> EqualsTrue(RepairNewpage(d)["newpage"])
    ensures "newpage" in RepairNewpage(d) <==> "newpage" in d
    ensures forall k :: k != "newpage" ==> (k in RepairNewpage(d) <==> k in d) && (k in d ==> RepairNewpage(d)[k] == d[k])
  {
  }

  /** After the `newlabel` repair, `newlabel` is a string if present,
      and no other key changed. */
  lemma NewlabelMeans(d: Dict)
    ensures "newlabel" in RepairNewlabel(d) <==> "newlabel" in d && d["newlabel"].Str?
    ensures "newlabel" in RepairNewlabel(d) ==> RepairNewlabel(d)["newlabel"] == d["newlabel"]
    ensures forall k :: k != "newlabel" ==> (k in RepairNewlabel(d) <==> k in d) && (k in d ==> RepairNewlabel(d)[k] == d[k])
  {
  }

  /** The `newlabelsize` repair fails exactly when `int()` does; otherwise
      `newlabelsize` is an integer if present, and no other key changed. */
  lemma LabelSizeMeans(d: Dict)
    ensures RepairLabelSize(d).Err? <==> "newlabelsize" in d && AsInt(d["newlabelsize"]).None?
    ensures RepairLabelSize(d).Ok? ==>
              var r := RepairLabelSize(d).value;
              && ("newlabelsize" in r <==> "newlabelsize" in d)
              && ("newlabelsize" in r ==> r["newlabelsize"].Int? || r["newlabelsize"].Bool?)
              && forall k :: k != "newlabelsize" ==> (k in r <==> k in d) && (k in d ==> r[k] == d[k])
  {
  }

  /** The repairs fail exactly on a `newlabelsize` that `int()` rejects;
      otherwise they leave the special keys as later code expects them,
      keep or drop each special key as described, and leave every other
      key alone. */
  lemma RepairMeans(d: Dict)
    ensures Repair(d).Err? <==> "newlabelsize" in d && AsInt(d["newlabelsize"]).None?
    ensures Repair(d).Ok? ==> Repaired(Repair(d).value) && SameOrdinaryKeys(d, Repair(d).value)
    ensures Repair(d).Ok? ==> ("newpage" in Repair(d).value <==> "newpage" in d)
    ensures Repair(d).Ok? ==> ("newlabelsize" in Repair(d).value <==> "newlabelsize" in d)
    ensures Repair(d).Ok? ==> ("newlabel" in Repair(d).value <==> "newlabel" in d && d["newlabel"].Str?)
  {
    var d1 := RepairNewpage(d);
    var d2 := RepairNewlabel(d1);
    NewpageMeans(d);
    NewlabelMeans(d1);
    LabelSizeMeans(d2);
    assert "newlabelsize" in d2 <==> "newlabelsize" in d;
    if "newlabelsize" in d {
      assert d2["newlabelsize"] == d["newlabelsize"];
    }
    if Repair(d).Ok? {
      var d3 := Repair(d).value;
      assert d3 == RepairLabelSize(d2).value;
      assert "newpage" in d3 ==> d3["newpage"] == d1["newpage"];
      assert "newlabel" in d3 ==> d3["newlabel"] == d2["newlabel"];
    }
  }

  /** An ordinary key keeps its value. */
  lemma KeptKey(a: Dict, b: Dict, k: string)
    requires SameOrdinaryKeys(a, b) && k !in SpecialKeys
    ensures k in a <==> k in b
    ensures k in a ==> a[k] == b[k]
  {
  }

  /** A repaired mapping needs no further repair. */
  lemma RepairIdempotent(d: Dict)
    requires Repair(d).Ok?
    ensures Repair(Repair(d).value) == Repair(d)
  {
    RepairMeans(d);
    var r := Repair(d).value;
    assert RepairNewpage(r) == r;
    assert RepairNewlabel(r) == r;
    assert RepairLabelSize(r) == Ok(r);
  }

  /** The outcome of a check: whether the card is special, and the card as
      left by the repairs. */
  datatype Checked = Checked(special: bool, card: Entry)

  /** `check_special`.  A card is special when it has a special key, no
      `text`, and is not left empty by the repairs (the check returns the
      repaired mapping, and an empty mapping is false in Python). */
  function CheckSpecial(c: Entry): (r: Result<Checked, SpecialError>)
    ensures !c.Record? ==> r == Ok(Checked(false, c))
    ensures r.Err? ==> c.Record? && "newlabelsize" in c.fields
    ensures r.Ok? && r.value.special ==> c.Record? && HasSpecialKey(c.fields) && r.value.card.Record? && "text" !in r.value.card.fields
  {
    match c
    case Plain(_) => Ok(Checked(false, c))
    case Bare(_) => Ok(Checked(false, c))
    case Record(d) =>
      match Repair(d)
      case Err(e) => Err(e)
      case Ok(d') => Ok(Checked(HasSpecialKey(d) && "text" !in d' && d' != map[], Record(d')))
  }

  /** A string or other scalar is never special; a mapping fails the check exactly when
      its `newlabelsize` cannot be converted, and otherwise comes back
      repaired, special when it has a special key, no `text`, and is not
      left empty. */
  lemma CheckSpecialMeans(c: Entry)
    ensures !c.Record? ==> CheckSpecial(c) == Ok(Checked(false, c))
    ensures CheckSpecial(c).Err? <==> c.Record? && "newlabelsize" in c.fields && AsInt(c.fields["newlabelsize"]).None?
    ensures CheckSpecial(c).Ok? && c.Record? ==> CheckSpecial(c).value.card == Record(Repair(c.fields).value)
    ensures CheckSpecial(c).Ok? ==> (CheckSpecial(c).value.special <==>
              c.Record? && HasSpecialKey(c.fields) && "text" !in c.fields && Repair(c.fields).value != map[])
  {
    if c.Record? {
      RepairMeans(c.fields);
    }
  }

  /** Checking a card again after a check that kept a special key gives
      the same answer: the classification is stable whenever the repairs
      did not remove the card's only special key. */
  lemma CheckSpecialStable(c: Entry)
    requires CheckSpecial(c).Ok?
    requires c.Record? ==> HasSpecialKey(Repair(c.fields).value) == HasSpecialKey(c.fields)
    ensures CheckSpecial(CheckSpecial(c).value.card) == CheckSpecial(c)
  {
    if c.Record? {
      RepairMeans(c.fields);
      RepairIdempotent(c.fields);
    }
  }

  /** A card whose only special key is an invalid `newlabel`, next to some
      other non-text key, is special when first checked but not when its
      repaired form is checked again. */
  lemma CheckSpecialUnstable()
    ensures var c := Record(map["newlabel" := Int(5), "size" := Int(1)]);
            && CheckSpecial(c).Ok? && CheckSpecial(c).value.special
            && CheckSpecial(CheckSpecial(c).value.card).Ok?
            && !CheckSpecial(CheckSpecial(c).value.card).value.special
  {
    var d := map["newlabel" := Int(5), "size" := Int(1)];
    var d' := map["size" := Int(1)];
    assert RepairNewpage(d) == d;
    assert RepairNewlabel(d) == d';
    assert Repair(d) == Ok(d');
    assert "size" in d';
    assert Repair(d') == Ok(d');
  }
}
