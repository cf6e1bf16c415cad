/**
 * lethalgem/day_15/part_2: the HASHMAP procedure.  Each step names a lens
 * label, the box the label hashes to, and either a focal length (`=`) or a
 * removal (`-`).  The boxes are a map from box number to the lenses in it,
 * updated one step at a time; the answer is the total focusing power.
 */
module LethalgemDay15Part2 {
  import opened Text
  import P1 = LethalgemDay15Part1

  datatype Step = Step(lensBox: nat, lensLabel: string, focalLength: Option<nat>, hashResult: nat)

  predicate IsOperation(c: char) { c == '-' || c == '=' }

  /** `Step::get_label`: the longest prefix holding neither `-` nor `=`. */
  function Label(s: string): (r: string)
    ensures |r| <= |s| && r == s[..|r|]
    ensures forall i :: 0 <= i < |r| ==> !IsOperation(r[i])
    ensures |r| < |s| ==> IsOperation(s[|r|])
    decreases |s|
  {
    if s == [] || IsOperation(s[0]) then [] else [s[0]] + Label(s[1..])
  }

  /** The three properties of `Label` single it out: no other prefix has them. */
  lemma {:induction false} LabelUnique(s: string, r: string)
    requires |r| <= |s| && r == s[..|r|]
    requires forall i :: 0 <= i < |r| ==> !IsOperation(r[i])
    requires |r| < |s| ==> IsOperation(s[|r|])
    ensures r == Label(s)
  {
  }

  /** The label loop: characters are copied until the first operation character. */
  method GetLabel(s: string) returns (lensLabel: string)
    ensures lensLabel == Label(s)
  {
    lensLabel := [];
    var i := 0;
    while i < |s|
      invariant 0 <= i <= |s|
      invariant lensLabel == s[..i]
      invariant forall k :: 0 <= k < i ==> !IsOperation(s[k])
    {
      if s[i] != '-' && s[i] != '=' {
        lensLabel := lensLabel + [s[i]];
      } else {
        break;
      }
      i := i + 1;
    }
    LabelUnique(s, lensLabel);
  }

  /** `Step::get_focal_length`: the last character read as a decimal digit; none after `-` or on an empty step. */
  function FocalLength(s: string): (r: Option<nat>)
    ensures r.Some? <==> s != [] && IsDigit(s[|s| - 1])
    ensures r.Some? ==> r.value < 10
  {
    if s == [] then None
    else if s[|s| - 1] == '-' then None
    else if IsDigit(s[|s| - 1]) then Some(DigitValue(s[|s| - 1]))
    else None
  }

  /** `Step::new`: the label, its box, the focal length and the hash of the whole step.  It never fails. */
  function StepNew(s: string): (step: Step)
    ensures step.lensBox < 256 && step.hashResult < 256
    ensures step.lensBox == P1.Hash(step.lensLabel)
  {
    var lensLabel := Label(s);
    Step(P1.Hash(lensLabel), lensLabel, FocalLength(s), P1.Hash(s))
  }

  /** A step written the puzzle's way: `label-`, or `label=` followed by one digit. */
  function Format(lensLabel: string, focal: Option<nat>): string
    requires focal.Some? ==> focal.value < 10
  {
    match focal
    case None => lensLabel + "-"
    case Some(f) => lensLabel + "=" + [('0' as int + f) as char]
  }

  /** Reading a well-formed step gives back its label, its box and its focal length. */
  lemma {:induction false} StepNewReadsFormat(lensLabel: string, focal: Option<nat>)
    requires forall i :: 0 <= i < |lensLabel| ==> !IsOperation(lensLabel[i])
    requires focal.Some? ==> focal.value < 10
    ensures StepNew(Format(lensLabel, focal)).lensLabel == lensLabel
    ensures StepNew(Format(lensLabel, focal)).lensBox == P1.Hash(lensLabel)
    ensures StepNew(Format(lensLabel, focal)).focalLength == focal
  {
    var s := Format(lensLabel, focal);
    assert s[..|lensLabel|] == lensLabel;
    LabelUnique(s, lensLabel);
  }

  /** `extract_steps`: one step per comma-separated piece, in order. */
  function ExtractSteps(input: string): (steps: seq<Step>)
    ensures |steps| == |Split(input, ',')|
    ensures forall i :: 0 <= i < |steps| ==> steps[i] == StepNew(Split(input, ',')[i])
  {
    var pieces := Split(input, ',');
    seq(|pieces|, i requires 0 <= i < |pieces| => StepNew(pieces[i]))
  }

  // ---------------------------------------------------------------------
  // The lenses of one box

  /** `iter().position(|lens| lens.label == label)`, with `|lenses|` for none. */
  function Position(lenses: seq<Step>, lensLabel: string): (i: nat)
    ensures i <= |lenses|
    ensures i < |lenses| ==> lenses[i].lensLabel == lensLabel
    ensures forall k :: 0 <= k < i ==> lenses[k].lensLabel != lensLabel
    decreases |lenses|
  {
    if lenses == [] then 0
    else if lenses[0].lensLabel == lensLabel then 0
    else 1 + Position(lenses[1..], lensLabel)
  }

  predicate UniqueLabels(lenses: seq<Step>)
  {
    forall i, j :: 0 <= i < j < |lenses| ==> lenses[i].lensLabel != lenses[j].lensLabel
  }

  /** The box after an `=` step: the lens with the same label is swapped in place, or the new lens goes last. */
  function Replaced(lenses: seq<Step>, step: Step): seq<Step>
  {
    var i := Position(lenses, step.lensLabel);
    if i < |lenses| then lenses[..i] + [step] + lenses[i + 1..] else lenses + [step]
  }

  /** The box after a `-` step: the first lens with the label is taken out. */
  function Removed(lenses: seq<Step>, lensLabel: string): seq<Step>
  {
    var i := Position(lenses, lensLabel);
    if i < |lenses| then lenses[..i] + lenses[i + 1..] else lenses
  }

  /**
   * An `=` step keeps the box's length when the label is there and adds one
   * lens otherwise; the new lens sits where the old one was (or last), no
   * other lens moves, and labels stay unique.
   */
  lemma {:induction false} ReplacedFacts(lenses: seq<Step>, step: Step)
    ensures var r, i := Replaced(lenses, step), Position(lenses, step.lensLabel);
      && (i < |lenses| ==> |r| == |lenses| && r[i] == step)
      && (i == |lenses| ==> |r| == |lenses| + 1 && r[|lenses|] == step)
      && (forall k :: 0 <= k < |lenses| && k != i ==> r[k] == lenses[k])
    ensures UniqueLabels(lenses) ==> UniqueLabels(Replaced(lenses, step))
  {
  }

  /**
   * A `-` step takes out the one lens with the label, if there is one, and
   * keeps the rest in order; with unique labels, no lens with that label is left.
   */
  lemma {:induction false} RemovedFacts(lenses: seq<Step>, lensLabel: string)
    ensures var r, i := Removed(lenses, lensLabel), Position(lenses, lensLabel);
      && (i < |lenses| ==> |r| == |lenses| - 1)
      && (i == |lenses| ==> r == lenses)
      && (forall k :: 0 <= k < |r| ==> r[k] == lenses[if k < i then k else k + 1])
    ensures UniqueLabels(lenses) ==> UniqueLabels(Removed(lenses, lensLabel))
    ensures UniqueLabels(lenses) ==> forall k :: 0 <= k < |Removed(lenses, lensLabel)| ==> Removed(lenses, lensLabel)[k].lensLabel != lensLabel
  {
    RemovedShape(lenses, lensLabel);
    if UniqueLabels(lenses) {
      RemovedUnique(lenses, lensLabel);
    }
  }

  lemma RemovedShape(lenses: seq<Step>, lensLabel: string)
    ensures var r, i := Removed(lenses, lensLabel), Position(lenses, lensLabel);
      && (i < |lenses| ==> |r| == |lenses| - 1)
      && (i == |lenses| ==> r == lenses)
      && (forall k :: 0 <= k < |r| ==> r[k] == lenses[if k < i then k else k + 1])
  {
    var i := Position(lenses, lensLabel);
    if i < |lenses| {
      var before, after := lenses[..i], lenses[i + 1..];
      var r := before + after;
      assert Removed(lenses, lensLabel) == r;
      forall k | 0 <= k < |r|
        ensures r[k] == lenses[if k < i then k else k + 1]
      {
        if k < i {
          assert r[k] == before[k];
        } else {
          assert r[k] == after[k - i];
        }
      }
    }
  }

  lemma RemovedUnique(lenses: seq<Step>, lensLabel: string)
    requires UniqueLabels(lenses)
    ensures UniqueLabels(Removed(lenses, lensLabel))
    ensures forall k :: 0 <= k < |Removed(lenses, lensLabel)| ==> Removed(lenses, lensLabel)[k].lensLabel != lensLabel
  {
    RemovedShape(lenses, lensLabel);
  }

  // ---------------------------------------------------------------------
  // The boxes

  /** The `HashMap<u32, Vec<Step>>` of boxes that `sort_lenses` fills, with the helpers that write into it. */
  class Boxes {
    var boxes: map<nat, seq<Step>>

    constructor()
      ensures boxes == map[]
    {
      boxes := map[];
    }

    /** `boxes.insert(key, lenses)`. */
    method Insert(key: nat, lenses: seq<Step>)
      modifies this
      ensures boxes == old(boxes)[key := lenses]
    {
      boxes := boxes[key := lenses];
    }

    /** `replace_or_insert_lens`: remove-then-insert at the found index, or push. */
    method ReplaceOrInsertLens(lensesInBox: seq<Step>, step: Step)
      modifies this
      ensures boxes == old(boxes)[step.lensBox := Replaced(lensesInBox, step)]
    {
      var updated := lensesInBox;
      var i := Position(updated, step.lensLabel);
      if i < |updated| {
        updated := updated[..i] + updated[i + 1..];
        updated := updated[..i] + [step] + updated[i..];
      } else {
        updated := updated + [step];
      }
      boxes := boxes[step.lensBox := updated];
    }

    /** `remove_lens`: the box is written back even when nothing was removed. */
    method RemoveLens(lensesInBox: seq<Step>, step: Step)
      modifies this
      ensures boxes == old(boxes)[step.lensBox := Removed(lensesInBox, step.lensLabel)]
    {
      var updated := lensesInBox;
      var i := Position(updated, step.lensLabel);
      if i < |updated| {
        updated := updated[..i] + updated[i + 1..];
      }
      boxes := boxes[step.lensBox := updated];
    }
  }

  /** One step of `sort_lenses` on the boxes. */
  function Apply(boxes: map<nat, seq<Step>>, step: Step): map<nat, seq<Step>>
  {
    if step.focalLength.Some? then
      if step.lensBox in boxes then boxes[step.lensBox := Replaced(boxes[step.lensBox], step)]
      else boxes[step.lensBox := [step]]
    else if step.lensBox in boxes then boxes[step.lensBox := Removed(boxes[step.lensBox], step.lensLabel)]
    else boxes
  }

  /** The boxes after all the steps, in order. */
  function Arrangement(steps: seq<Step>): map<nat, seq<Step>>
    decreases |steps|
  {
    if steps == [] then map[] else Apply(Arrangement(steps[..|steps| - 1]), steps[|steps| - 1])
  }

  /** `sort_lenses`. */
  method SortLenses(steps: seq<Step>) returns (boxes: map<nat, seq<Step>>)
    ensures boxes == Arrangement(steps)
  {
    var table := new Boxes();
    for i := 0 to |steps|
      invariant table.boxes == Arrangement(steps[..i])
    {
      var step := steps[i];
      assert steps[..i + 1][..i] == steps[..i];
      if step.focalLength.Some? {
        if step.lensBox in table.boxes {
          table.ReplaceOrInsertLens(table.boxes[step.lensBox], step);
        } else {
          table.Insert(step.lensBox, [step]);
        }
      } else if step.lensBox in table.boxes {
        table.RemoveLens(table.boxes[step.lensBox], step);
      }
    }
    assert steps[..|steps|] == steps;
    boxes := table.boxes;
  }

  /** Only the step's own box changes, and a removal never creates a box. */
  lemma {:induction false} ApplyFrame(boxes: map<nat, seq<Step>>, step: Step)
    ensures forall k :: k != step.lensBox ==> (k in Apply(boxes, step) <==> k in boxes)
    ensures forall k :: k != step.lensBox && k in boxes ==> Apply(boxes, step)[k] == boxes[k]
    ensures step.focalLength.None? ==> Apply(boxes, step).Keys == boxes.Keys
    ensures step.focalLength.Some? ==> step.lensBox in Apply(boxes, step)
  {
  }

  /**
   * What the boxes always satisfy: every lens sits in the box its own
   * `lens_box` names, has a focal length, and labels within a box are unique.
   */
  predicate WellKept(boxes: map<nat, seq<Step>>)
  {
    forall k :: k in boxes ==>
      UniqueLabels(boxes[k]) &&
      forall i :: 0 <= i < |boxes[k]| ==> boxes[k][i].lensBox == k && boxes[k][i].focalLength.Some?
  }

  lemma {:induction false} ApplyKeeps(boxes: map<nat, seq<Step>>, step: Step)
    requires WellKept(boxes)
    ensures WellKept(Apply(boxes, step))
  {
    if step.lensBox in boxes {
      if step.focalLength.Some? {
        ReplacedFacts(boxes[step.lensBox], step);
      } else {
        RemovedFacts(boxes[step.lensBox], step.lensLabel);
      }
    }
  }

  lemma {:induction false} ArrangementKept(steps: seq<Step>)
    ensures WellKept(Arrangement(steps))
    decreases |steps|
  {
    if steps != [] {
      ArrangementKept(steps[..|steps| - 1]);
      ApplyKeeps(Arrangement(steps[..|steps| - 1]), steps[|steps| - 1]);
    }
  }

  /** With steps read from the input, every box number is a hash, so below 256. */
  lemma {:induction false} ArrangementBoxesAreHashes(steps: seq<Step>)
    requires forall i :: 0 <= i < |steps| ==> steps[i].lensBox < 256
    ensures forall k :: k in Arrangement(steps) ==> k < 256
    decreases |steps|
  {
    if steps != [] {
      ArrangementBoxesAreHashes(steps[..|steps| - 1]);
    }
  }

  // ---------------------------------------------------------------------
  // Focusing power

  /** The power of one lens in a slot (counted from 1). */
  function LensPower(lens: Step, slot: nat): nat
  {
    match lens.focalLength
    case Some(f) => (lens.lensBox + 1) * slot * f
    case None => 0
  }

  /** The power of a box's lenses, slot by slot. */
  function BoxPower(lenses: seq<Step>): nat
    decreases |lenses|
  {
    if lenses == [] then 0 else BoxPower(lenses[..|lenses| - 1]) + LensPower(lenses[|lenses| - 1], |lenses|)
  }

  function BoxTotal(boxes: map<nat, seq<Step>>, k: nat): nat
  {
    if k in boxes then BoxPower(boxes[k]) else 0
  }

  /** The power of the boxes visited in `order`. */
  function PowerOver(order: seq<nat>, boxes: map<nat, seq<Step>>): nat
    decreases |order|
  {
    if order == [] then 0 else PowerOver(order[..|order| - 1], boxes) + BoxTotal(boxes, order[|order| - 1])
  }

  /** `order` lists every box of the map exactly once: the `HashMap` iteration order. */
  ghost predicate VisitsEachOnce(order: seq<nat>, boxes: map<nat, seq<Step>>)
  {
    forall k :: multiset(order)[k] == if k in boxes then 1 else 0
  }

  /** Adds one box's lenses to the running total. */
  method AddBox(total0: nat, lenses: seq<Step>) returns (total: nat)
    ensures total == total0 + BoxPower(lenses)
  {
    total := total0;
    for i := 0 to |lenses|
      invariant total == total0 + BoxPower(lenses[..i])
    {
      assert lenses[..i + 1][..i] == lenses[..i];
      if lenses[i].focalLength.Some? {
        total := total + (lenses[i].lensBox + 1) * (i + 1) * lenses[i].focalLength.value;
      }
    }
    assert lenses[..|lenses|] == lenses;
  }

  /** `calc_focusing_power`, visiting the boxes in the map's iteration order. */
  method CalcFocusingPower(boxes: map<nat, seq<Step>>, order: seq<nat>) returns (total: nat)
    requires VisitsEachOnce(order, boxes)
    ensures total == PowerOver(order, boxes)
  {
    total := 0;
    for i := 0 to |order|
      invariant total == PowerOver(order[..i], boxes)
    {
      assert order[..i + 1][..i] == order[..i];
      assert order[i] in multiset(order);
      total := AddBox(total, boxes[order[i]]);
    }
    assert order[..|order|] == order;
  }

  /** Taking one box out of the visiting order takes its power out of the total. */
  lemma {:induction false} PowerOverRemove(order: seq<nat>, boxes: map<nat, seq<Step>>, j: nat)
    requires j < |order|
    ensures PowerOver(order, boxes) == PowerOver(order[..j] + order[j + 1..], boxes) + BoxTotal(boxes, order[j])
    decreases |order|
  {
    var n := |order| - 1;
    if j < n {
      var init := order[..n];
      PowerOverRemove(init, boxes, j);
      var rest := order[..j] + order[j + 1..];
      assert rest[..|rest| - 1] == init[..j] + init[j + 1..];
      assert rest[|rest| - 1] == order[n];
    } else {
      assert order[..j] + order[j + 1..] == order[..n];
    }
  }

  /** The total does not depend on the order the boxes are visited in. */
  lemma {:induction false} PowerOrderIndependent(o1: seq<nat>, o2: seq<nat>, boxes: map<nat, seq<Step>>)
    requires multiset(o1) == multiset(o2)
    ensures PowerOver(o1, boxes) == PowerOver(o2, boxes)
    decreases |o1|
  {
    if o1 != [] {
      var n := |o1| - 1;
      var x := o1[n];
      RemoveAt(o1, n);
      assert x in multiset(o2);
      var j :| 0 <= j < |o2| && o2[j] == x;
      RemoveAt(o2, j);
      PowerOverRemove(o2, boxes, j);
      PowerOverRemove(o1, boxes, n);
      PowerOrderIndependent(o1[..n] + o1[n + 1..], o2[..j] + o2[j + 1..], boxes);
    } else {
      assert |o2| == |multiset(o2)| == 0;
    }
  }

  lemma RemoveAt(s: seq<nat>, j: nat)
    requires j < |s|
    ensures multiset(s[..j] + s[j + 1..]) == multiset(s) - multiset{s[j]}
    ensures s[j] in multiset(s)
  {
    assert s == s[..j] + [s[j]] + s[j + 1..];
  }

  /** Any two visiting orders of the same boxes give the same focusing power. */
  lemma {:induction false} FocusingPowerWellDefined(boxes: map<nat, seq<Step>>, o1: seq<nat>, o2: seq<nat>)
    requires VisitsEachOnce(o1, boxes) && VisitsEachOnce(o2, boxes)
    ensures PowerOver(o1, boxes) == PowerOver(o2, boxes)
  {
    assert multiset(o1) == multiset(o2);
    PowerOrderIndependent(o1, o2, boxes);
  }

  // ---------------------------------------------------------------------
  // The example sequence `rn=1,cm-,qp=3,cm=2,qp-,pc=4,ot=9,ab=5,pc-,pc=6,ot=7`

  /**
   * Steps with the boxes, labels and focal lengths the extraction test lists
   * for it (the hash results play no part in the arrangement).
   */
  predicate IsExample(x: seq<Step>)
  {
    && |x| == 11
    && x[0].lensBox == 0 && x[0].lensLabel == "rn" && x[0].focalLength == Some(1)
    && x[1].lensBox == 0 && x[1].lensLabel == "cm" && x[1].focalLength == None
    && x[2].lensBox == 1 && x[2].lensLabel == "qp" && x[2].focalLength == Some(3)
    && x[3].lensBox == 0 && x[3].lensLabel == "cm" && x[3].focalLength == Some(2)
    && x[4].lensBox == 1 && x[4].lensLabel == "qp" && x[4].focalLength == None
    && x[5].lensBox == 3 && x[5].lensLabel == "pc" && x[5].focalLength == Some(4)
    && x[6].lensBox == 3 && x[6].lensLabel == "ot" && x[6].focalLength == Some(9)
    && x[7].lensBox == 3 && x[7].lensLabel == "ab" && x[7].focalLength == Some(5)
    && x[8].lensBox == 3 && x[8].lensLabel == "pc" && x[8].focalLength == None
    && x[9].lensBox == 3 && x[9].lensLabel == "pc" && x[9].focalLength == Some(6)
    && x[10].lensBox == 3 && x[10].lensLabel == "ot" && x[10].focalLength == Some(7)
  }

  /**
   * What the arrangement of the example depends on: each step's box and
   * operation, which steps share a label, and the focal lengths kept.
   */
  predicate ExampleShape(x: seq<Step>)
  {
    && |x| == 11
    && x[0].lensBox == 0 && x[1].lensBox == 0 && x[2].lensBox == 1 && x[3].lensBox == 0 && x[4].lensBox == 1
    && (forall i :: 5 <= i < 11 ==> x[i].lensBox == 3)
    && x[1].focalLength == None && x[4].focalLength == None && x[8].focalLength == None
    && x[0].focalLength == Some(1) && x[2].focalLength.Some? && x[3].focalLength == Some(2)
    && x[5].focalLength.Some? && x[6].focalLength.Some? && x[7].focalLength == Some(5)
    && x[9].focalLength == Some(6) && x[10].focalLength == Some(7)
    && x[1].lensLabel == x[3].lensLabel && x[2].lensLabel == x[4].lensLabel
    && x[5].lensLabel == x[8].lensLabel == x[9].lensLabel && x[6].lensLabel == x[10].lensLabel
    && x[0].lensLabel != x[1].lensLabel
    && x[5].lensLabel != x[6].lensLabel && x[5].lensLabel != x[7].lensLabel && x[6].lensLabel != x[7].lensLabel
  }

  lemma {:induction false} ExampleHasShape(x: seq<Step>)
    requires IsExample(x)
    ensures ExampleShape(x)
  {
    ExampleLabelsDistinct();
  }

  /** The steps exactly as the extraction test prints them. */
  const ExampleSteps: seq<Step> := [
    Step(0, "rn", Some(1), 30), Step(0, "cm", None, 253), Step(1, "qp", Some(3), 97),
    Step(0, "cm", Some(2), 47), Step(1, "qp", None, 14), Step(3, "pc", Some(4), 180),
    Step(3, "ot", Some(9), 9), Step(3, "ab", Some(5), 197), Step(3, "pc", None, 48),
    Step(3, "pc", Some(6), 214), Step(3, "ot", Some(7), 231)]

  lemma ExampleStepsAreExample()
    ensures IsExample(ExampleSteps)
  {
  }

  lemma {:induction false} ArrangementSnoc(steps: seq<Step>, k: nat)
    requires k < |steps|
    ensures Arrangement(steps[..k + 1]) == Apply(Arrangement(steps[..k]), steps[k])
  {
    assert steps[..k + 1][..k] == steps[..k];
  }

  lemma {:induction false} ApplyAppends(boxes: map<nat, seq<Step>>, step: Step)
    requires step.focalLength.Some? && step.lensBox in boxes
    requires forall i :: 0 <= i < |boxes[step.lensBox]| ==> boxes[step.lensBox][i].lensLabel != step.lensLabel
    ensures Apply(boxes, step) == boxes[step.lensBox := boxes[step.lensBox] + [step]]
  {
  }

  lemma {:induction false} ApplyReplacesAt(boxes: map<nat, seq<Step>>, step: Step, i: nat)
    requires step.focalLength.Some? && step.lensBox in boxes && i < |boxes[step.lensBox]|
    requires boxes[step.lensBox][i].lensLabel == step.lensLabel
    requires forall k :: 0 <= k < i ==> boxes[step.lensBox][k].lensLabel != step.lensLabel
    ensures Apply(boxes, step) == boxes[step.lensBox := boxes[step.lensBox][i := step]]
  {
    var b := boxes[step.lensBox];
    assert Position(b, step.lensLabel) == i;
    assert b[..i] + [step] + b[i + 1..] == b[i := step];
  }

  lemma {:induction false} ApplyRemovesAt(boxes: map<nat, seq<Step>>, step: Step, i: nat)
    requires step.focalLength.None? && step.lensBox in boxes && i < |boxes[step.lensBox]|
    requires boxes[step.lensBox][i].lensLabel == step.lensLabel
    requires forall k :: 0 <= k < i ==> boxes[step.lensBox][k].lensLabel != step.lensLabel
    ensures Apply(boxes, step) == boxes[step.lensBox := boxes[step.lensBox][..i] + boxes[step.lensBox][i + 1..]]
  {
    assert Position(boxes[step.lensBox], step.lensLabel) == i;
  }

  lemma {:induction false} BoxPowerOfTwo(a: Step, b: Step)
    ensures BoxPower([a, b]) == LensPower(a, 1) + LensPower(b, 2)
  {
    assert [a, b][..1] == [a];
    assert [a][..0] == [];
    assert BoxPower([a]) == LensPower(a, 1);
  }

  lemma {:induction false} BoxPowerOfThree(a: Step, b: Step, c: Step)
    ensures BoxPower([a, b, c]) == LensPower(a, 1) + LensPower(b, 2) + LensPower(c, 3)
  {
    assert [a, b, c][..2] == [a, b];
    BoxPowerOfTwo(a, b);
  }

  lemma {:induction false} PowerOverThree(boxes: map<nat, seq<Step>>, a: nat, b: nat, c: nat)
    ensures PowerOver([a, b, c], boxes) == BoxTotal(boxes, a) + BoxTotal(boxes, b) + BoxTotal(boxes, c)
  {
    assert [a, b, c][..2] == [a, b] && [a, b][..1] == [a] && [a][..0] == [];
    assert PowerOver([a], boxes) == BoxTotal(boxes, a);
    assert PowerOver([a, b], boxes) == BoxTotal(boxes, a) + BoxTotal(boxes, b);
  }

  /** The labels of the example differ in their first letter. */
  lemma ExampleLabelsDistinct()
    ensures "rn" != "cm" && "pc" != "ot" && "pc" != "ab" && "ot" != "ab"
  {
    assert "rn"[0] != "cm"[0];
    assert "pc"[0] != "ot"[0] && "pc"[0] != "ab"[0] && "ot"[0] != "ab"[0];
  }

  /** One more step of the arrangement, from known boxes to known boxes. */
  lemma {:induction false} ArrangementNext(x: seq<Step>, k: nat, before: map<nat, seq<Step>>, after: map<nat, seq<Step>>)
    requires k < |x| && Arrangement(x[..k]) == before && Apply(before, x[k]) == after
    ensures Arrangement(x[..k + 1]) == after
  {
    ArrangementSnoc(x, k);
  }

  /** After three steps box 0 holds `rn` and box 1 holds `qp` (`cm-` found nothing to remove). */
  lemma {:induction false} ExampleAfter3(x: seq<Step>)
    requires ExampleShape(x)
    ensures Arrangement(x[..3]) == map[0 := [x[0]], 1 := [x[2]]]
  {
    var m1 := map[0 := [x[0]]];
    assert x[..0] == [];
    ArrangementNext(x, 0, map[], m1);
    ArrangementNext(x, 1, m1, m1);
    ArrangementNext(x, 2, m1, map[0 := [x[0]], 1 := [x[2]]]);
  }

  /** `cm=2` goes behind `rn`. */
  lemma {:induction false} ExampleAfter4(x: seq<Step>)
    requires ExampleShape(x)
    ensures Arrangement(x[..4]) == map[0 := [x[0], x[3]], 1 := [x[2]]]
  {
    ExampleAfter3(x);
    ApplyAppends(map[0 := [x[0]], 1 := [x[2]]], x[3]);
    assert [x[0]] + [x[3]] == [x[0], x[3]];
    ArrangementNext(x, 3, map[0 := [x[0]], 1 := [x[2]]], map[0 := [x[0], x[3]], 1 := [x[2]]]);
  }

  /** `qp-` empties box 1, which stays in the map. */
  lemma {:induction false} ExampleAfter5(x: seq<Step>)
    requires ExampleShape(x)
    ensures Arrangement(x[..5]) == map[0 := [x[0], x[3]], 1 := []]
  {
    ExampleAfter4(x);
    ApplyRemovesAt(map[0 := [x[0], x[3]], 1 := [x[2]]], x[4], 0);
    assert [x[2]][..0] + [x[2]][1..] == [];
    ArrangementNext(x, 4, map[0 := [x[0], x[3]], 1 := [x[2]]], map[0 := [x[0], x[3]], 1 := []]);
  }

  /** `pc=4` opens box 3. */
  lemma {:induction false} ExampleAfter6(x: seq<Step>)
    requires ExampleShape(x)
    ensures Arrangement(x[..6]) == map[0 := [x[0], x[3]], 1 := [], 3 := [x[5]]]
  {
    ExampleAfter5(x);
    ArrangementNext(x, 5, map[0 := [x[0], x[3]], 1 := []], map[0 := [x[0], x[3]], 1 := [], 3 := [x[5]]]);
  }

  /** `ot=9` goes behind `pc`. */
  lemma {:induction false} ExampleAfter7(x: seq<Step>)
    requires ExampleShape(x)
    ensures Arrangement(x[..7]) == map[0 := [x[0], x[3]], 1 := [], 3 := [x[5], x[6]]]
  {
    ExampleAfter6(x);
    ApplyAppends(map[0 := [x[0], x[3]], 1 := [], 3 := [x[5]]], x[6]);
    assert [x[5]] + [x[6]] == [x[5], x[6]];
    ArrangementNext(x, 6, map[0 := [x[0], x[3]], 1 := [], 3 := [x[5]]], map[0 := [x[0], x[3]], 1 := [], 3 := [x[5], x[6]]]);
  }

  /** `ab=5` goes behind `ot`. */
  lemma {:induction false} ExampleAfter8(x: seq<Step>)
    requires ExampleShape(x)
    ensures Arrangement(x[..8]) == map[0 := [x[0], x[3]], 1 := [], 3 := [x[5], x[6], x[7]]]
  {
    ExampleAfter7(x);
    ApplyAppends(map[0 := [x[0], x[3]], 1 := [], 3 := [x[5], x[6]]], x[7]);
    assert [x[5], x[6]] + [x[7]] == [x[5], x[6], x[7]];
    ArrangementNext(x, 7, map[0 := [x[0], x[3]], 1 := [], 3 := [x[5], x[6]]], map[0 := [x[0], x[3]], 1 := [], 3 := [x[5], x[6], x[7]]]);
  }

  /** `pc-` takes `pc` out of box 3. */
  lemma {:induction false} ExampleAfter9(x: seq<Step>)
    requires ExampleShape(x)
    ensures Arrangement(x[..9]) == map[0 := [x[0], x[3]], 1 := [], 3 := [x[6], x[7]]]
  {
    ExampleAfter8(x);
    ApplyRemovesAt(map[0 := [x[0], x[3]], 1 := [], 3 := [x[5], x[6], x[7]]], x[8], 0);
    assert [x[5], x[6], x[7]][..0] + [x[5], x[6], x[7]][1..] == [x[6], x[7]];
    ArrangementNext(x, 8, map[0 := [x[0], x[3]], 1 := [], 3 := [x[5], x[6], x[7]]], map[0 := [x[0], x[3]], 1 := [], 3 := [x[6], x[7]]]);
  }

  /** `pc=6` goes last. */
  lemma {:induction false} ExampleAfter10(x: seq<Step>)
    requires ExampleShape(x)
    ensures Arrangement(x[..10]) == map[0 := [x[0], x[3]], 1 := [], 3 := [x[6], x[7], x[9]]]
  {
    ExampleAfter9(x);
    ApplyAppends(map[0 := [x[0], x[3]], 1 := [], 3 := [x[6], x[7]]], x[9]);
    assert [x[6], x[7]] + [x[9]] == [x[6], x[7], x[9]];
    ArrangementNext(x, 9, map[0 := [x[0], x[3]], 1 := [], 3 := [x[6], x[7]]], map[0 := [x[0], x[3]], 1 := [], 3 := [x[6], x[7], x[9]]]);
  }

  /** The whole example: box 0 holds `rn, cm`, box 1 is empty and box 3 holds `ot, ab, pc`. */
  lemma {:induction false} ExampleArrangement(x: seq<Step>)
    requires ExampleShape(x)
    ensures Arrangement(x) == map[0 := [x[0], x[3]], 1 := [], 3 := [x[10], x[7], x[9]]]
  {
    ExampleAfter10(x);
    ApplyReplacesAt(map[0 := [x[0], x[3]], 1 := [], 3 := [x[6], x[7], x[9]]], x[10], 0);
    assert [x[6], x[7], x[9]][0 := x[10]] == [x[10], x[7], x[9]];
    ArrangementNext(x, 10, map[0 := [x[0], x[3]], 1 := [], 3 := [x[6], x[7], x[9]]], map[0 := [x[0], x[3]], 1 := [], 3 := [x[10], x[7], x[9]]]);
    assert x[..11] == x;
  }

  /** The example's focusing power is 145, whichever order the boxes are visited in. */
  lemma {:induction false} ExamplePower(x: seq<Step>, order: seq<nat>)
    requires ExampleShape(x)
    requires VisitsEachOnce(order, Arrangement(x))
    ensures PowerOver(order, Arrangement(x)) == 145
  {
    ExampleArrangement(x);
    var m := Arrangement(x);
    BoxPowerOfTwo(x[0], x[3]);
    assert BoxTotal(m, 0) == 5;
    BoxPowerOfThree(x[10], x[7], x[9]);
    assert BoxTotal(m, 3) == 140;
    assert BoxTotal(m, 1) == 0;
    PowerOverThree(m, 0, 1, 3);
    FocusingPowerWellDefined(m, [0, 1, 3], order);
  }
}
