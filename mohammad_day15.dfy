/**
 * mohammad/day15: the HASH algorithm as a fold over the characters, the
 * part-1 sum of the hashes of the comma-separated steps, and the part-2
 * table of 256 boxes of `(label, focal length)` pairs, updated in place.
 */
module MohammadDay15 {
  import opened Text
  import P1 = LethalgemDay15Part1

  /** The fold of `hash`, from an accumulator below 256. */
  function HashFrom(acc: nat, chars: string): (h: nat)
    requires acc < 256
    ensures h < 256
    decreases |chars|
  {
    if chars == [] then acc else HashFrom(17 * (acc + chars[0] as int) % 256, chars[1..])
  }

  /** `hash`: the fold from 0. */
  function Hash(chars: string): (h: nat)
    ensures h < 256
  {
    HashFrom(0, chars)
  }

  /** Folding the rest of a string from the hash of its beginning hashes the whole string. */
  lemma {:induction false} HashFromPrefix(done: string, rest: string)
    ensures HashFrom(P1.Hash(done), rest) == P1.Hash(done + rest)
    decreases |rest|
  {
    if rest != [] {
      P1.HashSnoc(done, rest[0]);
      HashFromPrefix(done + [rest[0]], rest[1..]);
      assert done + [rest[0]] + rest[1..] == done + rest;
    } else {
      assert done + rest == done;
    }
  }

  /** The fold computes the same HASH as the last-character recurrence: in particular `hash([]) == 0`. */
  lemma {:induction false} HashAgrees(chars: string)
    ensures Hash(chars) == P1.Hash(chars)
  {
    HashFromPrefix([], chars);
    assert [] + chars == chars;
  }

  /** `part1`'s fold over the comma-separated pieces, each hashed inline. */
  function SumOfHashes(pieces: seq<string>): nat
    decreases |pieces|
  {
    if pieces == [] then 0 else Hash(pieces[0]) + SumOfHashes(pieces[1..])
  }

  /** `part1` on the first line of the input. */
  function Part1(line: string): nat
  {
    SumOfHashes(Split(line, ','))
  }

  lemma {:induction false} SumOfHashesAgrees(pieces: seq<string>)
    ensures SumOfHashes(pieces)
         == P1.SumSteps(seq(|pieces|, i requires 0 <= i < |pieces| => P1.StepNew(pieces[i])))
    decreases |pieces|
  {
    if pieces != [] {
      var steps := seq(|pieces|, i requires 0 <= i < |pieces| => P1.StepNew(pieces[i]));
      SumOfHashesAgrees(pieces[1..]);
      HashAgrees(pieces[0]);
      assert steps[1..] == seq(|pieces| - 1, i requires 0 <= i < |pieces| - 1 => P1.StepNew(pieces[1..][i]));
    }
  }

  /** The part-1 answer is the sum of the HASH of each step, as the step-by-step solver computes it. */
  lemma {:induction false} Part1Agrees(line: string)
    ensures Part1(line) == P1.SumSteps(P1.ExtractSteps(line))
  {
    SumOfHashesAgrees(Split(line, ','));
  }

  // ---------------------------------------------------------------------
  // Part 2

  type Lens = (string, nat)
  type Box = seq<Lens>

  /** `iter().position(|(l, _)| l == label)`, with `|box|` for none. */
  function Position(box: Box, name: string): (i: nat)
    ensures i <= |box|
    ensures i < |box| ==> box[i].0 == name
    ensures forall k :: 0 <= k < i ==> box[k].0 != name
    decreases |box|
  {
    if box == [] then 0 else if box[0].0 == name then 0 else 1 + Position(box[1..], name)
  }

  /** `retain(|(l, _)| l != label)`. */
  function Retain(box: Box, name: string): (r: Box)
    ensures |r| <= |box|
    ensures forall k :: 0 <= k < |r| ==> r[k].0 != name
    decreases |box|
  {
    if box == [] then []
    else if box[0].0 == name then Retain(box[1..], name)
    else [box[0]] + Retain(box[1..], name)
  }

  /** An `=` step: the focal length is overwritten in place, or the lens is pushed. */
  function Upsert(box: Box, name: string, focal: nat): Box
  {
    var i := Position(box, name);
    if i < |box| then box[i := (name, focal)] else box + [(name, focal)]
  }

  /**
   * `retain` keeps the other lenses in their order: it distributes over
   * concatenation and leaves a box without the label unchanged.
   */
  lemma {:induction false} RetainKeepsOrder(b1: Box, b2: Box, name: string)
    ensures Retain(b1 + b2, name) == Retain(b1, name) + Retain(b2, name)
    decreases |b1|
  {
    if b1 != [] {
      RetainKeepsOrder(b1[1..], b2, name);
      assert (b1 + b2)[1..] == b1[1..] + b2;
    } else {
      assert b1 + b2 == b2;
    }
  }

  lemma {:induction false} RetainAbsent(box: Box, name: string)
    requires forall k :: 0 <= k < |box| ==> box[k].0 != name
    ensures Retain(box, name) == box
    decreases |box|
  {
    if box != [] {
      RetainAbsent(box[1..], name);
    }
  }

  /** Every lens without the label survives `retain`. */
  lemma {:induction false} RetainKeepsOthers(box: Box, name: string, x: Lens)
    requires x in box && x.0 != name
    ensures x in Retain(box, name)
    decreases |box|
  {
    if box[0] != x {
      RetainKeepsOthers(box[1..], name, x);
    }
  }

  predicate UniqueLabels(box: Box)
  {
    forall i, j :: 0 <= i < j < |box| ==> box[i].0 != box[j].0
  }

  /**
   * With unique labels, removing every lens with the label is the same as
   * removing the first one, as the other solver does.
   */
  lemma {:induction false} RetainIsRemoveFirst(box: Box, name: string)
    requires UniqueLabels(box)
    ensures var i := Position(box, name);
      Retain(box, name) == if i < |box| then box[..i] + box[i + 1..] else box
  {
    var i := Position(box, name);
    if i < |box| {
      var before, after := box[..i], box[i + 1..];
      assert box == before + ([box[i]] + after);
      RetainKeepsOrder(before, [box[i]] + after, name);
      RetainAbsent(before, name);
      assert ([box[i]] + after)[1..] == after;
      assert forall k :: 0 <= k < |after| ==> after[k] == box[i + 1 + k];
      RetainAbsent(after, name);
      assert Retain([box[i]] + after, name) == after;
    } else {
      RetainAbsent(box, name);
    }
  }

  /** An `=` step overwrites in place (same length, same slot) or appends; other lenses stay put. */
  lemma {:induction false} UpsertFacts(box: Box, name: string, focal: nat)
    ensures var r, i := Upsert(box, name, focal), Position(box, name);
      && (i < |box| ==> |r| == |box| && r[i] == (name, focal))
      && (i == |box| ==> |r| == |box| + 1 && r[|box|] == (name, focal))
      && (forall k :: 0 <= k < |box| && k != i ==> r[k] == box[k])
    ensures UniqueLabels(box) ==> UniqueLabels(Upsert(box, name, focal))
  {
  }

  lemma {:induction false} RetainUnique(box: Box, name: string)
    requires UniqueLabels(box)
    ensures UniqueLabels(Retain(box, name))
  {
    RetainIsRemoveFirst(box, name);
  }

  /** What a piece of the line asks for. */
  datatype Op = Remove(name: string) | Put(name: string, focal: nat)

  /**
   * The piece split on `-` and `=`: the label is the first part, an empty
   * second part means removal; `None` where the source panics (no second
   * part to index, or a focal length that is not a `usize`, 64 bits).
   */
  function ParseOp(s: string): (r: Option<Op>)
    ensures r.Some? ==> forall i :: 0 <= i < |r.value.name| ==> r.value.name[i] != '-' && r.value.name[i] != '='
  {
    var split := SplitAny(s, {'-', '='});
    if |split| < 2 then None
    else if split[1] == [] then Some(Remove(split[0]))
    else match ParseU64(split[1])
      case None => None
      case Some(f) => Some(Put(split[0], f))
  }

  /** The table after one piece. */
  function Perform(table: seq<Box>, op: Op): (r: seq<Box>)
    requires |table| == 256
    ensures |r| == 256
  {
    var h := Hash(op.name);
    match op
    case Remove(l) => table[h := Retain(table[h], l)]
    case Put(l, f) => table[h := Upsert(table[h], l, f)]
  }

  /** The table after all the pieces, or `None` once a piece panics. */
  function Table(pieces: seq<string>): (r: Option<seq<Box>>)
    ensures r.Some? ==> |r.value| == 256
    decreases |pieces|
  {
    if pieces == [] then Some(seq(256, _ => []))
    else match Table(pieces[..|pieces| - 1])
      case None => None
      case Some(t) =>
        match ParseOp(pieces[|pieces| - 1])
        case None => None
        case Some(op) => Some(Perform(t, op))
  }

  /** Every box keeps unique labels, and every lens sits in the box its label hashes to. */
  predicate WellKept(table: seq<Box>)
  {
    forall b :: 0 <= b < |table| ==>
      UniqueLabels(table[b]) && forall k :: 0 <= k < |table[b]| ==> Hash(table[b][k].0) == b
  }

  lemma {:induction false} PerformKeeps(table: seq<Box>, op: Op)
    requires |table| == 256 && WellKept(table)
    ensures WellKept(Perform(table, op))
  {
    var h := Hash(op.name);
    match op
    case Remove(l) =>
      RetainUnique(table[h], l);
      var r := Retain(table[h], l);
      forall k | 0 <= k < |r| ensures Hash(r[k].0) == h {
        RetainIsRemoveFirst(table[h], l);
      }
    case Put(l, f) =>
      UpsertFacts(table[h], l, f);
  }

  lemma {:induction false} TableKept(pieces: seq<string>)
    requires Table(pieces).Some?
    ensures WellKept(Table(pieces).value)
    decreases |pieces|
  {
    if pieces != [] {
      TableKept(pieces[..|pieces| - 1]);
      PerformKeeps(Table(pieces[..|pieces| - 1]).value, ParseOp(pieces[|pieces| - 1]).value);
    }
  }

  /** The power of the lenses of box `b`, slot by slot. */
  function BoxPower(b: nat, box: Box): nat
    decreases |box|
  {
    if box == [] then 0 else BoxPower(b, box[..|box| - 1]) + (b + 1) * |box| * box[|box| - 1].1
  }

  /** The power of the first `n` boxes of the table. */
  function TablePower(table: seq<Box>, n: nat): nat
    requires n <= |table|
    decreases n
  {
    if n == 0 then 0 else TablePower(table, n - 1) + BoxPower(n - 1, table[n - 1])
  }

  /** Pushing a lens adds exactly its own power; nothing else moves. */
  lemma {:induction false} PushAddsItsPower(b: nat, box: Box, lens: Lens)
    ensures BoxPower(b, box + [lens]) == BoxPower(b, box) + (b + 1) * (|box| + 1) * lens.1
  {
    assert (box + [lens])[..|box|] == box;
  }

  /** Changing one box changes the table's power by that box's change alone. */
  lemma {:induction false} TablePowerUpdate(table: seq<Box>, n: nat, h: nat, box: Box)
    requires n <= |table| && h < |table|
    ensures TablePower(table[h := box], n) + (if h < n then BoxPower(h, table[h]) else 0)
         == TablePower(table, n) + (if h < n then BoxPower(h, box) else 0)
    decreases n
  {
    if n > 0 {
      TablePowerUpdate(table, n - 1, h, box);
    }
  }

  /** One piece of the line, on the table: the `for_each` closure. */
  method Step(table: array<Box>, piece: string) returns (ok: bool)
    requires table.Length == 256
    modifies table
    ensures ok <==> ParseOp(piece).Some?
    ensures ok ==> table[..] == Perform(old(table[..]), ParseOp(piece).value)
    ensures !ok ==> table[..] == old(table[..])
  {
    var split := SplitAny(piece, {'-', '='});
    if |split| < 2 {
      return false;
    }
    var l := split[0];
    var h := Hash(l);
    if split[1] == [] {
      table[h] := Retain(table[h], l);
      ok := true;
    } else {
      var parsed := ParseU64(split[1]);
      if parsed.None? {
        return false;
      }
      var pos := Position(table[h], l);
      if pos < |table[h]| {
        table[h] := table[h][pos := (l, parsed.value)];
      } else {
        table[h] := table[h] + [(l, parsed.value)];
      }
      ok := true;
    }
  }

  /** `part2` on the first line of the input: `None` where the source panics. */
  method Part2(line: string) returns (r: Option<nat>)
    ensures r == match Table(Split(line, ','))
                 case None => None
                 case Some(t) => Some(TablePower(t, 256))
  {
    var table := new Box[256](_ => []);
    assert forall k :: 0 <= k < 256 ==> table[..][k] == Table([]).value[k];
    assert table[..] == Table([]).value;
    var pieces := Split(line, ',');
    assert pieces[..0] == [];
    for i := 0 to |pieces|
      invariant Table(pieces[..i]) == Some(table[..])
    {
      assert pieces[..i + 1][..i] == pieces[..i];
      var ok := Step(table, pieces[i]);
      if !ok {
        TableStaysFailed(pieces, i + 1);
        return None;
      }
    }
    assert pieces[..|pieces|] == pieces;
    r := Some(TablePower(table[..], 256));
  }

  /** Once a piece panics, the whole run does. */
  lemma {:induction false} TableStaysFailed(pieces: seq<string>, k: nat)
    requires 0 < k <= |pieces| && ParseOp(pieces[k - 1]).None?
    ensures Table(pieces).None?
    decreases |pieces|
  {
    if k < |pieces| {
      var init := pieces[..|pieces| - 1];
      assert init[k - 1] == pieces[k - 1];
      TableStaysFailed(init, k);
    } else {
      assert pieces[..k - 1] == pieces[..|pieces| - 1];
    }
  }
}
