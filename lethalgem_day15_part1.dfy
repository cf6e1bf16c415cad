/**
 * lethalgem/day_15/part_1: the HASH algorithm of the lens library.  Each
 * character's code is added to the running value, which is then multiplied
 * by 17 and reduced modulo 256; the answer is the sum of the hashes of the
 * comma-separated steps of the initialisation sequence.
 */
module LethalgemDay15Part1 {
  import opened Text

  /**
   * The HASH of a string, defined by its last character: the hash of the
   * empty string is 0, and appending `c` takes `h` to `(h + code(c)) * 17 mod 256`.
   */
  function Hash(s: string): (h: nat)
    ensures h < 256
    decreases |s|
  {
    if s == [] then 0 else (Hash(s[..|s| - 1]) + s[|s| - 1] as int) * 17 % 256
  }

  lemma HashEmpty()
    ensures Hash("") == 0
  {
  }

  /** Appending a character advances the hash by one step of the recurrence. */
  lemma {:induction false} HashSnoc(s: string, c: char)
    ensures Hash(s + [c]) == (Hash(s) + c as int) * 17 % 256
  {
    assert (s + [c])[..|s|] == s;
  }

  /**
   * `Step::calculate_hash`: the loop keeps the hash of the characters read
   * so far.  A character's code is below 0x110000, so `(h + code) * 17`
   * stays below 2^32 and the `u32` arithmetic never wraps.
   */
  method CalculateHash(s: string) returns (h: nat)
    ensures h == Hash(s)
    ensures h < 256
  {
    h := 0;
    for i := 0 to |s|
      invariant h == Hash(s[..i])
    {
      assert s[..i + 1] == s[..i] + [s[i]];
      HashSnoc(s[..i], s[i]);
      h := h + s[i] as int;
      h := h * 17;
      h := h % 256;
    }
    assert s[..|s|] == s;
  }

  datatype Step = Step(hashResult: nat)

  function StepNew(s: string): (step: Step)
    ensures step.hashResult < 256
  {
    Step(Hash(s))
  }

  /** `extract_steps`: one step per comma-separated piece, in order. */
  function ExtractSteps(input: string): (steps: seq<Step>)
    ensures |steps| == |Split(input, ',')| >= 1
    ensures forall i :: 0 <= i < |steps| ==> steps[i] == StepNew(Split(input, ',')[i])
  {
    var pieces := Split(input, ',');
    seq(|pieces|, i requires 0 <= i < |pieces| => StepNew(pieces[i]))
  }

  /**
   * The pieces the steps were hashed from make up the whole input: joined
   * with commas they give it back, so no character is skipped or hashed twice.
   */
  lemma {:induction false} ExtractStepsCoversInput(input: string)
    ensures Join(Split(input, ','), ',') == input
    ensures |ExtractSteps(input)| == |Split(input, ',')|
  {
    SplitJoin(input, ',');
  }

  /** `sum_steps`: the sum of the hash results. */
  function SumSteps(steps: seq<Step>): (sum: nat)
    ensures steps != [] ==> sum >= steps[0].hashResult
    decreases |steps|
  {
    if steps == [] then 0 else steps[0].hashResult + SumSteps(steps[1..])
  }

  /** One step of the recurrence, with the hash before and after named. */
  lemma {:induction false} HashStep(s: string, c: char, h: nat, h': nat)
    requires Hash(s) == h && h' == (h + c as int) * 17 % 256
    ensures Hash(s + [c]) == h'
  {
    HashSnoc(s, c);
  }

  /** The steps of the example initialisation sequence, in order. */
  const ExamplePieces: seq<string> :=
    ["rn=1", "cm-", "qp=3", "cm=2", "qp-", "pc=4", "ot=9", "ab=5", "pc-", "pc=6", "ot=7"]

  /** The hashes of the example's steps, one character at a time. */
  lemma {:induction false} ExampleHash0(s: string)
    requires s == "rn=1"
    ensures Hash(s) == 30
  {
    assert s[0] == 'r' && s[1] == 'n' && s[2] == '=' && s[3] == '1';
    HashStep([], s[0], 0, 146);
    assert [] + [s[0]] == s[..1];
    HashStep(s[..1], s[1], 146, 0);
    assert s[..1] + [s[1]] == s[..2];
    HashStep(s[..2], s[2], 0, 13);
    assert s[..2] + [s[2]] == s[..3];
    HashStep(s[..3], s[3], 13, 30);
    assert s[..3] + [s[3]] == s;
  }

  lemma {:induction false} ExampleHash1(s: string)
    requires s == "cm-"
    ensures Hash(s) == 253
  {
    assert s[0] == 'c' && s[1] == 'm' && s[2] == '-';
    HashStep([], s[0], 0, 147);
    assert [] + [s[0]] == s[..1];
    HashStep(s[..1], s[1], 147, 0);
    assert s[..1] + [s[1]] == s[..2];
    HashStep(s[..2], s[2], 0, 253);
    assert s[..2] + [s[2]] == s;
  }

  lemma {:induction false} ExampleHash2(s: string)
    requires s == "qp=3"
    ensures Hash(s) == 97
  {
    assert s[0] == 'q' && s[1] == 'p' && s[2] == '=' && s[3] == '3';
    HashStep([], s[0], 0, 129);
    assert [] + [s[0]] == s[..1];
    HashStep(s[..1], s[1], 129, 1);
    assert s[..1] + [s[1]] == s[..2];
    HashStep(s[..2], s[2], 1, 30);
    assert s[..2] + [s[2]] == s[..3];
    HashStep(s[..3], s[3], 30, 97);
    assert s[..3] + [s[3]] == s;
  }

  lemma {:induction false} ExampleHash3(s: string)
    requires s == "cm=2"
    ensures Hash(s) == 47
  {
    assert s[0] == 'c' && s[1] == 'm' && s[2] == '=' && s[3] == '2';
    HashStep([], s[0], 0, 147);
    assert [] + [s[0]] == s[..1];
    HashStep(s[..1], s[1], 147, 0);
    assert s[..1] + [s[1]] == s[..2];
    HashStep(s[..2], s[2], 0, 13);
    assert s[..2] + [s[2]] == s[..3];
    HashStep(s[..3], s[3], 13, 47);
    assert s[..3] + [s[3]] == s;
  }

  lemma {:induction false} ExampleHash4(s: string)
    requires s == "qp-"
    ensures Hash(s) == 14
  {
    assert s[0] == 'q' && s[1] == 'p' && s[2] == '-';
    HashStep([], s[0], 0, 129);
    assert [] + [s[0]] == s[..1];
    HashStep(s[..1], s[1], 129, 1);
    assert s[..1] + [s[1]] == s[..2];
    HashStep(s[..2], s[2], 1, 14);
    assert s[..2] + [s[2]] == s;
  }

  lemma {:induction false} ExampleHash5(s: string)
    requires s == "pc=4"
    ensures Hash(s) == 180
  {
    assert s[0] == 'p' && s[1] == 'c' && s[2] == '=' && s[3] == '4';
    HashStep([], s[0], 0, 112);
    assert [] + [s[0]] == s[..1];
    HashStep(s[..1], s[1], 112, 3);
    assert s[..1] + [s[1]] == s[..2];
    HashStep(s[..2], s[2], 3, 64);
    assert s[..2] + [s[2]] == s[..3];
    HashStep(s[..3], s[3], 64, 180);
    assert s[..3] + [s[3]] == s;
  }

  lemma {:induction false} ExampleHash6(s: string)
    requires s == "ot=9"
    ensures Hash(s) == 9
  {
    assert s[0] == 'o' && s[1] == 't' && s[2] == '=' && s[3] == '9';
    HashStep([], s[0], 0, 95);
    assert [] + [s[0]] == s[..1];
    HashStep(s[..1], s[1], 95, 3);
    assert s[..1] + [s[1]] == s[..2];
    HashStep(s[..2], s[2], 3, 64);
    assert s[..2] + [s[2]] == s[..3];
    HashStep(s[..3], s[3], 64, 9);
    assert s[..3] + [s[3]] == s;
  }

  lemma {:induction false} ExampleHash7(s: string)
    requires s == "ab=5"
    ensures Hash(s) == 197
  {
    assert s[0] == 'a' && s[1] == 'b' && s[2] == '=' && s[3] == '5';
    HashStep([], s[0], 0, 113);
    assert [] + [s[0]] == s[..1];
    HashStep(s[..1], s[1], 113, 3);
    assert s[..1] + [s[1]] == s[..2];
    HashStep(s[..2], s[2], 3, 64);
    assert s[..2] + [s[2]] == s[..3];
    HashStep(s[..3], s[3], 64, 197);
    assert s[..3] + [s[3]] == s;
  }

  lemma {:induction false} ExampleHash8(s: string)
    requires s == "pc-"
    ensures Hash(s) == 48
  {
    assert s[0] == 'p' && s[1] == 'c' && s[2] == '-';
    HashStep([], s[0], 0, 112);
    assert [] + [s[0]] == s[..1];
    HashStep(s[..1], s[1], 112, 3);
    assert s[..1] + [s[1]] == s[..2];
    HashStep(s[..2], s[2], 3, 48);
    assert s[..2] + [s[2]] == s;
  }

  lemma {:induction false} ExampleHash9(s: string)
    requires s == "pc=6"
    ensures Hash(s) == 214
  {
    assert s[0] == 'p' && s[1] == 'c' && s[2] == '=' && s[3] == '6';
    HashStep([], s[0], 0, 112);
    assert [] + [s[0]] == s[..1];
    HashStep(s[..1], s[1], 112, 3);
    assert s[..1] + [s[1]] == s[..2];
    HashStep(s[..2], s[2], 3, 64);
    assert s[..2] + [s[2]] == s[..3];
    HashStep(s[..3], s[3], 64, 214);
    assert s[..3] + [s[3]] == s;
  }

  lemma {:induction false} ExampleHash10(s: string)
    requires s == "ot=7"
    ensures Hash(s) == 231
  {
    assert s[0] == 'o' && s[1] == 't' && s[2] == '=' && s[3] == '7';
    HashStep([], s[0], 0, 95);
    assert [] + [s[0]] == s[..1];
    HashStep(s[..1], s[1], 95, 3);
    assert s[..1] + [s[1]] == s[..2];
    HashStep(s[..2], s[2], 3, 64);
    assert s[..2] + [s[2]] == s[..3];
    HashStep(s[..3], s[3], 64, 231);
    assert s[..3] + [s[3]] == s;
  }

  /** The hash of each step of the example, as listed in the puzzle text. */
  lemma {:induction false} ExampleHash(i: nat)
    requires i < |ExamplePieces|
    ensures Hash(ExamplePieces[i]) == [30, 253, 97, 47, 14, 180, 9, 197, 48, 214, 231][i]
  {
    if i == 0 {
      ExampleHash0(ExamplePieces[0]);
    } else if i == 1 {
      ExampleHash1(ExamplePieces[1]);
    } else if i == 2 {
      ExampleHash2(ExamplePieces[2]);
    } else if i == 3 {
      ExampleHash3(ExamplePieces[3]);
    } else if i == 4 {
      ExampleHash4(ExamplePieces[4]);
    } else if i == 5 {
      ExampleHash5(ExamplePieces[5]);
    } else if i == 6 {
      ExampleHash6(ExamplePieces[6]);
    } else if i == 7 {
      ExampleHash7(ExamplePieces[7]);
    } else if i == 8 {
      ExampleHash8(ExamplePieces[8]);
    } else if i == 9 {
      ExampleHash9(ExamplePieces[9]);
    } else if i == 10 {
      ExampleHash10(ExamplePieces[10]);
    }
  }

  /** The answer for the example initialisation sequence is 1320. */
  lemma {:induction false} ExampleSum()
    ensures SumSteps(seq(|ExamplePieces|, i requires 0 <= i < |ExamplePieces| => StepNew(ExamplePieces[i]))) == 1320
  {
    var steps := seq(|ExamplePieces|, i requires 0 <= i < |ExamplePieces| => StepNew(ExamplePieces[i]));
    forall i | 0 <= i < |steps|
      ensures steps[i].hashResult == [30, 253, 97, 47, 14, 180, 9, 197, 48, 214, 231][i]
    {
      ExampleHash(i);
    }
    assert steps == [Step(30), Step(253), Step(97), Step(47), Step(14), Step(180), Step(9), Step(197), Step(48), Step(214), Step(231)];
    assert SumSteps([Step(231)]) == 231;
    assert [Step(214), Step(231)][1..] == [Step(231)];
    assert SumSteps([Step(214), Step(231)]) == 445;
    assert [Step(48), Step(214), Step(231)][1..] == [Step(214), Step(231)];
    assert SumSteps([Step(48), Step(214), Step(231)]) == 493;
    assert [Step(197), Step(48), Step(214), Step(231)][1..] == [Step(48), Step(214), Step(231)];
    assert SumSteps([Step(197), Step(48), Step(214), Step(231)]) == 690;
    assert [Step(9), Step(197), Step(48), Step(214), Step(231)][1..] == [Step(197), Step(48), Step(214), Step(231)];
    assert SumSteps([Step(9), Step(197), Step(48), Step(214), Step(231)]) == 699;
    assert [Step(180), Step(9), Step(197), Step(48), Step(214), Step(231)][1..] == [Step(9), Step(197), Step(48), Step(214), Step(231)];
    assert SumSteps([Step(180), Step(9), Step(197), Step(48), Step(214), Step(231)]) == 879;
    assert [Step(14), Step(180), Step(9), Step(197), Step(48), Step(214), Step(231)][1..] == [Step(180), Step(9), Step(197), Step(48), Step(214), Step(231)];
    assert SumSteps([Step(14), Step(180), Step(9), Step(197), Step(48), Step(214), Step(231)]) == 893;
    assert [Step(47), Step(14), Step(180), Step(9), Step(197), Step(48), Step(214), Step(231)][1..] == [Step(14), Step(180), Step(9), Step(197), Step(48), Step(214), Step(231)];
    assert SumSteps([Step(47), Step(14), Step(180), Step(9), Step(197), Step(48), Step(214), Step(231)]) == 940;
    assert [Step(97), Step(47), Step(14), Step(180), Step(9), Step(197), Step(48), Step(214), Step(231)][1..] == [Step(47), Step(14), Step(180), Step(9), Step(197), Step(48), Step(214), Step(231)];
    assert SumSteps([Step(97), Step(47), Step(14), Step(180), Step(9), Step(197), Step(48), Step(214), Step(231)]) == 1037;
    assert [Step(253), Step(97), Step(47), Step(14), Step(180), Step(9), Step(197), Step(48), Step(214), Step(231)][1..] == [Step(97), Step(47), Step(14), Step(180), Step(9), Step(197), Step(48), Step(214), Step(231)];
    assert SumSteps([Step(253), Step(97), Step(47), Step(14), Step(180), Step(9), Step(197), Step(48), Step(214), Step(231)]) == 1290;
    assert [Step(30), Step(253), Step(97), Step(47), Step(14), Step(180), Step(9), Step(197), Step(48), Step(214), Step(231)][1..] == [Step(253), Step(97), Step(47), Step(14), Step(180), Step(9), Step(197), Step(48), Step(214), Step(231)];
    assert SumSteps([Step(30), Step(253), Step(97), Step(47), Step(14), Step(180), Step(9), Step(197), Step(48), Step(214), Step(231)]) == 1320;
  }

  /** The hash of a string of one or two characters, unrolled. */
  lemma {:induction false} Hash1(a: char)
    ensures Hash([a]) == a as int * 17 % 256
  {
    assert [a][..0] == [];
  }

  lemma {:induction false} Hash2(a: char, b: char)
    ensures Hash([a, b]) == (Hash([a]) + b as int) * 17 % 256
  {
    HashSnoc([a], b);
    assert [a] + [b] == [a, b];
  }


  /** The hashes of the test strings, each from the one before. */
  lemma {:induction false} HashOfH()
    ensures Hash("H") == 200
  {
    Hash1('H');
  }

  lemma {:induction false} HashOfHA()
    ensures Hash("HA") == 153
  {
    HashOfH();
    Hash2('H', 'A');
  }

  lemma {:induction false} HashOfHAS()
    ensures Hash("HAS") == 172
  {
    HashOfHA();
    HashSnoc("HA", 'S');
    assert "HA" + ['S'] == "HAS";
  }

  lemma {:induction false} HashOfHASH()
    ensures Hash("HASH") == 52
  {
    HashOfHAS();
    HashSnoc("HAS", 'H');
    assert "HAS" + ['H'] == "HASH";
  }

  lemma {:induction false} HashOfRn()
    ensures Hash("rn") == 0
  {
    Hash1('r');
    Hash2('r', 'n');
  }

  lemma {:induction false} HashOfRnSet()
    ensures Hash("rn=") == 13
  {
    HashOfRn();
    HashSnoc("rn", '=');
    assert "rn" + ['='] == "rn=";
  }

  lemma {:induction false} HashOfRnSet1()
    ensures Hash("rn=1") == 30
  {
    HashOfRnSet();
    HashSnoc("rn=", '1');
    assert "rn=" + ['1'] == "rn=1";
  }
}
