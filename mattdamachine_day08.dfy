/**
 * mattdamachine/Day08/part_01: the network lines `X = (L, R)` become a map
 * from each node to its left and right neighbours, and the walk from `AAA`
 * follows the instructions (cycling through them) until it reaches `ZZZ`.
 */
module MattdamachineDay08 {
  import opened Text

  datatype Day8Error = CannotReadFile | FailureToLookUpMapValue(node: string) | FailureToParseLine

  /** The network: each node with its left and right neighbour. */
  type Network = map<string, (string, string)>

  // ---------------------------------------------------------------------
  // Parsing

  /**
   * The raw pieces of a network line: the text before the first `=`, and
   * the first two pieces of the text after it (up to any second `=`) split
   * on `,`.  Without `=`, or without `,` after it, the indexing panics:
   * `None`.
   */
  function Fields(line: string): Option<(string, string, string)>
  {
    var sepLine := Split(line, '=');
    if |sepLine| < 2 then None
    else
      var directions := Split(sepLine[1], ',');
      if |directions| < 2 then None
      else Some((sepLine[0], directions[0], directions[1]))
  }

  /** The node trimmed, the left neighbour trimmed of spaces and `(`, the right of spaces and `)`. */
  function Cleaned(fields: (string, string, string)): (string, (string, string))
  {
    (Trim(fields.0), (TrimMatches(Trim(fields.1), '('), TrimMatches(Trim(fields.2), ')')))
  }

  /** One line of `populate_network_map_from_lines`: the node and its two neighbours. */
  function ParseNodeLine(line: string): Option<(string, (string, string))>
  {
    match Fields(line)
    case None => None
    case Some(fields) => Some(Cleaned(fields))
  }

  /** A comma with exactly one `=` before it. */
  predicate CommaAfterOneEquals(line: string)
  {
    exists i, j :: 0 <= i < j < |line| && line[i] == '=' && line[j] == ',' &&
      forall k :: 0 <= k < j && k != i ==> line[k] != '='
  }

  /**
   * A line parses exactly when some comma has exactly one `=` before it:
   * the first `=` ends the node, and the comma must come before any second
   * `=`.
   */
  lemma ParseNodeLineSome(line: string)
    ensures ParseNodeLine(line).Some? <==> CommaAfterOneEquals(line)
  {
    FieldsSome(line);
  }

  lemma FieldsSome(line: string)
    ensures Fields(line).Some? <==> CommaAfterOneEquals(line)
  {
    FieldsPiece(line);
    if '=' in line {
      PieceComma(line);
    }
  }

  /** The text between the first `=` and the next one (or the end). */
  function Piece(line: string): string
    requires '=' in line
  {
    var rest := line[IndexOf(line, '=') + 1..];
    rest[..IndexOf(rest, '=')]
  }

  /** The fields exist when there is an `=` and the piece after it holds a comma. */
  lemma FieldsPiece(line: string)
    ensures Fields(line).Some? <==> '=' in line && ',' in Piece(line)
  {
    SplitPieces(line, '=');
    if '=' in line {
      var rest := line[IndexOf(line, '=') + 1..];
      SplitPieces(rest, '=');
      SplitPieces(Piece(line), ',');
    }
  }

  /** The piece after the first `=` holds a comma exactly when some comma has one `=` before it. */
  lemma PieceComma(line: string)
    requires '=' in line
    ensures ',' in Piece(line) <==> CommaAfterOneEquals(line)
  {
    var piece := Piece(line);
    if ',' in piece {
      var jj :| 0 <= jj < |piece| && piece[jj] == ',';
      CommaWitness(line, jj);
    }
    if CommaAfterOneEquals(line) {
      var i, j :| 0 <= i < j < |line| && line[i] == '=' && line[j] == ',' &&
        forall k :: 0 <= k < j && k != i ==> line[k] != '=';
      CommaInPiece(line, i, j);
      assert piece[j - i - 1] == ',';
    }
  }

  /** A comma in the piece after the first `=` witnesses `CommaAfterOneEquals`. */
  lemma CommaWitness(line: string, jj: nat)
    requires '=' in line
    requires var rest := line[IndexOf(line, '=') + 1..]; jj < IndexOf(rest, '=') && rest[jj] == ','
    ensures CommaAfterOneEquals(line)
  {
    var i := IndexOf(line, '=');
    var rest := line[i + 1..];
    var j := i + 1 + jj;
    assert line[j] == rest[jj];
    forall k | 0 <= k < j && k != i
      ensures line[k] != '='
    {
      if k > i {
        assert line[k] == rest[k - i - 1];
      }
    }
  }

  /** A witness of `CommaAfterOneEquals` lies in the piece after the first `=`. */
  lemma CommaInPiece(line: string, i: nat, j: nat)
    requires i < j < |line| && line[i] == '=' && line[j] == ','
    requires forall k :: 0 <= k < j && k != i ==> line[k] != '='
    ensures '=' in line && i == IndexOf(line, '=')
    ensures var rest := line[i + 1..]; j - i - 1 < IndexOf(rest, '=') && rest[j - i - 1] == ','
  {
    var rest := line[i + 1..];
    forall k | 0 <= k < j - i - 1
      ensures rest[k] != '='
    {
      assert rest[k] == line[i + 1 + k];
    }
    assert rest[j - i - 1] == line[j];
  }

  /** A line written as the puzzle writes it parses back to its node and neighbours. */
  lemma ParseRoundTrip(node: string, left: string, right: string)
    requires node != [] && left != [] && right != []
    requires Plain(node) && Plain(left) && Plain(right)
    ensures ParseNodeLine(node + " = (" + left + ", " + right + ")") == Some((node, (left, right)))
  {
    FieldsOfLine(node, left, right);
    CleanNode(node);
    CleanLeft(left);
    CleanRight(right);
  }

  /** The `=` ends the node and the `,` ends the left neighbour. */
  lemma FieldsOfLine(node: string, left: string, right: string)
    requires Plain(node) && Plain(left) && Plain(right)
    ensures Fields(node + " = (" + left + ", " + right + ")") == Some((node + " ", " (" + left, " " + right + ")"))
  {
    var l, r := " (" + left, " " + right + ")";
    var tail := l + [','] + r;
    assert node + " = (" + left + ", " + right + ")" == (node + " ") + ['='] + tail;
    PlainExcludes(node);
    PlainExcludes(left);
    PlainExcludes(right);
    SplitTwo(node + " ", '=', tail);
    SplitTwo(l, ',', r);
  }

  lemma PlainExcludes(s: string)
    requires Plain(s)
    ensures '=' !in s && ',' !in s
  {
  }

  /** The space before `=` is trimmed off the node. */
  lemma CleanNode(node: string)
    requires node != [] && Plain(node)
    ensures Trim(node + " ") == node
  {
    TrimSpaceAfter(node);
  }

  /** The space and the `(` are trimmed off the left neighbour. */
  lemma CleanLeft(left: string)
    requires left != [] && Plain(left)
    ensures TrimMatches(Trim(" (" + left), '(') == left
  {
    assert " (" + left == [' '] + ("(" + left);
    TrimSpaceBefore("(" + left);
    assert ("(" + left)[1..] == left;
    assert TrimMatches(left, '(') == left;
  }

  /** The space and the `)` are trimmed off the right neighbour. */
  lemma CleanRight(right: string)
    requires right != [] && Plain(right)
    ensures TrimMatches(Trim(" " + right + ")"), ')') == right
  {
    assert " " + right + ")" == [' '] + (right + ")");
    TrimSpaceBefore(right + ")");
    assert (right + ")")[..|right|] == right;
    assert TrimMatches(right, ')') == right;
  }

  /** The example line `AAA = (BBB, CCC)`. */
  lemma ExampleLine()
    ensures ParseNodeLine("AAA = (BBB, CCC)") == Some(("AAA", ("BBB", "CCC")))
  {
    PlainNames();
    ParseRoundTrip("AAA", "BBB", "CCC");
    LineLiteral();
  }

  lemma PlainNames()
    ensures Plain("AAA") && Plain("BBB") && Plain("CCC")
  {
  }

  lemma LineLiteral()
    ensures "AAA" + " = (" + "BBB" + ", " + "CCC" + ")" == "AAA = (BBB, CCC)"
  {
  }

  /** What a line parses to: a node and its neighbours, or `None` for a line that panics. */
  type Entry = Option<(string, (string, string))>

  /** Each line's parse, in order. */
  function Parsed(lines: seq<string>): (r: seq<Entry>)
    ensures |r| == |lines|
  {
    seq(|lines|, k requires 0 <= k < |lines| => ParseNodeLine(lines[k]))
  }

  /**
   * The map after inserting the parsed lines in order, a later line for the
   * same node replacing an earlier one; `None` when some line panics.
   */
  function NetworkOf(entries: seq<Entry>): Option<Network>
    decreases |entries|
  {
    if entries == [] then Some(map[])
    else
      match NetworkOf(entries[..|entries| - 1])
      case None => None
      case Some(m) =>
        match entries[|entries| - 1]
        case None => None
        case Some(entry) => Some(m[entry.0 := entry.1])
  }

  /** Every line parsed. */
  predicate AllParse(entries: seq<Entry>)
  {
    forall k :: 0 <= k < |entries| ==> entries[k].Some?
  }

  /** The network is built exactly when every line parses. */
  lemma {:induction false} NetworkOfSome(entries: seq<Entry>)
    ensures NetworkOf(entries).Some? <==> AllParse(entries)
    decreases |entries|
  {
    if entries != [] {
      var init := entries[..|entries| - 1];
      NetworkOfSome(init);
      assert forall k :: 0 <= k < |init| ==> init[k] == entries[k];
    }
  }

  /**
   * A node whose line is the last one for it maps to that line's
   * neighbours: `HashMap::insert` replaces the earlier value.
   */
  lemma {:induction false} NetworkLastWins(entries: seq<Entry>, k: nat)
    requires AllParse(entries) && k < |entries|
    requires forall j :: k < j < |entries| ==> entries[j].value.0 != entries[k].value.0
    ensures NetworkOf(entries).Some?
    ensures entries[k].value.0 in NetworkOf(entries).value
    ensures NetworkOf(entries).value[entries[k].value.0] == entries[k].value.1
    decreases |entries|
  {
    NetworkOfSome(entries);
    var init := entries[..|entries| - 1];
    assert forall j :: 0 <= j < |init| ==> init[j] == entries[j];
    NetworkOfSome(init);
    if k < |entries| - 1 {
      NetworkLastWins(init, k);
    }
  }

  /** The nodes of the network are exactly the nodes named before `=` on the lines. */
  lemma {:induction false} NetworkKeys(entries: seq<Entry>, node: string)
    requires AllParse(entries)
    ensures NetworkOf(entries).Some?
    ensures node in NetworkOf(entries).value <==>
      exists k :: 0 <= k < |entries| && entries[k].value.0 == node
    decreases |entries|
  {
    NetworkOfSome(entries);
    if entries != [] {
      var init := entries[..|entries| - 1];
      assert forall j :: 0 <= j < |init| ==> init[j] == entries[j];
      NetworkOfSome(init);
      NetworkKeys(init, node);
      if node in NetworkOf(entries).value && entries[|entries| - 1].value.0 != node {
        var k :| 0 <= k < |init| && init[k].value.0 == node;
        assert entries[k].value.0 == node;
      }
    }
  }

  /** Once a prefix of the lines panics, so does the whole. */
  lemma {:induction false} NetworkPrefixFails(entries: seq<Entry>, i: nat)
    requires i <= |entries| && NetworkOf(entries[..i]).None?
    ensures NetworkOf(entries).None?
    decreases |entries| - i
  {
    if i < |entries| {
      assert entries[..i + 1][..i] == entries[..i];
      NetworkPrefixFails(entries, i + 1);
    } else {
      assert entries[..i] == entries;
    }
  }

  /** One more parsed line inserted into the map built from the lines before it. */
  lemma NetworkStep(entries: seq<Entry>, i: nat, m: Network, m': Network)
    requires i < |entries| && NetworkOf(entries[..i]) == Some(m) && entries[i].Some?
    requires m' == m[entries[i].value.0 := entries[i].value.1]
    ensures NetworkOf(entries[..i + 1]) == Some(m')
  {
    assert entries[..i + 1][..i] == entries[..i];
  }

  /** A line that does not parse makes the whole fail. */
  lemma NetworkFails(entries: seq<Entry>, i: nat)
    requires i < |entries| && NetworkOf(entries[..i]).Some? && entries[i].None?
    ensures NetworkOf(entries).None?
  {
    assert entries[..i + 1][..i] == entries[..i];
    NetworkPrefixFails(entries, i + 1);
  }

  /**
   * `populate_network_map_from_lines`: every line inserted into the map in
   * order; a line that does not parse panics (`None`).
   */
  method PopulateNetworkMap(networkLines: seq<string>) returns (r: Option<Network>)
    ensures r == NetworkOf(Parsed(networkLines))
  {
    ghost var entries := Parsed(networkLines);
    var networkMap: Network := map[];
    for i := 0 to |networkLines|
      invariant NetworkOf(entries[..i]) == Some(networkMap)
    {
      var entry := ParseNodeLine(networkLines[i]);
      assert entry == entries[i];
      if entry.None? {
        NetworkFails(entries, i);
        return None;
      }
      ghost var before := networkMap;
      networkMap := networkMap[entry.value.0 := entry.value.1];
      NetworkStep(entries, i, before, networkMap);
    }
    assert entries[..|networkLines|] == entries;
    return Some(networkMap);
  }

  // ---------------------------------------------------------------------
  // The walk

  /** The walk stops at `ZZZ`, or at a node missing from the network (the lookup error). */
  predicate Stops(network: Network, node: string)
  {
    node == "ZZZ" || node !in network
  }

  /** The neighbour chosen at step `k`: instruction `k mod len`; `L` goes left, any other character right. */
  function Next(instructions: seq<char>, network: Network, node: string, k: nat): string
    requires |instructions| > 0 && node in network
  {
    if instructions[k % |instructions|] == 'L' then network[node].0 else network[node].1
  }

  /** The node reached after `k` steps from `AAA`; once the walk stops it stays put. */
  function NodeAfter(instructions: seq<char>, network: Network, k: nat): string
    requires |instructions| > 0
  {
    if k == 0 then "AAA"
    else
      var node := NodeAfter(instructions, network, k - 1);
      if Stops(network, node) then node else Next(instructions, network, node, k - 1)
  }

  /**
   * The first step at which the walk stops, searched upwards from `from`;
   * `bound` is a step at which it is known to have stopped.
   */
  function FirstStopFrom(instructions: seq<char>, network: Network, from: nat, bound: nat): (k: nat)
    requires |instructions| > 0 && from <= bound && Stops(network, NodeAfter(instructions, network, bound))
    requires forall j :: 0 <= j < from ==> !Stops(network, NodeAfter(instructions, network, j))
    ensures from <= k <= bound && Stops(network, NodeAfter(instructions, network, k))
    ensures forall j :: 0 <= j < k ==> !Stops(network, NodeAfter(instructions, network, j))
    decreases bound - from
  {
    if Stops(network, NodeAfter(instructions, network, from)) then from
    else FirstStopFrom(instructions, network, from + 1, bound)
  }

  /** The first step at which the walk stops. */
  function FirstStop(instructions: seq<char>, network: Network, bound: nat): nat
    requires |instructions| > 0 && Stops(network, NodeAfter(instructions, network, bound))
  {
    FirstStopFrom(instructions, network, 0, bound)
  }

  /**
   * `calculate_steps_to_traverse_network`: from `AAA`, follow the
   * instruction of each step until `ZZZ`.  The source loop need not end;
   * `bound`, a step at which the walk is known to have stopped, stands for
   * the assumption that it does.  The result is the number of steps to the
   * first `ZZZ`, or the error naming the first node missing from the
   * network; the walk passed neither before.
   */
  method CalculateSteps(instructions: seq<char>, network: Network, ghost bound: nat)
    returns (r: Result<nat, Day8Error>)
    requires |instructions| > 0 && Stops(network, NodeAfter(instructions, network, bound))
    ensures r.Ok? <==> NodeAfter(instructions, network, FirstStop(instructions, network, bound)) == "ZZZ"
    ensures r.Ok? ==> r.value == FirstStop(instructions, network, bound) && r.value >= 1
    ensures r.Err? ==> r.error == FailureToLookUpMapValue(NodeAfter(instructions, network, FirstStop(instructions, network, bound)))
  {
    var numOfSteps := 0;
    var instructionsLen := |instructions|;
    var currentNode := "AAA";
    var endingNode := "ZZZ";
    ghost var first := FirstStop(instructions, network, bound);
    while currentNode != endingNode
      invariant numOfSteps <= first
      invariant currentNode == NodeAfter(instructions, network, numOfSteps)
      decreases first - numOfSteps
    {
      if currentNode !in network {
        return Err(FailureToLookUpMapValue(currentNode));
      }
      if instructions[numOfSteps % instructionsLen] == 'L' {
        currentNode := network[currentNode].0;
      } else {
        currentNode := network[currentNode].1;
      }
      numOfSteps := numOfSteps + 1;
    }
    return Ok(numOfSteps);
  }

  /** Once the walk has stopped it stays where it stopped. */
  lemma {:induction false} StaysStopped(instructions: seq<char>, network: Network, k: nat, j: nat)
    requires |instructions| > 0 && k <= j && Stops(network, NodeAfter(instructions, network, k))
    ensures NodeAfter(instructions, network, j) == NodeAfter(instructions, network, k)
    decreases j - k
  {
    if k < j {
      StaysStopped(instructions, network, k, j - 1);
    }
  }

  /** The outcome does not depend on which stopping step stands for termination. */
  lemma FirstStopUnique(instructions: seq<char>, network: Network, b1: nat, b2: nat)
    requires |instructions| > 0
    requires Stops(network, NodeAfter(instructions, network, b1)) && Stops(network, NodeAfter(instructions, network, b2))
    ensures FirstStop(instructions, network, b1) == FirstStop(instructions, network, b2)
  {
  }

  /** Adding whole rounds of instructions does not change which instruction is read. */
  lemma ModPeriod(a: nat, len: nat, period: nat)
    requires len > 0 && period % len == 0
    ensures (a + period) % len == a % len
  {
    var q, r, p := a / len, a % len, period / len;
    assert period == p * len;
    assert a + period == (q + p) * len + r;
    ModUnique(a + period, len, q + p, r);
  }

  /** The remainder is the one `r` in `[0, len)` with `x = q len + r`. */
  lemma ModUnique(x: int, len: int, q: int, r: int)
    requires len > 0 && 0 <= r < len && x == q * len + r
    ensures x % len == r
  {
    var q', r' := x / len, x % len;
    assert x == q' * len + r';
    assert (q - q') * len == r' - r;
    if q > q' {
      assert (q - q') * len >= len by { Grow(q - q', len); }
    } else if q < q' {
      assert (q' - q) * len >= len by { Grow(q' - q, len); }
    }
  }

  lemma Grow(d: int, len: int)
    requires d >= 1 && len > 0
    ensures d * len >= len
  {
  }

  /**
   * A walk that comes back to the node it was at a whole number of
   * instruction rounds earlier, without having stopped, repeats itself
   * forever: it never stops, and the source loop never ends.  This is why
   * `CalculateSteps` takes a step at which the walk is known to stop.
   */
  lemma RepeatNeverStops(instructions: seq<char>, network: Network, i: nat, p: nat, k: nat)
    requires |instructions| > 0 && p >= 1
    requires NodeAfter(instructions, network, i) == NodeAfter(instructions, network, i + p * |instructions|)
    requires forall j :: 0 <= j < i + p * |instructions| ==> !Stops(network, NodeAfter(instructions, network, j))
    ensures !Stops(network, NodeAfter(instructions, network, k))
  {
    var period := p * |instructions|;
    ModUnique(period, |instructions|, p, 0);
    assert period >= 1 by { Grow(p, |instructions|); }
    if k >= i {
      RepeatShift(instructions, network, i, period, k - i);
    }
  }

  /** After the repeat the walk runs a period behind itself. */
  lemma {:induction false} RepeatShift(instructions: seq<char>, network: Network, i: nat, period: nat, m: nat)
    requires |instructions| > 0 && period >= 1 && period % |instructions| == 0
    requires NodeAfter(instructions, network, i) == NodeAfter(instructions, network, i + period)
    requires forall j :: 0 <= j < i + period ==> !Stops(network, NodeAfter(instructions, network, j))
    ensures NodeAfter(instructions, network, i + m) == NodeAfter(instructions, network, i + period + m)
    ensures !Stops(network, NodeAfter(instructions, network, i + m))
    decreases m
  {
    if m > 0 {
      RepeatShift(instructions, network, i, period, m - 1);
      var a := i + m - 1;
      var node := NodeAfter(instructions, network, a);
      ModPeriod(a, |instructions|, period);
      assert NodeAfter(instructions, network, a + 1) == Next(instructions, network, node, a);
      assert NodeAfter(instructions, network, a + period + 1) == Next(instructions, network, node, a + period);
      if m >= period {
        RepeatShift(instructions, network, i, period, m - period);
        assert i + m == i + period + (m - period);
      }
    }
  }

  // ---------------------------------------------------------------------
  // The examples of the puzzle

  /** The first example network. */
  const RlNetwork: Network := map[
    "AAA" := ("BBB", "CCC"), "BBB" := ("DDD", "EEE"), "CCC" := ("ZZZ", "GGG"),
    "DDD" := ("DDD", "DDD"), "EEE" := ("EEE", "EEE"), "GGG" := ("GGG", "GGG"),
    "ZZZ" := ("ZZZ", "ZZZ")]

  /** With instructions `RL` the walk goes `AAA`, `CCC`, `ZZZ`: 2 steps. */
  lemma ExampleRl()
    ensures Stops(RlNetwork, NodeAfter("RL", RlNetwork, 2))
    ensures FirstStop("RL", RlNetwork, 2) == 2 && NodeAfter("RL", RlNetwork, 2) == "ZZZ"
  {
    var instructions := "RL";
    assert instructions[0] == 'R' && instructions[1] == 'L';
    assert NodeAfter(instructions, RlNetwork, 1) == "CCC";
    assert NodeAfter(instructions, RlNetwork, 2) == "ZZZ";
  }

  /** The second example network. */
  const LlrNetwork: Network := map["AAA" := ("BBB", "BBB"), "BBB" := ("AAA", "ZZZ"), "ZZZ" := ("ZZZ", "ZZZ")]

  /** With instructions `LLR` the walk needs two rounds of instructions: 6 steps. */
  lemma ExampleLlr()
    ensures Stops(LlrNetwork, NodeAfter("LLR", LlrNetwork, 6))
    ensures FirstStop("LLR", LlrNetwork, 6) == 6 && NodeAfter("LLR", LlrNetwork, 6) == "ZZZ"
  {
    var instructions := "LLR";
    assert instructions[0] == 'L' && instructions[1] == 'L' && instructions[2] == 'R';
    assert NodeAfter(instructions, LlrNetwork, 1) == "BBB";
    assert NodeAfter(instructions, LlrNetwork, 2) == "AAA";
    assert NodeAfter(instructions, LlrNetwork, 3) == "BBB";
    assert NodeAfter(instructions, LlrNetwork, 4) == "AAA";
    assert NodeAfter(instructions, LlrNetwork, 5) == "BBB";
    assert NodeAfter(instructions, LlrNetwork, 6) == "ZZZ";
  }
}
