/**
 * mohammad/day14: the parabolic reflector dish.  The platform is a square
 * grid of round rocks `O`, cube rocks `#` and empty ground `.`, tilted in
 * place one column (north, south) or one row (west, east) at a time; a spin
 * `cycle` tilts north, west, south and east; the load on the north support
 * beams weighs every round rock by its distance from the south edge.
 *
 * A tilt is specified on the line it rolls, read from the end it rolls
 * towards: the cells are a permutation of the old ones, the cube rocks
 * stay, no round rock crosses a cube rock, and no round rock has empty
 * ground in front of it.  `RolledUnique` shows that this determines the
 * tilted line.
 */
module MohammadDay14 {

  /** A platform cell: a round rock, a cube rock or empty ground. */
  predicate IsCell(c: char) { c == 'O' || c == '#' || c == '.' }

  /** A row or a column of the platform. */
  predicate IsLine(s: seq<char>) { forall k :: 0 <= k < |s| ==> IsCell(s[k]) }

  /** The number of round rocks in `s`. */
  function Rounds(s: seq<char>): nat { multiset(s)['O'] }

  /** The cube rocks are in the same places. */
  predicate SameRocks(s: seq<char>, t: seq<char>)
  {
    |s| == |t| && forall k :: 0 <= k < |s| ==> (s[k] == '#' <==> t[k] == '#')
  }

  /** No round rock crossed a cube rock: before each cube rock lie as many round rocks as before. */
  predicate SameRoundsBeforeRocks(s: seq<char>, t: seq<char>)
  {
    |s| == |t| && forall h :: 0 <= h < |s| && s[h] == '#' ==> Rounds(s[..h]) == Rounds(t[..h])
  }

  /** No round rock has empty ground on its side towards the start of the line. */
  predicate SettledAtStart(t: seq<char>)
  {
    forall k :: 0 < k < |t| && t[k] == 'O' ==> t[k - 1] != '.'
  }

  /** No round rock has empty ground on its side towards the end of the line. */
  predicate SettledAtEnd(t: seq<char>)
  {
    forall k :: 0 <= k < |t| - 1 && t[k] == 'O' ==> t[k + 1] != '.'
  }

  /** `t` is `s` with every round rock rolled as far towards the start as it goes (north, west). */
  predicate RolledToStart(s: seq<char>, t: seq<char>)
  {
    multiset(s) == multiset(t) && SameRocks(s, t) && SameRoundsBeforeRocks(s, t) && SettledAtStart(t)
  }

  /** `t` is `s` with every round rock rolled as far towards the end as it goes (south, east). */
  predicate RolledToEnd(s: seq<char>, t: seq<char>)
  {
    multiset(s) == multiset(t) && SameRocks(s, t) && SameRoundsBeforeRocks(s, t) && SettledAtEnd(t)
  }

  /** `s` with the cells at `i` and `j` exchanged. */
  function Swapped(s: seq<char>, i: nat, j: nat): (r: seq<char>)
    requires i < |s| && j < |s|
    ensures |r| == |s| && r[i] == s[j] && r[j] == s[i]
    ensures forall k :: 0 <= k < |s| && k != i && k != j ==> r[k] == s[k]
    ensures multiset(r) == multiset(s)
  {
    s[i := s[j]][j := s[i]]
  }

  // Counting round rocks in prefixes

  lemma RoundsSplit(t: seq<char>, k: nat, h: nat)
    requires k <= h <= |t|
    ensures Rounds(t[..h]) == Rounds(t[..k]) + Rounds(t[k..h])
  {
    assert t[..h] == t[..k] + t[k..h];
  }

  lemma RoundsNext(t: seq<char>, k: nat)
    requires k < |t|
    ensures Rounds(t[..k + 1]) == Rounds(t[..k]) + (if t[k] == 'O' then 1 else 0)
  {
    assert t[..k + 1] == t[..k] + [t[k]];
  }

  /** A round rock at `k` adds to the count of those before any earlier point. */
  lemma RoundsGrow(t: seq<char>, h: nat, k: nat)
    requires h <= k < |t| && t[k] == 'O'
    ensures Rounds(t[..k + 1]) > Rounds(t[..h])
  {
    RoundsSplit(t, h, k);
    RoundsNext(t, k);
  }

  /** A round rock at `k` adds to the count of those before any later point. */
  lemma RoundsGrowTo(t: seq<char>, k: nat, h: nat)
    requires k < h <= |t| && t[k] == 'O'
    ensures Rounds(t[..h]) > Rounds(t[..k])
  {
    RoundsSplit(t, k + 1, h);
    RoundsNext(t, k);
  }

  lemma LineKept(s: seq<char>, t: seq<char>)
    requires IsLine(s) && multiset(s) == multiset(t)
    ensures IsLine(t)
  {
    forall k | 0 <= k < |t| ensures IsCell(t[k]) {
      assert t[k] in multiset(s);
    }
  }

  /** The first cube rock at or after `k`, or the end of the line. */
  function NextRock(s: seq<char>, k: nat): (h: nat)
    requires k <= |s|
    ensures k <= h <= |s| && (h == |s| || s[h] == '#')
    ensures forall j :: k <= j < h ==> s[j] != '#'
    decreases |s| - k
  {
    if k == |s| || s[k] == '#' then k else NextRock(s, k + 1)
  }

  /** Just after the last cube rock before `k`, or the start of the line. */
  function PreviousRock(s: seq<char>, k: nat): (h: nat)
    requires k <= |s|
    ensures h <= k && (h == 0 || s[h - 1] == '#')
    ensures forall j :: h <= j < k ==> s[j] != '#'
  {
    if k == 0 || s[k - 1] == '#' then k else PreviousRock(s, k - 1)
  }

  /** Settled towards the start, empty ground is followed by empty ground up to the next cube rock. */
  lemma GroundRunToEnd(t: seq<char>, k: nat, h: nat)
    requires IsLine(t) && SettledAtStart(t)
    requires k < h <= |t| && t[k] == '.'
    requires forall j :: k <= j < h ==> t[j] != '#'
    ensures Rounds(t[..h]) == Rounds(t[..k])
  {
    var j := k;
    while j < h
      invariant k <= j <= h
      invariant j < h ==> t[j] == '.'
      invariant Rounds(t[..j]) == Rounds(t[..k])
    {
      RoundsNext(t, j);
      j := j + 1;
    }
  }

  /** Settled towards the end, empty ground is preceded by empty ground back to the previous cube rock. */
  lemma GroundRunToStart(t: seq<char>, h: nat, k: nat)
    requires IsLine(t) && SettledAtEnd(t)
    requires h <= k < |t| && t[k] == '.'
    requires forall j :: h <= j <= k ==> t[j] != '#'
    ensures Rounds(t[..k + 1]) == Rounds(t[..h])
  {
    var j := k + 1;
    while j > h
      invariant h <= j <= k + 1
      invariant j <= k ==> t[j] == '.'
      invariant Rounds(t[..j]) == Rounds(t[..k + 1])
    {
      RoundsNext(t, j - 1);
      j := j - 1;
    }
  }

  /** Settled towards the start, a cell followed by round rocks before the next cube rock is not ground. */
  lemma NotGroundAfterRounds(t: seq<char>, k: nat, h: nat)
    requires IsLine(t) && SettledAtStart(t)
    requires k < h <= |t| && forall j :: k <= j < h ==> t[j] != '#'
    requires Rounds(t[..h]) > Rounds(t[..k])
    ensures t[k] != '.'
  {
    if t[k] == '.' {
      GroundRunToEnd(t, k, h);
      assert false;
    }
  }

  /** Settled towards the end, a cell preceded by round rocks after the previous cube rock is not ground. */
  lemma NotGroundBeforeRounds(t: seq<char>, h: nat, k: nat)
    requires IsLine(t) && SettledAtEnd(t)
    requires h <= k < |t| && forall j :: h <= j <= k ==> t[j] != '#'
    requires Rounds(t[..k + 1]) > Rounds(t[..h])
    ensures t[k] != '.'
  {
    if t[k] == '.' {
      GroundRunToStart(t, h, k);
      assert false;
    }
  }

  /** At a cube rock, and at the end, two lines that keep the rounds before the rocks of `s` agree on the count before it. */
  lemma RoundsAtBoundary(s: seq<char>, ta: seq<char>, tb: seq<char>, h: nat)
    requires multiset(s) == multiset(ta) == multiset(tb)
    requires SameRoundsBeforeRocks(s, ta) && SameRoundsBeforeRocks(s, tb)
    requires h <= |s| && (h == |s| || s[h] == '#')
    ensures Rounds(ta[..h]) == Rounds(tb[..h])
  {
    if h == |s| {
      assert ta[..h] == ta && tb[..h] == tb;
    }
  }

  /** Two lines rolled to the start from `s` that agree before `k` cannot differ at `k` by a round rock against ground. */
  lemma NoSplitAtStart(s: seq<char>, ta: seq<char>, tb: seq<char>, k: nat)
    requires IsLine(s) && RolledToStart(s, ta) && RolledToStart(s, tb)
    requires k < |s| && ta[..k] == tb[..k] && ta[k] == 'O'
    ensures tb[k] != '.'
  {
    LineKept(s, tb);
    var h := NextRock(s, k + 1);
    RoundsAtBoundary(s, ta, tb, h);
    RoundsGrowTo(ta, k, h);
    assert Rounds(tb[..h]) > Rounds(tb[..k]);
    NotGroundAfterRounds(tb, k, h);
  }

  /** Lines with as many round rocks that agree from `j` on have as many before `j`. */
  lemma RoundsBeforeSuffix(ta: seq<char>, tb: seq<char>, j: nat)
    requires Rounds(ta) == Rounds(tb) && j <= |ta| == |tb| && ta[j..] == tb[j..]
    ensures Rounds(ta[..j]) == Rounds(tb[..j])
  {
    assert ta == ta[..j] + ta[j..] && tb == tb[..j] + tb[j..];
  }

  /** Just after a cube rock of `s`, and at the start, the round rocks before agree too. */
  lemma RoundsAfterBoundary(s: seq<char>, ta: seq<char>, tb: seq<char>, h: nat)
    requires SameRocks(s, ta) && SameRocks(s, tb)
    requires SameRoundsBeforeRocks(s, ta) && SameRoundsBeforeRocks(s, tb)
    requires h <= |s| && (h == 0 || s[h - 1] == '#')
    ensures Rounds(ta[..h]) == Rounds(tb[..h])
  {
    if h > 0 {
      RoundsNext(ta, h - 1);
      RoundsNext(tb, h - 1);
    }
  }

  /** Two lines rolled to the end from `s` that agree after `k` cannot differ at `k` by a round rock against ground. */
  lemma NoSplitAtEnd(s: seq<char>, ta: seq<char>, tb: seq<char>, k: nat)
    requires IsLine(s) && RolledToEnd(s, ta) && RolledToEnd(s, tb)
    requires k < |s| && ta[k + 1..] == tb[k + 1..] && ta[k] == 'O'
    ensures tb[k] != '.'
  {
    LineKept(s, tb);
    assert Rounds(ta) == Rounds(tb) by {
      assert multiset(ta) == multiset(s) == multiset(tb);
    }
    RoundsNoSplitAtEnd(s, ta, tb, k);
  }

  /** The counting argument behind `NoSplitAtEnd`, without the permutations. */
  lemma RoundsNoSplitAtEnd(s: seq<char>, ta: seq<char>, tb: seq<char>, k: nat)
    requires IsLine(tb) && SettledAtEnd(tb) && Rounds(ta) == Rounds(tb)
    requires SameRocks(s, ta) && SameRocks(s, tb)
    requires SameRoundsBeforeRocks(s, ta) && SameRoundsBeforeRocks(s, tb)
    requires k < |s| && ta[k + 1..] == tb[k + 1..] && ta[k] == 'O'
    ensures tb[k] != '.'
  {
    var h := PreviousRock(s, k);
    RoundsBeforeSuffix(ta, tb, k + 1);
    RoundsAfterBoundary(s, ta, tb, h);
    RoundsGrow(ta, h, k);
    assert Rounds(tb[..k + 1]) > Rounds(tb[..h]);
    assert s[k] != '#' by { assert ta[k] != '#'; }
    assert SameRocks(s, tb);
    NoRockBetween(s, tb, h, k);
    NotGroundBeforeRounds(tb, h, k);
  }

  /** A stretch of `s` before `k` since its previous cube rock has none in a line with the same rocks. */
  lemma NoRockBetween(s: seq<char>, t: seq<char>, h: nat, k: nat)
    requires SameRocks(s, t) && k < |s| && s[k] != '#' && h == PreviousRock(s, k)
    ensures forall j :: h <= j <= k ==> t[j] != '#'
  {
    forall j | h <= j <= k ensures t[j] != '#' {
      if j < k {
        assert s[j] != '#';
      }
    }
  }

  /** Rolling a line towards its start has only one outcome. */
  lemma RolledToStartUnique(s: seq<char>, ta: seq<char>, tb: seq<char>)
    requires IsLine(s) && RolledToStart(s, ta) && RolledToStart(s, tb)
    ensures ta == tb
  {
    LineKept(s, ta);
    LineKept(s, tb);
    var k := 0;
    while k < |s|
      invariant 0 <= k <= |s| && ta[..k] == tb[..k]
    {
      if ta[k] == 'O' {
        NoSplitAtStart(s, ta, tb, k);
      } else if tb[k] == 'O' {
        NoSplitAtStart(s, tb, ta, k);
      }
      assert ta[..k + 1] == ta[..k] + [ta[k]] && tb[..k + 1] == tb[..k] + [tb[k]];
      k := k + 1;
    }
    assert ta == ta[..k] && tb == tb[..k];
  }

  /** Rolling a line towards its end has only one outcome. */
  lemma RolledToEndUnique(s: seq<char>, ta: seq<char>, tb: seq<char>)
    requires IsLine(s) && RolledToEnd(s, ta) && RolledToEnd(s, tb)
    ensures ta == tb
  {
    LineKept(s, ta);
    LineKept(s, tb);
    assert |ta| == |s| == |tb|;
    var k := |s|;
    while k > 0
      invariant 0 <= k <= |s| && ta[k..] == tb[k..]
    {
      if ta[k - 1] == 'O' {
        NoSplitAtEnd(s, ta, tb, k - 1);
      } else if tb[k - 1] == 'O' {
        NoSplitAtEnd(s, tb, ta, k - 1);
      }
      assert ta[k - 1..] == [ta[k - 1]] + ta[k..] && tb[k - 1..] == [tb[k - 1]] + tb[k..];
      k := k - 1;
    }
    assert ta == ta[0..] && tb == tb[0..];
  }

  // The state of a tilt while it runs

  /** Round rocks before `p` are settled towards the start. */
  predicate SettledBefore(t: seq<char>, p: nat)
  {
    forall k :: 0 < k < p && k < |t| && t[k] == 'O' ==> t[k - 1] != '.'
  }

  /** What every tilt keeps at every step: the cells are a permutation, and no round rock crossed a cube rock. */
  predicate Kept(orig: seq<char>, cur: seq<char>)
  {
    IsLine(cur) && |cur| == |orig| &&
    multiset(cur) == multiset(orig) && SameRocks(orig, cur) && SameRoundsBeforeRocks(orig, cur)
  }

  /**
   * `tilt_north` and `tilt_west` part way: the cells before `p` are settled,
   * the cells from `p` on are as they were, and the cells from `idx` to `p`
   * are ground (the scan may step back over them).
   */
  predicate StartProgress(orig: seq<char>, cur: seq<char>, idx: nat, p: nat)
  {
    |cur| == |orig| && idx <= p <= |cur| &&
    (forall k :: p <= k < |cur| ==> cur[k] == orig[k]) &&
    (forall k :: idx <= k < p ==> cur[k] == '.') &&
    SettledBefore(cur, p)
  }

  /** `square_loc` of `tilt_north` and `tilt_west`: the last cube rock before `idx`, or the start. */
  predicate StopAbove(cur: seq<char>, squareLoc: nat, idx: nat)
  {
    squareLoc < |cur| && idx <= |cur| && (squareLoc < idx || squareLoc == idx == 0) &&
    (squareLoc == 0 || cur[squareLoc] == '#') &&
    forall k :: squareLoc < k < idx ==> cur[k] != '#'
  }

  lemma SwapPrefix(s: seq<char>, i: nat, j: nat, h: nat)
    requires i < |s| && j < |s| && h <= |s|
    ensures h <= i && h <= j ==> Swapped(s, i, j)[..h] == s[..h]
    ensures i < h && j < h ==> multiset(Swapped(s, i, j)[..h]) == multiset(s[..h])
  {
    if i < h && j < h {
      assert Swapped(s, i, j)[..h] == Swapped(s[..h], i, j);
    }
  }

  lemma StartBegin(orig: seq<char>)
    requires IsLine(orig) && |orig| >= 1
    ensures Kept(orig, orig) && StartProgress(orig, orig, 0, 0) && StopAbove(orig, 0, 0)
  {
  }

  lemma StartGround(orig: seq<char>, cur: seq<char>, idx: nat, p: nat, squareLoc: nat)
    requires StartProgress(orig, cur, idx, p) && StopAbove(cur, squareLoc, idx)
    requires idx < |cur| && cur[idx] == '.'
    ensures idx < p ==> StartProgress(orig, cur, idx + 1, p)
    ensures idx == p ==> StartProgress(orig, cur, idx + 1, p + 1)
    ensures StopAbove(cur, squareLoc, idx + 1)
  {
  }

  lemma StartRock(orig: seq<char>, cur: seq<char>, idx: nat, p: nat, squareLoc: nat)
    requires StartProgress(orig, cur, idx, p) && StopAbove(cur, squareLoc, idx)
    requires idx < |cur| && cur[idx] == '#'
    ensures p == idx && StartProgress(orig, cur, idx + 1, idx + 1) && StopAbove(cur, idx, idx + 1)
  {
  }

  lemma StartRoundAtStart(orig: seq<char>, cur: seq<char>, p: nat, squareLoc: nat)
    requires StartProgress(orig, cur, 0, p) && StopAbove(cur, squareLoc, 0)
    requires |cur| > 0 && cur[0] == 'O'
    ensures p == 0 && StartProgress(orig, cur, 1, 1) && StopAbove(cur, squareLoc, 1)
  {
  }

  /** Exchanging a round rock with ground, with no cube rock between them, keeps what every tilt keeps. */
  lemma SwapKept(orig: seq<char>, cur: seq<char>, i: nat, j: nat)
    requires Kept(orig, cur) && i < |cur| && j < |cur|
    requires cur[i] == 'O' && cur[j] != '#'
    requires forall k :: i <= k <= j || j <= k <= i ==> cur[k] != '#'
    ensures Kept(orig, Swapped(cur, i, j))
  {
    var next := Swapped(cur, i, j);
    forall h | 0 <= h < |orig| && orig[h] == '#' ensures Rounds(orig[..h]) == Rounds(next[..h]) {
      SwapPrefix(cur, i, j, h);
    }
  }

  /**
   * The round rock at `idx` moved to `target`, past ground only, to just
   * after a round or cube rock or to the start; the scan resumes at `q`.
   */
  lemma StartRoundMoves(orig: seq<char>, cur: seq<char>, idx: nat, p: nat, squareLoc: nat, target: nat, q: nat)
    requires StartProgress(orig, cur, idx, p) && StopAbove(cur, squareLoc, idx)
    requires idx < |cur| && cur[idx] == 'O'
    requires target <= idx && forall k :: target <= k < idx ==> cur[k] == '.'
    requires target == 0 || cur[target - 1] != '.'
    requires target < q <= idx + 1
    ensures p == idx
    ensures StartProgress(orig, Swapped(cur, idx, target), q, idx + 1)
  {
  }

  lemma StopAboveMoves(cur: seq<char>, idx: nat, squareLoc: nat, target: nat, q: nat)
    requires StopAbove(cur, squareLoc, idx)
    requires idx < |cur| && cur[idx] == 'O'
    requires target <= idx && forall k :: target <= k < idx ==> cur[k] == '.'
    requires squareLoc < q <= idx + 1
    ensures StopAbove(Swapped(cur, idx, target), squareLoc, q)
  {
  }

  lemma StartEnd(orig: seq<char>, cur: seq<char>)
    requires Kept(orig, cur) && StartProgress(orig, cur, |cur|, |cur|)
    ensures RolledToStart(orig, cur)
  {
  }

  /** Round rocks from `lo` on are settled towards the end. */
  predicate SettledFrom(t: seq<char>, lo: nat)
  {
    forall k :: lo <= k && k + 1 < |t| && t[k] == 'O' ==> t[k + 1] != '.'
  }

  /**
   * `tilt_south` and `tilt_east` part way: the scan runs from the end
   * back; the cells from `lo` on are settled and those before `lo` are as
   * they were.
   */
  predicate EndProgress(orig: seq<char>, cur: seq<char>, lo: nat)
  {
    |cur| == |orig| && lo <= |cur| &&
    (forall k :: 0 <= k < lo ==> cur[k] == orig[k]) &&
    SettledFrom(cur, lo)
  }

  /** `square_loc` of `tilt_south` and `tilt_east`: the first cube rock from `lo` on, or the end. */
  predicate StopBelow(cur: seq<char>, squareLoc: nat, lo: nat)
  {
    squareLoc < |cur| && lo <= |cur| && (lo <= squareLoc || (lo == |cur| && squareLoc == |cur| - 1)) &&
    (squareLoc == |cur| - 1 || cur[squareLoc] == '#') &&
    forall k :: lo <= k < squareLoc ==> cur[k] != '#'
  }

  lemma EndBegin(orig: seq<char>)
    requires IsLine(orig) && |orig| >= 1
    ensures Kept(orig, orig) && EndProgress(orig, orig, |orig|) && StopBelow(orig, |orig| - 1, |orig|)
  {
  }

  lemma EndGround(orig: seq<char>, cur: seq<char>, idx: nat, squareLoc: nat)
    requires EndProgress(orig, cur, idx + 1) && StopBelow(cur, squareLoc, idx + 1)
    requires idx < |cur| && cur[idx] == '.'
    ensures EndProgress(orig, cur, idx) && StopBelow(cur, squareLoc, idx)
  {
  }

  lemma EndRock(orig: seq<char>, cur: seq<char>, idx: nat, squareLoc: nat)
    requires EndProgress(orig, cur, idx + 1) && StopBelow(cur, squareLoc, idx + 1)
    requires idx < |cur| && cur[idx] == '#'
    ensures EndProgress(orig, cur, idx) && StopBelow(cur, idx, idx)
  {
  }

  /** The round rock at `idx` moved to `target`, past ground only, to just before a round or cube rock or to the end. */
  lemma EndRoundMoves(orig: seq<char>, cur: seq<char>, idx: nat, target: nat)
    requires EndProgress(orig, cur, idx + 1)
    requires idx <= target < |cur| && cur[idx] == 'O'
    requires forall k :: idx < k <= target ==> cur[k] == '.'
    requires target == |cur| - 1 || cur[target + 1] != '.'
    ensures EndProgress(orig, Swapped(cur, idx, target), idx)
  {
  }

  lemma StopBelowMoves(cur: seq<char>, idx: nat, squareLoc: nat, target: nat)
    requires StopBelow(cur, squareLoc, idx + 1)
    requires idx <= target < |cur| && cur[idx] == 'O'
    requires forall k :: idx < k <= target ==> cur[k] == '.'
    ensures StopBelow(Swapped(cur, idx, target), squareLoc, idx)
  {
  }

  /** The `'O'` arm of `tilt_south` and `tilt_east` as a whole. */
  lemma EndRoundSettles(orig: seq<char>, cur: seq<char>, idx: nat, squareLoc: nat, target: nat)
    requires Kept(orig, cur) && EndProgress(orig, cur, idx + 1) && StopBelow(cur, squareLoc, idx + 1)
    requires idx <= target < |cur| && cur[idx] == 'O'
    requires forall k :: idx < k <= target ==> cur[k] == '.'
    requires target == |cur| - 1 || cur[target + 1] != '.'
    ensures Kept(orig, Swapped(cur, idx, target))
    ensures EndProgress(orig, Swapped(cur, idx, target), idx) && StopBelow(Swapped(cur, idx, target), squareLoc, idx)
  {
    SwapKept(orig, cur, idx, target);
    EndRoundMoves(orig, cur, idx, target);
    StopBelowMoves(cur, idx, squareLoc, target);
  }

  lemma SwappedSelf(s: seq<char>, i: nat)
    requires i < |s|
    ensures Swapped(s, i, i) == s
  {
  }

  lemma EndEnd(orig: seq<char>, cur: seq<char>)
    requires Kept(orig, cur) && EndProgress(orig, cur, 0)
    ensures RolledToEnd(orig, cur)
  {
  }

  // The platform

  type Pos = (nat, nat)

  /** Column `c` of the platform, from north to south. */
  function Column(grid: array2<char>, c: nat): (s: seq<char>)
    requires c < grid.Length1
    reads grid
    ensures |s| == grid.Length0 && forall r :: 0 <= r < grid.Length0 ==> s[r] == grid[r, c]
  {
    seq(grid.Length0, r requires 0 <= r < grid.Length0 reads grid => grid[r, c])
  }

  /** Row `r` of the platform, from west to east. */
  function Row(grid: array2<char>, r: nat): (s: seq<char>)
    requires r < grid.Length0
    reads grid
    ensures |s| == grid.Length1 && forall c :: 0 <= c < grid.Length1 ==> s[c] == grid[r, c]
  {
    seq(grid.Length1, c requires 0 <= c < grid.Length1 reads grid => grid[r, c])
  }

  /** `swap`: exchanges the cells at `a` and `b`; every other cell keeps its content. */
  method Swap(v: array2<char>, a: Pos, b: Pos)
    requires a.0 < v.Length0 && a.1 < v.Length1 && b.0 < v.Length0 && b.1 < v.Length1
    modifies v
    ensures v[a.0, a.1] == old(v[b.0, b.1]) && v[b.0, b.1] == old(v[a.0, a.1])
    ensures forall r, c :: 0 <= r < v.Length0 && 0 <= c < v.Length1 && (r, c) != a && (r, c) != b ==>
      v[r, c] == old(v[r, c])
    ensures a.1 == b.1 ==> Column(v, a.1) == Swapped(old(Column(v, a.1)), a.0, b.0)
    ensures a.0 == b.0 ==> Row(v, a.0) == Swapped(old(Row(v, a.0)), a.1, b.1)
  {
    ghost var column, row := Column(v, a.1), Row(v, a.0);
    var tmp := v[a.0, a.1];
    v[a.0, a.1] := v[b.0, b.1];
    v[b.0, b.1] := tmp;
    if a.1 == b.1 {
      assert Column(v, a.1) == Swapped(column, a.0, b.0);
    }
    if a.0 == b.0 {
      assert Row(v, a.0) == Swapped(row, a.1, b.1);
    }
  }

  /**
   * The scan of `tilt_north`'s `'O'` arm below the first row: up from
   * `idx - 1` to `square_loc` for the first round or cube rock, or for
   * ground in the top row.  The round rock goes to `target`, and the scan
   * of the column resumes after `newIdx`, the row below the one that
   * stopped this scan.
   */
  method ScanNorth(grid: array2<char>, col: nat, squareLoc: nat, idx: nat) returns (newIdx: nat, target: nat)
    requires col < grid.Length1 && 0 < idx < grid.Length0
    requires IsLine(Column(grid, col)) && StopAbove(Column(grid, col), squareLoc, idx)
    ensures target <= idx && (forall k :: target <= k < idx ==> grid[k, col] == '.')
    ensures target == 0 || grid[target - 1, col] != '.'
    ensures newIdx == (if target == 0 then 1 else target) && squareLoc < newIdx
  {
    var i := idx;
    var stopped := false;
    newIdx, target := idx, idx;
    while !stopped
      invariant squareLoc <= i <= idx
      invariant !stopped ==> squareLoc < i && forall k :: i <= k < idx ==> grid[k, col] == '.'
      invariant stopped ==> target <= idx && (forall k :: target <= k < idx ==> grid[k, col] == '.')
      invariant stopped ==> (target == 0 || grid[target - 1, col] != '.')
      invariant stopped ==> newIdx == (if target == 0 then 1 else target) && squareLoc < newIdx
      decreases i
    {
      i := i - 1;
      match grid[i, col] {
        case 'O' | '#' =>
          newIdx, target := i + 1, i + 1;
          stopped := true;
        case '.' =>
          if i == 0 {
            newIdx, target := i + 1, 0;
            stopped := true;
          }
        case _ =>
      }
    }
  }

  /** The `'O'` arm of `tilt_north` below the first row: the scan, then the swap into place. */
  method RollNorth(grid: array2<char>, col: nat, ghost orig: seq<char>, squareLoc: nat, idx: nat, ghost p: nat)
    returns (newIdx: nat)
    requires col < grid.Length1 && 0 < idx < grid.Length0 && grid[idx, col] == 'O'
    requires Kept(orig, Column(grid, col))
    requires StartProgress(orig, Column(grid, col), idx, p) && StopAbove(Column(grid, col), squareLoc, idx)
    modifies grid
    ensures Kept(orig, Column(grid, col)) && p == idx
    ensures StartProgress(orig, Column(grid, col), newIdx + 1, idx + 1)
    ensures StopAbove(Column(grid, col), squareLoc, newIdx + 1)
    ensures forall r, c :: 0 <= r < grid.Length0 && 0 <= c < grid.Length1 && c != col ==> grid[r, c] == old(grid[r, c])
  {
    ghost var cur := Column(grid, col);
    var target;
    newIdx, target := ScanNorth(grid, col, squareLoc, idx);
    Swap(grid, (idx, col), (target, col));
    SwapKept(orig, cur, idx, target);
    StartRoundMoves(orig, cur, idx, p, squareLoc, target, newIdx + 1);
    StopAboveMoves(cur, idx, squareLoc, target, newIdx + 1);
  }

  /** One pass of `tilt_north`'s loop: the match on the cell at `idx`, then the step to the next row. */
  method NorthStep(grid: array2<char>, col: nat, ghost orig: seq<char>, squareLoc: nat, idx: nat, ghost p: nat)
    returns (squareLoc': nat, idx': nat, ghost p': nat)
    requires col < grid.Length1 && idx < grid.Length0
    requires Kept(orig, Column(grid, col))
    requires StartProgress(orig, Column(grid, col), idx, p) && StopAbove(Column(grid, col), squareLoc, idx)
    modifies grid
    ensures Kept(orig, Column(grid, col))
    ensures StartProgress(orig, Column(grid, col), idx', p') && StopAbove(Column(grid, col), squareLoc', idx')
    ensures p' > p || (p' == p && idx' > idx)
    ensures forall r, c :: 0 <= r < grid.Length0 && 0 <= c < grid.Length1 && c != col ==> grid[r, c] == old(grid[r, c])
  {
    ghost var cur := Column(grid, col);
    squareLoc', idx', p' := squareLoc, idx, p;
    match grid[idx, col] {
      case 'O' =>
        if idx > 0 {
          idx' := RollNorth(grid, col, orig, squareLoc, idx, p);
        } else {
          StartRoundAtStart(orig, cur, p, squareLoc);
        }
        p' := idx + 1;
      case '#' =>
        StartRock(orig, cur, idx, p, squareLoc);
        squareLoc' := idx;
        p' := idx + 1;
      case _ =>
        StartGround(orig, cur, idx, p, squareLoc);
        if idx == p {
          p' := p + 1;
        }
    }
    idx' := idx' + 1;
  }

  /** `tilt_north`: rolls every round rock of column `col` north; no other column changes. */
  method TiltNorth(grid: array2<char>, col: nat)
    requires grid.Length0 == grid.Length1 && col < grid.Length0
    requires IsLine(Column(grid, col))
    modifies grid
    ensures RolledToStart(old(Column(grid, col)), Column(grid, col))
    ensures forall r, c :: 0 <= r < grid.Length0 && 0 <= c < grid.Length1 && c != col ==> grid[r, c] == old(grid[r, c])
  {
    var squareLoc: nat := 0;
    var idx: nat := 0;
    var dim := grid.Length0;
    ghost var orig := Column(grid, col);
    ghost var p: nat := 0;
    StartBegin(orig);
    while idx < dim
      invariant Kept(orig, Column(grid, col))
      invariant StartProgress(orig, Column(grid, col), idx, p) && StopAbove(Column(grid, col), squareLoc, idx)
      invariant forall r, c :: 0 <= r < grid.Length0 && 0 <= c < grid.Length1 && c != col ==> grid[r, c] == old(grid[r, c])
      decreases dim - p, dim - idx
    {
      squareLoc, idx, p := NorthStep(grid, col, orig, squareLoc, idx, p);
    }
    StartEnd(orig, Column(grid, col));
  }
  /**
   * The scan of `tilt_west`'s `'O'` arm below the first row: up from
   * `idx - 1` to `square_loc` for the first round or cube rock, or for
   * ground in the first column.  The round rock goes to `target`; unlike
   * `tilt_north`, the scan of the row then goes on after `idx`.
   */
  method ScanWest(grid: array2<char>, row: nat, squareLoc: nat, idx: nat) returns (target: nat)
    requires row < grid.Length0 && 0 < idx < grid.Length1
    requires IsLine(Row(grid, row)) && StopAbove(Row(grid, row), squareLoc, idx)
    ensures target <= idx && (forall k :: target <= k < idx ==> grid[row, k] == '.')
    ensures target == 0 || grid[row, target - 1] != '.'
  {
    var i := idx;
    var stopped := false;
    target := idx;
    while !stopped
      invariant squareLoc <= i <= idx
      invariant !stopped ==> squareLoc < i && forall k :: i <= k < idx ==> grid[row, k] == '.'
      invariant stopped ==> target <= idx && (forall k :: target <= k < idx ==> grid[row, k] == '.')
      invariant stopped ==> (target == 0 || grid[row, target - 1] != '.')
      decreases i
    {
      i := i - 1;
      match grid[row, i] {
        case 'O' | '#' =>
          target := i + 1;
          stopped := true;
        case '.' =>
          if i == 0 {
            target := 0;
            stopped := true;
          }
        case _ =>
      }
    }
  }

  /** The `'O'` arm of `tilt_west` below the first row: the scan, then the swap into place. */
  method RollWest(grid: array2<char>, row: nat, ghost orig: seq<char>, squareLoc: nat, idx: nat, ghost p: nat)
    requires row < grid.Length0 && 0 < idx < grid.Length1 && grid[row, idx] == 'O'
    requires Kept(orig, Row(grid, row))
    requires StartProgress(orig, Row(grid, row), idx, p) && StopAbove(Row(grid, row), squareLoc, idx)
    modifies grid
    ensures Kept(orig, Row(grid, row)) && p == idx
    ensures StartProgress(orig, Row(grid, row), idx + 1, idx + 1)
    ensures StopAbove(Row(grid, row), squareLoc, idx + 1)
    ensures forall r, c :: 0 <= r < grid.Length0 && 0 <= c < grid.Length1 && r != row ==> grid[r, c] == old(grid[r, c])
  {
    ghost var cur := Row(grid, row);
    var target := ScanWest(grid, row, squareLoc, idx);
    Swap(grid, (row, idx), (row, target));
    SwapKept(orig, cur, idx, target);
    StartRoundMoves(orig, cur, idx, p, squareLoc, target, idx + 1);
    StopAboveMoves(cur, idx, squareLoc, target, idx + 1);
  }

  /** One pass of `tilt_west`'s loop: the match on the cell at `idx`, then the step to the next column. */
  method WestStep(grid: array2<char>, row: nat, ghost orig: seq<char>, squareLoc: nat, idx: nat, ghost p: nat)
    returns (squareLoc': nat, idx': nat, ghost p': nat)
    requires row < grid.Length0 && idx < grid.Length1
    requires Kept(orig, Row(grid, row))
    requires StartProgress(orig, Row(grid, row), idx, p) && StopAbove(Row(grid, row), squareLoc, idx)
    modifies grid
    ensures Kept(orig, Row(grid, row))
    ensures StartProgress(orig, Row(grid, row), idx', p') && StopAbove(Row(grid, row), squareLoc', idx')
    ensures p' > p || (p' == p && idx' > idx)
    ensures forall r, c :: 0 <= r < grid.Length0 && 0 <= c < grid.Length1 && r != row ==> grid[r, c] == old(grid[r, c])
  {
    ghost var cur := Row(grid, row);
    squareLoc', idx', p' := squareLoc, idx, p;
    match grid[row, idx] {
      case 'O' =>
        if idx > 0 {
          RollWest(grid, row, orig, squareLoc, idx, p);
        } else {
          StartRoundAtStart(orig, cur, p, squareLoc);
        }
        p' := idx + 1;
      case '#' =>
        StartRock(orig, cur, idx, p, squareLoc);
        squareLoc' := idx;
        p' := idx + 1;
      case _ =>
        StartGround(orig, cur, idx, p, squareLoc);
        if idx == p {
          p' := p + 1;
        }
    }
    idx' := idx' + 1;
  }

  /** `tilt_west`: rolls every round rock of row `row` west; no other row changes. */
  method TiltWest(grid: array2<char>, row: nat)
    requires grid.Length0 == grid.Length1 && row < grid.Length0
    requires IsLine(Row(grid, row))
    modifies grid
    ensures RolledToStart(old(Row(grid, row)), Row(grid, row))
    ensures forall r, c :: 0 <= r < grid.Length0 && 0 <= c < grid.Length1 && r != row ==> grid[r, c] == old(grid[r, c])
  {
    var squareLoc: nat := 0;
    var idx: nat := 0;
    var dim := grid.Length0;
    ghost var orig := Row(grid, row);
    ghost var p: nat := 0;
    StartBegin(orig);
    while idx < dim
      invariant Kept(orig, Row(grid, row))
      invariant StartProgress(orig, Row(grid, row), idx, p) && StopAbove(Row(grid, row), squareLoc, idx)
      invariant forall r, c :: 0 <= r < grid.Length0 && 0 <= c < grid.Length1 && r != row ==> grid[r, c] == old(grid[r, c])
      decreases dim - p, dim - idx
    {
      squareLoc, idx, p := WestStep(grid, row, orig, squareLoc, idx, p);
    }
    StartEnd(orig, Row(grid, row));
  }

  /**
   * The scan of `tilt_south`'s `'O'` arm: down from `idx + 1` to
   * `square_loc` for the first round or cube rock, or for ground in the
   * bottom row; `stopped` says whether it found one.  The round rock goes
   * to `target`.
   */
  method ScanSouth(grid: array2<char>, col: nat, squareLoc: nat, idx: nat) returns (stopped: bool, target: nat)
    requires col < grid.Length1 && idx < grid.Length0
    requires IsLine(Column(grid, col)) && StopBelow(Column(grid, col), squareLoc, idx + 1)
    ensures idx <= target < grid.Length0 && (forall k :: idx < k <= target ==> grid[k, col] == '.')
    ensures target == grid.Length0 - 1 || grid[target + 1, col] != '.'
    ensures !stopped ==> target == idx
  {
    var i := idx + 1;
    stopped := false;
    target := idx;
    while !stopped && i <= squareLoc
      invariant idx < i <= squareLoc + 1 || (i == idx + 1 == grid.Length0)
      invariant !stopped ==> target == idx && (forall k :: idx < k < i ==> grid[k, col] == '.')
      invariant !stopped && i > squareLoc ==> idx == grid.Length0 - 1
      invariant stopped ==> idx <= target < grid.Length0 && (forall k :: idx < k <= target ==> grid[k, col] == '.')
      invariant stopped ==> target == grid.Length0 - 1 || grid[target + 1, col] != '.'
      decreases squareLoc + 1 - i
    {
      match grid[i, col] {
        case 'O' | '#' =>
          target := i - 1;
          stopped := true;
        case '.' =>
          if i == grid.Length0 - 1 {
            target := grid.Length0 - 1;
            stopped := true;
          }
        case _ =>
      }
      i := i + 1;
    }
  }

  /** The `'O'` arm of `tilt_south`: the scan, then the swap into place when it found one. */
  method RollSouth(grid: array2<char>, col: nat, ghost orig: seq<char>, squareLoc: nat, idx: nat)
    requires col < grid.Length1 && idx < grid.Length0 && grid[idx, col] == 'O'
    requires Kept(orig, Column(grid, col))
    requires EndProgress(orig, Column(grid, col), idx + 1) && StopBelow(Column(grid, col), squareLoc, idx + 1)
    modifies grid
    ensures Kept(orig, Column(grid, col))
    ensures EndProgress(orig, Column(grid, col), idx) && StopBelow(Column(grid, col), squareLoc, idx)
    ensures forall r, c :: 0 <= r < grid.Length0 && 0 <= c < grid.Length1 && c != col ==> grid[r, c] == old(grid[r, c])
  {
    ghost var cur := Column(grid, col);
    var stopped, target := ScanSouth(grid, col, squareLoc, idx);
    EndRoundSettles(orig, cur, idx, squareLoc, target);
    if stopped {
      Swap(grid, (idx, col), (target, col));
    } else {
      SwappedSelf(cur, idx);
    }
  }

  /** One pass of `tilt_south`'s loop: the match on the cell at `idx`, the row `ridx` rows above the bottom. */
  method SouthStep(grid: array2<char>, col: nat, ghost orig: seq<char>, squareLoc: nat, idx: nat)
    returns (squareLoc': nat)
    requires col < grid.Length1 && idx < grid.Length0
    requires Kept(orig, Column(grid, col))
    requires EndProgress(orig, Column(grid, col), idx + 1) && StopBelow(Column(grid, col), squareLoc, idx + 1)
    modifies grid
    ensures Kept(orig, Column(grid, col))
    ensures EndProgress(orig, Column(grid, col), idx) && StopBelow(Column(grid, col), squareLoc', idx)
    ensures forall r, c :: 0 <= r < grid.Length0 && 0 <= c < grid.Length1 && c != col ==> grid[r, c] == old(grid[r, c])
  {
    ghost var cur := Column(grid, col);
    squareLoc' := squareLoc;
    match grid[idx, col] {
      case 'O' =>
        if idx < grid.Length0 {
          RollSouth(grid, col, orig, squareLoc, idx);
        }
      case '#' =>
        EndRock(orig, cur, idx, squareLoc);
        squareLoc' := idx;
      case _ =>
        EndGround(orig, cur, idx, squareLoc);
    }
  }

  /** `tilt_south`: rolls every round rock of column `col` south; no other column changes. */
  method TiltSouth(grid: array2<char>, col: nat)
    requires grid.Length0 == grid.Length1 && col < grid.Length0
    requires IsLine(Column(grid, col))
    modifies grid
    ensures RolledToEnd(old(Column(grid, col)), Column(grid, col))
    ensures forall r, c :: 0 <= r < grid.Length0 && 0 <= c < grid.Length1 && c != col ==> grid[r, c] == old(grid[r, c])
  {
    var ridx: nat := 0;
    var dim := grid.Length0;
    var squareLoc: nat := dim - 1;
    ghost var orig := Column(grid, col);
    EndBegin(orig);
    while ridx < dim
      invariant ridx <= dim
      invariant Kept(orig, Column(grid, col))
      invariant EndProgress(orig, Column(grid, col), dim - ridx) && StopBelow(Column(grid, col), squareLoc, dim - ridx)
      invariant forall r, c :: 0 <= r < grid.Length0 && 0 <= c < grid.Length1 && c != col ==> grid[r, c] == old(grid[r, c])
    {
      var idx := dim - 1 - ridx;
      squareLoc := SouthStep(grid, col, orig, squareLoc, idx);
      ridx := ridx + 1;
    }
    EndEnd(orig, Column(grid, col));
  }

  /**
   * The scan of `tilt_east`'s `'O'` arm: down from `idx + 1` to
   * `square_loc` for the first round or cube rock, or for ground in the
   * last column; `stopped` says whether it found one.  The round rock goes
   * to `target`.
   */
  method ScanEast(grid: array2<char>, row: nat, squareLoc: nat, idx: nat) returns (stopped: bool, target: nat)
    requires row < grid.Length0 && idx < grid.Length1
    requires IsLine(Row(grid, row)) && StopBelow(Row(grid, row), squareLoc, idx + 1)
    ensures idx <= target < grid.Length1 && (forall k :: idx < k <= target ==> grid[row, k] == '.')
    ensures target == grid.Length1 - 1 || grid[row, target + 1] != '.'
    ensures !stopped ==> target == idx
  {
    var i := idx + 1;
    stopped := false;
    target := idx;
    while !stopped && i <= squareLoc
      invariant idx < i <= squareLoc + 1 || (i == idx + 1 == grid.Length1)
      invariant !stopped ==> target == idx && (forall k :: idx < k < i ==> grid[row, k] == '.')
      invariant !stopped && i > squareLoc ==> idx == grid.Length1 - 1
      invariant stopped ==> idx <= target < grid.Length1 && (forall k :: idx < k <= target ==> grid[row, k] == '.')
      invariant stopped ==> target == grid.Length1 - 1 || grid[row, target + 1] != '.'
      decreases squareLoc + 1 - i
    {
      match grid[row, i] {
        case 'O' | '#' =>
          target := i - 1;
          stopped := true;
        case '.' =>
          if i == grid.Length1 - 1 {
            target := grid.Length1 - 1;
            stopped := true;
          }
        case _ =>
      }
      i := i + 1;
    }
  }

  /** The `'O'` arm of `tilt_east`: the scan, then the swap into place when it found one. */
  method RollEast(grid: array2<char>, row: nat, ghost orig: seq<char>, squareLoc: nat, idx: nat)
    requires row < grid.Length0 && idx < grid.Length1 && grid[row, idx] == 'O'
    requires Kept(orig, Row(grid, row))
    requires EndProgress(orig, Row(grid, row), idx + 1) && StopBelow(Row(grid, row), squareLoc, idx + 1)
    modifies grid
    ensures Kept(orig, Row(grid, row))
    ensures EndProgress(orig, Row(grid, row), idx) && StopBelow(Row(grid, row), squareLoc, idx)
    ensures forall r, c :: 0 <= r < grid.Length0 && 0 <= c < grid.Length1 && r != row ==> grid[r, c] == old(grid[r, c])
  {
    ghost var cur := Row(grid, row);
    var stopped, target := ScanEast(grid, row, squareLoc, idx);
    EndRoundSettles(orig, cur, idx, squareLoc, target);
    if stopped {
      Swap(grid, (row, idx), (row, target));
    } else {
      SwappedSelf(cur, idx);
    }
  }

  /** One pass of `tilt_east`'s loop: the match on the cell at `idx`, the column `ridx` columns before the last. */
  method EastStep(grid: array2<char>, row: nat, ghost orig: seq<char>, squareLoc: nat, idx: nat)
    returns (squareLoc': nat)
    requires grid.Length0 == grid.Length1 && row < grid.Length0 && idx < grid.Length1
    requires Kept(orig, Row(grid, row))
    requires EndProgress(orig, Row(grid, row), idx + 1) && StopBelow(Row(grid, row), squareLoc, idx + 1)
    modifies grid
    ensures Kept(orig, Row(grid, row))
    ensures EndProgress(orig, Row(grid, row), idx) && StopBelow(Row(grid, row), squareLoc', idx)
    ensures forall r, c :: 0 <= r < grid.Length0 && 0 <= c < grid.Length1 && r != row ==> grid[r, c] == old(grid[r, c])
  {
    ghost var cur := Row(grid, row);
    squareLoc' := squareLoc;
    match grid[row, idx] {
      case 'O' =>
        if idx < grid.Length0 {
          RollEast(grid, row, orig, squareLoc, idx);
        }
      case '#' =>
        EndRock(orig, cur, idx, squareLoc);
        squareLoc' := idx;
      case _ =>
        EndGround(orig, cur, idx, squareLoc);
    }
  }

  /** `tilt_east`: rolls every round rock of row `row` east; no other row changes. */
  method TiltEast(grid: array2<char>, row: nat)
    requires grid.Length0 == grid.Length1 && row < grid.Length0
    requires IsLine(Row(grid, row))
    modifies grid
    ensures RolledToEnd(old(Row(grid, row)), Row(grid, row))
    ensures forall r, c :: 0 <= r < grid.Length0 && 0 <= c < grid.Length1 && r != row ==> grid[r, c] == old(grid[r, c])
  {
    var ridx: nat := 0;
    var dim := grid.Length0;
    var squareLoc: nat := dim - 1;
    ghost var orig := Row(grid, row);
    EndBegin(orig);
    while ridx < dim
      invariant ridx <= dim
      invariant Kept(orig, Row(grid, row))
      invariant EndProgress(orig, Row(grid, row), dim - ridx) && StopBelow(Row(grid, row), squareLoc, dim - ridx)
      invariant forall r, c :: 0 <= r < grid.Length0 && 0 <= c < grid.Length1 && r != row ==> grid[r, c] == old(grid[r, c])
    {
      var idx := dim - 1 - ridx;
      squareLoc := EastStep(grid, row, orig, squareLoc, idx);
      ridx := ridx + 1;
    }
    EndEnd(orig, Row(grid, row));
  }

  // The whole platform

  /** The platform as a value: its rows, north to south. */
  ghost function Cells(grid: array2<char>): (rows: seq<seq<char>>)
    reads grid
    ensures |rows| == grid.Length0 && forall r :: 0 <= r < grid.Length0 ==> rows[r] == Row(grid, r)
  {
    seq(grid.Length0, r requires 0 <= r < grid.Length0 reads grid => Row(grid, r))
  }

  /** Every row is `width` cells long. */
  predicate Rectangular(rows: seq<seq<char>>, width: nat)
  {
    forall r :: 0 <= r < |rows| ==> |rows[r]| == width
  }

  /** `dim = grid.len()` also serves as the row length, so the platform is square. */
  predicate Square(rows: seq<seq<char>>)
  {
    Rectangular(rows, |rows|)
  }

  /** A square grid of platform cells. */
  predicate Platform(rows: seq<seq<char>>)
  {
    Square(rows) && forall r :: 0 <= r < |rows| ==> IsLine(rows[r])
  }

  /** Column `c` of a grid of rows. */
  function ColumnOf(rows: seq<seq<char>>, c: nat): (s: seq<char>)
    requires forall r :: 0 <= r < |rows| ==> c < |rows[r]|
    ensures |s| == |rows| && forall r :: 0 <= r < |rows| ==> s[r] == rows[r][c]
  {
    seq(|rows|, r requires 0 <= r < |rows| && c < |rows[r]| => rows[r][c])
  }

  lemma ColumnOfCells(grid: array2<char>, c: nat)
    requires c < grid.Length1
    ensures ColumnOf(Cells(grid), c) == Column(grid, c)
  {
  }

  lemma PlatformColumn(rows: seq<seq<char>>, c: nat)
    requires Platform(rows) && c < |rows|
    ensures IsLine(ColumnOf(rows, c))
  {
    forall r | 0 <= r < |rows| ensures IsCell(ColumnOf(rows, c)[r]) {
      assert IsCell(rows[r][c]);
    }
  }

  /** Every column of `after` is the column of `before` tilted north. */
  predicate NorthTilted(before: seq<seq<char>>, after: seq<seq<char>>)
  {
    Square(before) && Square(after) && |before| == |after| &&
    forall c :: 0 <= c < |before| ==> RolledToStart(ColumnOf(before, c), ColumnOf(after, c))
  }

  /** Every column of `after` is the column of `before` tilted south. */
  predicate SouthTilted(before: seq<seq<char>>, after: seq<seq<char>>)
  {
    Square(before) && Square(after) && |before| == |after| &&
    forall c :: 0 <= c < |before| ==> RolledToEnd(ColumnOf(before, c), ColumnOf(after, c))
  }

  /** Every row of `after` is the row of `before` tilted west. */
  predicate WestTilted(before: seq<seq<char>>, after: seq<seq<char>>)
  {
    |before| == |after| && forall r :: 0 <= r < |before| ==> RolledToStart(before[r], after[r])
  }

  /** Every row of `after` is the row of `before` tilted east. */
  predicate EastTilted(before: seq<seq<char>>, after: seq<seq<char>>)
  {
    |before| == |after| && forall r :: 0 <= r < |before| ==> RolledToEnd(before[r], after[r])
  }

  /** The cube rocks of the two grids are in the same cells. */
  predicate SameRockCells(a: seq<seq<char>>, b: seq<seq<char>>)
  {
    |a| == |b| && forall r :: 0 <= r < |a| ==> SameRocks(a[r], b[r])
  }

  /** The round rocks in the first `n` rows. */
  function RowRounds(rows: seq<seq<char>>, n: nat): nat
    requires n <= |rows|
  {
    if n == 0 then 0 else RowRounds(rows, n - 1) + Rounds(rows[n - 1])
  }

  /** The round rocks in the first `w` columns. */
  function ColumnRounds(rows: seq<seq<char>>, w: nat): nat
    requires forall r :: 0 <= r < |rows| ==> w <= |rows[r]|
  {
    if w == 0 then 0 else ColumnRounds(rows, w - 1) + Rounds(ColumnOf(rows, w - 1))
  }

  /** The round rocks on the platform. */
  function TotalRounds(rows: seq<seq<char>>): nat
  {
    RowRounds(rows, |rows|)
  }

  /** Adding a row adds its round rocks to the count over the first `w` columns. */
  lemma {:induction false} ColumnRoundsAddRow(top: seq<seq<char>>, last: seq<char>, w: nat, width: nat)
    requires Rectangular(top, width) && |last| == width && w <= width
    ensures Rectangular(top + [last], width)
    ensures ColumnRounds(top + [last], w) == ColumnRounds(top, w) + Rounds(last[..w])
  {
    var rows := top + [last];
    assert forall r :: 0 <= r < |rows| ==> |rows[r]| == width by {
      forall r | 0 <= r < |rows| ensures |rows[r]| == width {
        if r < |top| {
          assert rows[r] == top[r];
        }
      }
    }
    if w > 0 {
      ColumnRoundsAddRow(top, last, w - 1, width);
      ColumnOfLastRow(top, last, w - 1);
      RoundsSnoc(ColumnOf(top, w - 1), last[w - 1]);
      RoundsNext(last, w - 1);
    } else {
      assert last[..w] == [];
    }
  }

  /** The column of a platform is the column of its rows but the last, followed by the last row's cell. */
  lemma ColumnOfLastRow(top: seq<seq<char>>, last: seq<char>, c: nat)
    requires (forall r :: 0 <= r < |top| ==> c < |top[r]|) && c < |last|
    ensures ColumnOf(top + [last], c) == ColumnOf(top, c) + [last[c]]
  {
  }

  /** A cell added at the end adds one round rock exactly when it is one. */
  lemma RoundsSnoc(s: seq<char>, c: char)
    ensures Rounds(s + [c]) == Rounds(s) + (if c == 'O' then 1 else 0)
  {
  }

  /** Counting round rocks row by row or column by column gives the same total. */
  lemma {:induction false} RowsColumnsExchange(rows: seq<seq<char>>, width: nat)
    requires Rectangular(rows, width)
    ensures RowRounds(rows, |rows|) == ColumnRounds(rows, width)
    decreases |rows|
  {
    if |rows| > 0 {
      var top := rows[..|rows| - 1];
      RowRoundsPrefix(rows, |rows| - 1, |rows| - 1);
      RowsColumnsExchange(top, width);
      assert rows == top + [rows[|rows| - 1]];
      ColumnRoundsAddRow(top, rows[|rows| - 1], width, width);
      assert rows[|rows| - 1][..width] == rows[|rows| - 1];
      assert RowRounds(rows, |rows|) == RowRounds(top, |top|) + Rounds(rows[|rows| - 1]);
    } else {
      NoRowsNoRounds(rows, width);
    }
  }

  lemma {:induction false} NoRowsNoRounds(rows: seq<seq<char>>, w: nat)
    requires |rows| == 0
    ensures ColumnRounds(rows, w) == 0
  {
    if w > 0 {
      NoRowsNoRounds(rows, w - 1);
      assert ColumnOf(rows, w - 1) == [];
    }
  }

  lemma {:induction false} RowRoundsPrefix(rows: seq<seq<char>>, m: nat, n: nat)
    requires n <= m <= |rows|
    ensures RowRounds(rows[..m], n) == RowRounds(rows, n)
  {
    if n > 0 {
      RowRoundsPrefix(rows, m, n - 1);
    }
  }

  /** The count of round rocks over the first `n` rows is the same in two grids whose rows have equal counts. */
  lemma {:induction false} RowRoundsAgree(a: seq<seq<char>>, b: seq<seq<char>>, n: nat)
    requires n <= |a| == |b| && forall r :: 0 <= r < |a| ==> Rounds(a[r]) == Rounds(b[r])
    ensures RowRounds(a, n) == RowRounds(b, n)
  {
    if n > 0 {
      RowRoundsAgree(a, b, n - 1);
    }
  }

  lemma {:induction false} ColumnRoundsAgree(a: seq<seq<char>>, b: seq<seq<char>>, w: nat)
    requires Square(a) && Square(b) && |a| == |b| && w <= |a|
    requires forall c :: 0 <= c < |a| ==> Rounds(ColumnOf(a, c)) == Rounds(ColumnOf(b, c))
    ensures ColumnRounds(a, w) == ColumnRounds(b, w)
  {
    if w > 0 {
      ColumnRoundsAgree(a, b, w - 1);
    }
  }

  /** A north or south tilt of every column keeps the platform, its cube rocks and its round rock count. */
  lemma ColumnTiltKeeps(a: seq<seq<char>>, b: seq<seq<char>>)
    requires Platform(a) && (NorthTilted(a, b) || SouthTilted(a, b))
    ensures Platform(b) && SameRockCells(a, b) && TotalRounds(a) == TotalRounds(b)
  {
    forall c | 0 <= c < |a|
      ensures multiset(ColumnOf(a, c)) == multiset(ColumnOf(b, c)) && SameRocks(ColumnOf(a, c), ColumnOf(b, c))
    {
    }
    forall r | 0 <= r < |b| ensures IsLine(b[r]) && SameRocks(a[r], b[r]) {
      forall c | 0 <= c < |b| ensures IsCell(b[r][c]) && (a[r][c] == '#' <==> b[r][c] == '#') {
        PlatformColumn(a, c);
        LineKept(ColumnOf(a, c), ColumnOf(b, c));
        assert ColumnOf(b, c)[r] == b[r][c];
      }
    }
    ColumnRoundsAgree(a, b, |a|);
    RowsColumnsExchange(a, |a|);
    RowsColumnsExchange(b, |b|);
  }

  /** A west or east tilt of every row keeps the platform, its cube rocks and its round rock count. */
  lemma RowTiltKeeps(a: seq<seq<char>>, b: seq<seq<char>>)
    requires Platform(a) && (WestTilted(a, b) || EastTilted(a, b))
    ensures Platform(b) && SameRockCells(a, b) && TotalRounds(a) == TotalRounds(b)
  {
    forall r | 0 <= r < |b| ensures IsLine(b[r]) && Rounds(a[r]) == Rounds(b[r]) {
      LineKept(a[r], b[r]);
    }
    RowRoundsAgree(a, b, |a|);
  }

  lemma SameRockCellsTrans(a: seq<seq<char>>, b: seq<seq<char>>, c: seq<seq<char>>)
    requires SameRockCells(a, b) && SameRockCells(b, c)
    ensures SameRockCells(a, c)
  {
  }

  /** The first loop of `cycle` (and part 1): tilts every column north. */
  method TiltAllNorth(grid: array2<char>)
    requires grid.Length0 == grid.Length1 && Platform(Cells(grid))
    modifies grid
    ensures NorthTilted(old(Cells(grid)), Cells(grid))
  {
    ghost var before := Cells(grid);
    var dim := grid.Length0;
    for i := 0 to dim
      invariant forall c :: 0 <= c < i ==> RolledToStart(ColumnOf(before, c), Column(grid, c))
      invariant forall r, c :: 0 <= r < dim && i <= c < dim ==> grid[r, c] == before[r][c]
    {
      assert Column(grid, i) == ColumnOf(before, i);
      PlatformColumn(before, i);
      label Tilting:
      TiltNorth(grid, i);
      forall c | 0 <= c < i ensures Column(grid, c) == old@Tilting(Column(grid, c)) {
      }
    }
    forall c | 0 <= c < dim ensures ColumnOf(Cells(grid), c) == Column(grid, c) {
      ColumnOfCells(grid, c);
    }
  }

  /** The third loop of `cycle`: tilts every column south. */
  method TiltAllSouth(grid: array2<char>)
    requires grid.Length0 == grid.Length1 && Platform(Cells(grid))
    modifies grid
    ensures SouthTilted(old(Cells(grid)), Cells(grid))
  {
    ghost var before := Cells(grid);
    var dim := grid.Length0;
    for i := 0 to dim
      invariant forall c :: 0 <= c < i ==> RolledToEnd(ColumnOf(before, c), Column(grid, c))
      invariant forall r, c :: 0 <= r < dim && i <= c < dim ==> grid[r, c] == before[r][c]
    {
      assert Column(grid, i) == ColumnOf(before, i);
      PlatformColumn(before, i);
      label Tilting:
      TiltSouth(grid, i);
      forall c | 0 <= c < i ensures Column(grid, c) == old@Tilting(Column(grid, c)) {
      }
    }
    forall c | 0 <= c < dim ensures ColumnOf(Cells(grid), c) == Column(grid, c) {
      ColumnOfCells(grid, c);
    }
  }

  /** The second loop of `cycle`: tilts every row west. */
  method TiltAllWest(grid: array2<char>)
    requires grid.Length0 == grid.Length1 && Platform(Cells(grid))
    modifies grid
    ensures WestTilted(old(Cells(grid)), Cells(grid))
  {
    ghost var before := Cells(grid);
    var dim := grid.Length0;
    for i := 0 to dim
      invariant forall r :: 0 <= r < i ==> RolledToStart(before[r], Row(grid, r))
      invariant forall r, c :: i <= r < dim && 0 <= c < dim ==> grid[r, c] == before[r][c]
    {
      assert Row(grid, i) == before[i];
      label Tilting:
      TiltWest(grid, i);
      forall r | 0 <= r < i ensures Row(grid, r) == old@Tilting(Row(grid, r)) {
      }
    }
  }

  /** The fourth loop of `cycle`: tilts every row east. */
  method TiltAllEast(grid: array2<char>)
    requires grid.Length0 == grid.Length1 && Platform(Cells(grid))
    modifies grid
    ensures EastTilted(old(Cells(grid)), Cells(grid))
  {
    ghost var before := Cells(grid);
    var dim := grid.Length0;
    for i := 0 to dim
      invariant forall r :: 0 <= r < i ==> RolledToEnd(before[r], Row(grid, r))
      invariant forall r, c :: i <= r < dim && 0 <= c < dim ==> grid[r, c] == before[r][c]
    {
      assert Row(grid, i) == before[i];
      label Tilting:
      TiltEast(grid, i);
      forall r | 0 <= r < i ensures Row(grid, r) == old@Tilting(Row(grid, r)) {
      }
    }
  }

  /**
   * `cycle`: one spin, north, west, south, east.  `north`, `west` and
   * `south` are the platform after each of the first three tilts.  The
   * cube rocks stay and no round rock is lost or gained.
   */
  method Cycle(grid: array2<char>) returns (ghost north: seq<seq<char>>, ghost west: seq<seq<char>>, ghost south: seq<seq<char>>)
    requires grid.Length0 == grid.Length1 && Platform(Cells(grid))
    modifies grid
    ensures NorthTilted(old(Cells(grid)), north) && WestTilted(north, west)
    ensures SouthTilted(west, south) && EastTilted(south, Cells(grid))
    ensures Platform(Cells(grid)) && SameRockCells(old(Cells(grid)), Cells(grid))
    ensures TotalRounds(Cells(grid)) == TotalRounds(old(Cells(grid)))
  {
    ghost var start := Cells(grid);
    TiltAllNorth(grid);
    north := Cells(grid);
    ColumnTiltKeeps(start, north);
    TiltAllWest(grid);
    west := Cells(grid);
    RowTiltKeeps(north, west);
    TiltAllSouth(grid);
    south := Cells(grid);
    ColumnTiltKeeps(west, south);
    TiltAllEast(grid);
    RowTiltKeeps(south, Cells(grid));
    SameRockCellsTrans(start, north, west);
    SameRockCellsTrans(start, west, south);
    SameRockCellsTrans(start, south, Cells(grid));
  }

  // The load on the north support beams

  /** The load of the round rocks among the first `n` cells of a column; the cell at `k` weighs `|s| - k`. */
  function LoadUpTo(s: seq<char>, n: nat): nat
    requires n <= |s|
  {
    if n == 0 then 0 else LoadUpTo(s, n - 1) + (if s[n - 1] == 'O' then |s| - (n - 1) else 0)
  }

  /** The load of one column. */
  function ColumnLoad(s: seq<char>): nat
  {
    LoadUpTo(s, |s|)
  }

  /** The load of the first `n` columns. */
  function LoadOf(rows: seq<seq<char>>, n: nat): nat
    requires Square(rows) && n <= |rows|
  {
    if n == 0 then 0 else LoadOf(rows, n - 1) + ColumnLoad(ColumnOf(rows, n - 1))
  }

  /** The load of the platform: every round rock weighs its distance from the south edge. */
  function Load(rows: seq<seq<char>>): nat
    requires Square(rows)
  {
    LoadOf(rows, |rows|)
  }

  /** Each round rock weighs at least 1 and at most the column length. */
  lemma {:induction false} LoadUpToBounds(s: seq<char>, n: nat)
    requires n <= |s|
    ensures Rounds(s[..n]) <= LoadUpTo(s, n) <= |s| * Rounds(s[..n])
  {
    if n > 0 {
      LoadUpToBounds(s, n - 1);
      RoundsNext(s, n - 1);
      if s[n - 1] == 'O' {
        BoundsAdd(|s|, Rounds(s[..n - 1]), LoadUpTo(s, n - 1), 1, |s| - (n - 1));
      }
    }
  }

  /** A column's load lies between its number of round rocks and that number times its length; it is 0 exactly when it has none. */
  lemma ColumnLoadBounds(s: seq<char>)
    ensures Rounds(s) <= ColumnLoad(s) <= |s| * Rounds(s)
    ensures ColumnLoad(s) == 0 <==> Rounds(s) == 0
  {
    LoadUpToBounds(s, |s|);
    assert s[..|s|] == s;
  }

  /** The load of the platform lies between its number of round rocks and that number times `dim`. */
  lemma {:induction false} LoadOfBounds(rows: seq<seq<char>>, n: nat)
    requires Square(rows) && n <= |rows|
    ensures ColumnRounds(rows, n) <= LoadOf(rows, n) <= |rows| * ColumnRounds(rows, n)
  {
    if n > 0 {
      LoadOfBounds(rows, n - 1);
      var column := ColumnOf(rows, n - 1);
      ColumnLoadBounds(column);
      BoundsAdd(|rows|, ColumnRounds(rows, n - 1), LoadOf(rows, n - 1), Rounds(column), ColumnLoad(column));
    }
  }

  lemma BoundsAdd(d: nat, a: nat, x: nat, b: nat, y: nat)
    requires a <= x <= d * a && b <= y <= d * b
    ensures a + b <= x + y <= d * (a + b)
  {
  }

  lemma LoadBounds(rows: seq<seq<char>>)
    requires Square(rows)
    ensures TotalRounds(rows) <= Load(rows) <= |rows| * TotalRounds(rows)
  {
    LoadOfBounds(rows, |rows|);
    RowsColumnsExchange(rows, |rows|);
  }

  /** `calculate_load`: sums `dim - idx` over the round rocks, column by column. */
  method CalculateLoad(grid: array2<char>) returns (result: nat)
    requires grid.Length0 == grid.Length1
    ensures result == Load(Cells(grid))
  {
    ghost var rows := Cells(grid);
    result := 0;
    var dim := grid.Length0;
    for i := 0 to dim
      invariant result == LoadOf(rows, i)
    {
      ColumnOfCells(grid, i);
      ghost var column := Column(grid, i);
      for idx := 0 to dim
        invariant result == LoadOf(rows, i) + LoadUpTo(column, idx)
      {
        if grid[idx, i] == 'O' {
          result := result + (dim - idx);
        }
      }
    }
  }

  /** Part 1: tilts the platform north and returns the load. */
  method NorthLoad(grid: array2<char>) returns (load: nat)
    requires grid.Length0 == grid.Length1 && Platform(Cells(grid))
    modifies grid
    ensures NorthTilted(old(Cells(grid)), Cells(grid)) && load == Load(Cells(grid))
  {
    TiltAllNorth(grid);
    load := CalculateLoad(grid);
  }
}
