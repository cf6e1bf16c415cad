# Advent of Code 2023 solvers, modelled in Dafny

This project models the puzzle-solving functions of three people's Advent of Code 2023
solutions in Rust: lethalgem, mattdamachine and mohammad. For each solver it models the
small integer and string algorithms that sit between reading the puzzle input and printing
the answer. Those are the parsers of the puzzle lines, the scanners, the counting and
sorting of hands, the HASH table of lenses, the difference tables and grid walks. It also
models the interval-rewriting engine that mohammad uses for day 5.

Each modelled source file has its own module, named after its author, day and part. The
examples are `MohammadDay05` for `mohammad/day05/src/main.rs` and `LethalgemDay15Part2` for
`lethalgem/day_15/part_2/src/main.rs`. Logic that several solvers share, or that is a
reference for them, lives in shared modules:

- `Text`: characters, digits, splitting, trimming, searching and decimal values.
- `BoatRace`: the day 6 race, the winning hold times and their window.
- `Counting` and `Sorting`: label tallies, hand shapes and stable sorting by a key (day 7).
- `Extrapolation`: the day 9 difference table and its forward and backward extrapolation.
- `Galaxies`: the day 11 galaxy positions and Manhattan distances.

The days and files modelled:

- lethalgem: Day_1 part 1; day_2, day_3, day_4, day_5 and day_6, parts 1 and 2; day_7,
  day_9 and day_11, part 2; day_15, parts 1 and 2; day_16, part 1.
- mattdamachine: Day05, Day06, Day07, Day08, Day09, Day10 and Day11, part 1 of each.
- mohammad: day01, day05, day07 (both parts), day08 part 2, day10, day12, day13, day14,
  day15, day16 and day21.

Where a loop in the source updates variables, the model is a method with a loop and its
invariants, proved against a function that specifies what the loop computes. Where the
source updates an object or a grid in place, the model is a class or an array. A panic in
the source, such as an `unwrap` on a missing value, is modelled as an error result where
the source has an error path, and as a precondition otherwise. Each precondition of this
kind is listed below.

## Model

| member | source | states |
|---|---|---|
| MohammadDay08.Gcd | mohammad/day08/part_2/src/main.rs:23-28 | the gcd is 0 exactly when both arguments are 0, and is at most each positive argument |
| MohammadDay08.Lcm | mohammad/day08/part_2/src/main.rs:14-21 | the lcm is missing (the division by a zero gcd panics) only when some number is 0 |
| MohammadDay08.GcdSteps | mohammad/day08/part_2/src/main.rs:23-28 | gcd(a, 0) is a, and otherwise gcd(a, b) is gcd(b, a mod b) with a mod b below b, so the recursion ends |
| MohammadDay08.Quotient | mohammad/day08/part_2/src/main.rs:27 | a is the quotient times b plus the remainder |
| MohammadDay08.GcdDivides | mohammad/day08/part_2/src/main.rs:23-28 | the gcd divides both arguments |
| MohammadDay08.GcdGreatest | mohammad/day08/part_2/src/main.rs:23-28 | every common divisor divides the gcd |
| MohammadDay08.LcmSingle | mohammad/day08/part_2/src/main.rs:15-17 | the lcm of a single number is that number |
| MohammadDay08.PairMultiple | mohammad/day08/part_2/src/main.rs:18-20 | for positive a and b, a*b/gcd(a, b) is positive and a multiple of both |
| MohammadDay08.DividesTrans | mohammad/day08/part_2/src/main.rs:18-20 | divisibility is transitive |
| MohammadDay08.LcmIsCommonMultiple | mohammad/day08/part_2/src/main.rs:14-21 | for positive inputs the lcm exists, is positive and is a multiple of every element |
| MohammadDay08.LcmOfZeros | mohammad/day08/part_2/src/main.rs:18-20 | two zeros make the gcd 0, and the division panics |
| MohammadDay08.Examples | mohammad/day08/part_2/src/main.rs:14-28 | gcd(12, 18) is 6 and the lcm of 2, 3, 4 is 12 |
| MattdamachineDay08.ParseNodeLineSome | mattdamachine/Day08/part_01/src/main.rs:53-61 | a line parses exactly when some comma has exactly one '=' before it; otherwise an index panics |
| MattdamachineDay08.FieldsSome | mattdamachine/Day08/part_01/src/main.rs:53-57 | the split pieces exist exactly when some comma has exactly one '=' before it |
| MattdamachineDay08.FieldsPiece | mattdamachine/Day08/part_01/src/main.rs:53-57 | the pieces exist exactly when there is an '=' and a ',' in the text between the first and second '=' |
| MattdamachineDay08.PieceComma | mattdamachine/Day08/part_01/src/main.rs:57 | a comma in the second piece is a comma with exactly one '=' before it |
| MattdamachineDay08.ParseRoundTrip | mattdamachine/Day08/part_01/src/main.rs:52-63 | a line written as "X = (L, R)" from plain names parses back to X with (L, R) |
| MattdamachineDay08.FieldsOfLine | mattdamachine/Day08/part_01/src/main.rs:53-57 | the raw pieces of "X = (L, R)" are "X ", " (L" and " R)" |
| MattdamachineDay08.CleanNode | mattdamachine/Day08/part_01/src/main.rs:55 | trimming "X " gives X |
| MattdamachineDay08.CleanLeft | mattdamachine/Day08/part_01/src/main.rs:59 | trimming " (L" and its '(' gives L |
| MattdamachineDay08.CleanRight | mattdamachine/Day08/part_01/src/main.rs:61 | trimming " R)" and its ')' gives R |
| MattdamachineDay08.ExampleLine | mattdamachine/Day08/part_01/src/main.rs:52-63 | "AAA = (BBB, CCC)" parses to AAA with (BBB, CCC) |
| MattdamachineDay08.Parsed | mattdamachine/Day08/part_01/src/main.rs:52-64 | one parse per line |
| MattdamachineDay08.NetworkOfSome | mattdamachine/Day08/part_01/src/main.rs:47-67 | the map is built exactly when every line parses |
| MattdamachineDay08.NetworkLastWins | mattdamachine/Day08/part_01/src/main.rs:63 | a node maps to the neighbours of its last line |
| MattdamachineDay08.NetworkKeys | mattdamachine/Day08/part_01/src/main.rs:63 | the map's keys are exactly the nodes of the lines |
| MattdamachineDay08.NetworkPrefixFails | mattdamachine/Day08/part_01/src/main.rs:52-64 | a panic on a prefix of the lines is a panic on all of them |
| MattdamachineDay08.NetworkStep | mattdamachine/Day08/part_01/src/main.rs:63 | inserting one more parsed line updates that node's entry |
| MattdamachineDay08.NetworkFails | mattdamachine/Day08/part_01/src/main.rs:53-61 | a line that does not parse makes the whole run panic |
| MattdamachineDay08.PopulateNetworkMap | mattdamachine/Day08/part_01/src/main.rs:47-67 | the loop builds the map of all lines inserted in order, or panics on a bad line |
| MattdamachineDay08.FirstStopFrom | mattdamachine/Day08/part_01/src/main.rs:79 | the first step at which the walk reaches ZZZ or a missing node, searched from a step before which it had not |
| MattdamachineDay08.CalculateSteps | mattdamachine/Day08/part_01/src/main.rs:69-96 | from AAA, with instruction k mod len read at step k and anything but 'L' going right, the result is the number of steps to the first ZZZ, at least 1, or the lookup error naming the first node missing from the map |
| MattdamachineDay08.StaysStopped | mattdamachine/Day08/part_01/src/main.rs:79-93 | once the walk stops it stays where it stopped |
| MattdamachineDay08.FirstStopUnique | mattdamachine/Day08/part_01/src/main.rs:69-96 | the answer does not depend on which known stopping step is used |
| MattdamachineDay08.ModPeriod | mattdamachine/Day08/part_01/src/main.rs:83 | adding whole rounds of instructions reads the same instruction |
| MattdamachineDay08.RepeatNeverStops | mattdamachine/Day08/part_01/src/main.rs:79-93 | if the walk returns to a node at the same instruction position without stopping, it never stops, so the loop never ends |
| MattdamachineDay08.RepeatShift | mattdamachine/Day08/part_01/src/main.rs:79-93 | after such a repeat the walk runs a whole period behind itself |
| MattdamachineDay08.ExampleRl | mattdamachine/Day08/part_01/src/main.rs:69-96 | with instructions RL the first example takes 2 steps |
| MattdamachineDay08.ExampleLlr | mattdamachine/Day08/part_01/src/main.rs:69-96 | with instructions LLR the second example takes 6 steps |
| MattdamachineDay08.CommaWitness | mattdamachine/Day08/part_01/src/main.rs:53-57 | a comma in the second `=`-piece of a line is a comma with exactly one `=` before it, the lines that the indexing at 53 and 57 accepts |
| MattdamachineDay08.CommaInPiece | mattdamachine/Day08/part_01/src/main.rs:53-57 | conversely, such a comma lies in the piece after the first `=` |
| MattdamachineDay10.FindStartingIndex | mattdamachine/Day10/part_01/src/main.rs:49-57 | the result is the first 'S' in reading order, and the error is returned exactly when no line holds an 'S' |
| MattdamachineDay10.NeverEntersStart | mattdamachine/Day10/part_01/src/main.rs:143-170 | a neighbour the walk may enter is a single pipe character other than "S", so the loop's "S" test never ends it |
| MattdamachineDay10.AllCells | mattdamachine/Day10/part_01/src/main.rs:59-66 | the cells of the grid are exactly the in-bounds positions |
| MattdamachineDay10.Tile | mattdamachine/Day10/part_01/src/main.rs:70 | a cell's tile is a one-character string |
| MattdamachineDay10.Next | mattdamachine/Day10/part_01/src/main.rs:94-136 | the cell chosen is on the grid and not yet visited |
| MattdamachineDay10.Path | mattdamachine/Day10/part_01/src/main.rs:69-137 | the path is non-empty and starts at the given cell |
| MattdamachineDay10.NextConnects | mattdamachine/Day10/part_01/src/main.rs:94-136 | the chosen neighbour is joined to the current pipe in that direction |
| MattdamachineDay10.PathStep | mattdamachine/Day10/part_01/src/main.rs:94-136 | one step visits one more cell, and the rest of the path goes on from it |
| MattdamachineDay10.PathAvoids | mattdamachine/Day10/part_01/src/main.rs:97-132 | the path stays on the grid and never enters a cell visited before it began |
| MattdamachineDay10.PathDistinct | mattdamachine/Day10/part_01/src/main.rs:97-132 | the path never visits a cell twice |
| MattdamachineDay10.PathConnects | mattdamachine/Day10/part_01/src/main.rs:94-132 | each step of the path joins two connected pipes |
| MattdamachineDay10.PathEnds | mattdamachine/Day10/part_01/src/main.rs:133-136 | the path ends where no direction is open any more |
| MattdamachineDay10.PathIsWalk | mattdamachine/Day10/part_01/src/main.rs:69-137 | the path is a walk of connected pipes without repeats that ends at a dead end |
| MattdamachineDay10.WalkStep | mattdamachine/Day10/part_01/src/main.rs:94-136 | the loop's cells so far plus the rest of the path is the whole path |
| MattdamachineDay10.WalkEnd | mattdamachine/Day10/part_01/src/main.rs:133-139 | at the dead end the number of steps taken is the path's length less one |
| MattdamachineDay10.ChooseNext | mattdamachine/Day10/part_01/src/main.rs:70-136 | the checks north, east, south, west in that order pick the next cell, whose tile is never "S" |
| MattdamachineDay10.TraverseThePipes | mattdamachine/Day10/part_01/src/main.rs:59-140 | the step count is the length of the walk from the start, less one |
| MattdamachineDay10.Run | mattdamachine/Day10/part_01/src/main.rs:33-47 | an error exactly when there is no 'S'; otherwise the step count of the walk from an 'S' |
| MohammadDay10.Connected | mohammad/day10/src/main.rs:20-64 | at most four neighbours are returned |
| MohammadDay10.LinkToMeans | mohammad/day10/src/main.rs:26-61 | a side yields an entry exactly when both pipes open onto each other there, and it is tagged as finishing exactly when the neighbour is 'S' |
| MohammadDay10.ConnectedSides | mohammad/day10/src/main.rs:20-64 | the neighbours come in the order east, west, south, north |
| MohammadDay10.LinkToCells | mohammad/day10/src/main.rs:26-61 | the cell a side yields is the linked neighbour on that side |
| MohammadDay10.ConnectedExactly | mohammad/day10/src/main.rs:20-64 | the cells returned are exactly the linked neighbours on the four sides |
| MohammadDay10.LinkedSymmetric | mohammad/day10/src/main.rs:20-64 | if a cell links to its neighbour, the neighbour links back to it |
| MohammadDay10.GroundLinksNothing | mohammad/day10/src/main.rs:20-64 | a cell that is not a pipe or 'S' has no neighbours |
| Galaxies.DistanceMetric | mattdamachine/Day11/part_01/src/main.rs:36-38 | the Manhattan distance is symmetric, zero exactly between equal cells, and obeys the triangle inequality |
| Galaxies.RowHashes | mattdamachine/Day11/part_01/src/main.rs:50-54 | the cells found in a row are '#' cells of that row, left to right |
| Galaxies.GridHashes | mattdamachine/Day11/part_01/src/main.rs:49-55 | every cell found is a '#' cell of the grid |
| Galaxies.HashesExactly | mattdamachine/Day11/part_01/src/main.rs:45-58 | a cell is found exactly when it holds '#' |
| Galaxies.GridHashesRowMajor | mattdamachine/Day11/part_01/src/main.rs:45-58 | the cells come in row-major order |
| LethalgemDay11Part2.ShortestDistance | lethalgem/day_11/part_2/src/main.rs:34-38 | the distance of two locations is the Manhattan distance of their cells |
| LethalgemDay11Part2.SumAppend | lethalgem/day_11/part_2/src/main.rs:93-95 | the sum of distances is additive over the list of pairs |
| LethalgemDay11Part2.PairsBetweenAt | lethalgem/day_11/part_2/src/main.rs:100-108 | the k-th pair made for galaxy i is (i, i + 1 + k) |
| LethalgemDay11Part2.CreatePairs | lethalgem/day_11/part_2/src/main.rs:97-111 | the loops make every pair i < j once, in order, and never fail |
| LethalgemDay11Part2.AllPairsCount | lethalgem/day_11/part_2/src/main.rs:97-111 | n galaxies make n(n-1)/2 pairs |
| LethalgemDay11Part2.NineGalaxiesPairs | lethalgem/day_11/part_2/src/main.rs:189-196 | nine galaxies make 36 pairs |
| LethalgemDay11Part2.AllPairsComplete | lethalgem/day_11/part_2/src/main.rs:97-111 | every pair i < j is among the pairs |
| LethalgemDay11Part2.AllPairsSum | lethalgem/day_11/part_2/src/main.rs:93-111 | the sum over the pairs is the sum of distances over all unordered pairs of cells |
| LethalgemDay11Part2.FindGalaxies | lethalgem/day_11/part_2/src/main.rs:113-127 | the loops number the '#' cells from 1 in row-major order |
| LethalgemDay11Part2.FoundGalaxies | lethalgem/day_11/part_2/src/main.rs:113-127 | ids run 1, 2, ...; a location is found exactly when it holds '#'; the order is row-major |
| LethalgemDay11Part2.MissingBelow | lethalgem/day_11/part_2/src/main.rs:163-172 | the coordinates without galaxies below i number at most i |
| LethalgemDay11Part2.MissingBelowMonotone | lethalgem/day_11/part_2/src/main.rs:163-172 | more coordinates below means at least as many empty ones |
| LethalgemDay11Part2.BuildMap | lethalgem/day_11/part_2/src/main.rs:163-172 | the loop maps each coordinate holding a galaxy to itself plus 999999 per empty coordinate below it |
| LethalgemDay11Part2.StretchDiff | lethalgem/day_11/part_2/src/main.rs:163-172 | stretched coordinates differ by the original difference plus 999999 per empty coordinate in between |
| LethalgemDay11Part2.Dedup | lethalgem/day_11/part_2/src/main.rs:132-137 | `dedup` keeps the same members, the first and last element, and leaves no equal neighbours |
| LethalgemDay11Part2.ExpandErrPersists | lethalgem/day_11/part_2/src/main.rs:146-158 | once a galaxy's coordinate is missing from a map the expansion fails |
| LethalgemDay11Part2.ExpandFailsAt | lethalgem/day_11/part_2/src/main.rs:150-155 | a missing column gives MissingXMapCoord, else a missing row gives MissingYMapCoord |
| LethalgemDay11Part2.ExpandUniverse | lethalgem/day_11/part_2/src/main.rs:129-161 | the method computes the expansion through both maps |
| LethalgemDay11Part2.ExpandAllPresent | lethalgem/day_11/part_2/src/main.rs:146-158 | when every coordinate is mapped each galaxy is relocated, in order |
| LethalgemDay11Part2.ColsMapEntry | lethalgem/day_11/part_2/src/main.rs:134-143 | every galaxy's column is in the sorted, deduplicated column map |
| LethalgemDay11Part2.RowsMapEntry | lethalgem/day_11/part_2/src/main.rs:130-140 | with rows in non-decreasing order every galaxy's row is in the row map |
| LethalgemDay11Part2.ExpandUniverseOk | lethalgem/day_11/part_2/src/main.rs:129-161 | galaxies in row order expand without error to their stretched locations |
| LethalgemDay11Part2.ExpandRowsOutOfOrder | lethalgem/day_11/part_2/src/main.rs:130-132 | rows out of order (never produced by `find_galaxies`) lose a row key and give MissingYMapCoord |
| LethalgemDay11Part2.ExpandedDistance | lethalgem/day_11/part_2/src/main.rs:34-38 | after expansion a pair's distance grows by 999999 per empty row and column between them |
| LethalgemDay11Part2.RunSucceeds | lethalgem/day_11/part_2/src/main.rs:65-85 | on any grid the expansion succeeds and the answer is the pair-distance sum of the stretched galaxies |
| MattdamachineDay11.InsertAt | mattdamachine/Day11/part_01/src/main.rs:75-101 | `insert` puts x at position p and shifts the rest right |
| MattdamachineDay11.InsertedAll | mattdamachine/Day11/part_01/src/main.rs:74-76 | inserting at index + offset for each selected index in turn places one filler before each selected element |
| MattdamachineDay11.DoubledKeeps | mattdamachine/Day11/part_01/src/main.rs:74-76 | the insertions keep every other element's count |
| MattdamachineDay11.DoubledBefore | mattdamachine/Day11/part_01/src/main.rs:74-76 | a filler is placed right before each selected element |
| MattdamachineDay11.EmptyRowsBelow | mattdamachine/Day11/part_01/src/main.rs:64-69 | the empty rows are exactly the rows without '#', in increasing order |
| MattdamachineDay11.EmptyColumnsBelow | mattdamachine/Day11/part_01/src/main.rs:82-96 | the empty columns are exactly the columns with no '#' in any row, in increasing order |
| MattdamachineDay11.ClearAboveMeans | mattdamachine/Day11/part_01/src/main.rs:85-90 | the inner scan stops at the first '#' in the column |
| MattdamachineDay11.ColumnStep | mattdamachine/Day11/part_01/src/main.rs:99-103 | inserting into one more line advances the column insertion by one line |
| MattdamachineDay11.RowsExpandedWide | mattdamachine/Day11/part_01/src/main.rs:74-76 | the inserted rows are as wide as the first row |
| MattdamachineDay11.ColumnsKeepGalaxies | mattdamachine/Day11/part_01/src/main.rs:99-103 | column insertion keeps each row's galaxies |
| MattdamachineDay11.ExpandUniverse | mattdamachine/Day11/part_01/src/main.rs:60-106 | the method computes the doubling of empty rows and then of empty columns |
| MattdamachineDay11.InsertEmptyRows | mattdamachine/Day11/part_01/src/main.rs:62-76 | the row loop doubles every empty row |
| MattdamachineDay11.FindEmptyRows | mattdamachine/Day11/part_01/src/main.rs:64-69 | the loop lists the empty rows |
| MattdamachineDay11.FindEmptyColumns | mattdamachine/Day11/part_01/src/main.rs:79-96 | the loop lists the empty columns |
| MattdamachineDay11.InsertColumns | mattdamachine/Day11/part_01/src/main.rs:99-103 | each line gets a '.' before each empty column |
| MattdamachineDay11.LocateGalaxyIndices | mattdamachine/Day11/part_01/src/main.rs:45-58 | the loops list the '#' cells in row-major order |
| MattdamachineDay11.CalculateDistances | mattdamachine/Day11/part_01/src/main.rs:29-43 | the loops sum the Manhattan distance over every unordered pair; 0 with fewer than two galaxies |
| Galaxies.RowHashesComplete | mattdamachine/Day11/part_01/src/main.rs:45-58 | every `#` before column n of a row is found at its (row, column) |
| Galaxies.GridHashesComplete | mattdamachine/Day11/part_01/src/main.rs:45-58 | every `#` in the first n rows is found |
| Galaxies.HashesStep | mattdamachine/Day11/part_01/src/main.rs:49-55 | reading one more cell adds its position exactly when it is a `#` |
| LethalgemDay11Part2.PairsBetween | lethalgem/day_11/part_2/src/main.rs:100-108 | galaxy i is paired with each of the j - i - 1 galaxies after it |
| LethalgemDay11Part2.PairsUpToCount | lethalgem/day_11/part_2/src/main.rs:97-111 | the pairs of the first i galaxies number i(2n - i - 1)/2 |
| LethalgemDay11Part2.PairsUpToComplete | lethalgem/day_11/part_2/src/main.rs:97-111 | every pair (i, j) with i < j and i among the first n galaxies is created |
| LethalgemDay11Part2.PairsBetweenSum | lethalgem/day_11/part_2/src/main.rs:93-108 | the distances of galaxy i's pairs sum to the shared row sum over its cells |
| LethalgemDay11Part2.PairsUpToSum | lethalgem/day_11/part_2/src/main.rs:93-111 | the distances of the pairs created so far sum to the shared partial pair sum |
| LethalgemDay11Part2.Cells | lethalgem/day_11/part_2/src/main.rs:113-127 | one (row, column) cell per galaxy, in order |
| LethalgemDay11Part2.Numbered | lethalgem/day_11/part_2/src/main.rs:113-127 | the galaxies numbered from 1 in the order found, each at its cell |
| LethalgemDay11Part2.NumberedSnoc | lethalgem/day_11/part_2/src/main.rs:113-127 | a newly found galaxy takes the next number |
| LethalgemDay11Part2.FoundStep | lethalgem/day_11/part_2/src/main.rs:116-124 | reading one more cell adds a numbered galaxy exactly when it is a `#` |
| LethalgemDay11Part2.MissingBelowSameMembers | lethalgem/day_11/part_2/src/main.rs:163-172 | the count of empty rows or columns below a line depends only on which lines hold galaxies, not on order or repeats |
| LethalgemDay11Part2.ExpandStep | lethalgem/day_11/part_2/src/main.rs:146-158 | expanding one more galaxy found in both maps appends its relocated position |
| LethalgemDay11Part2.Stretched | lethalgem/day_11/part_2/src/main.rs:146-158 | one expanded galaxy per galaxy |
| LethalgemDay11Part2.SortedLastIsMax | lethalgem/day_11/part_2/src/main.rs:134-137 | the last of the sorted columns is the largest, so `build_map` reaches every column that holds a galaxy |
| MattdamachineDay11.InsertedFirst | mattdamachine/Day11/part_01/src/main.rs:74-76 | the grid after the first i blank rows are inserted has i more rows |
| MattdamachineDay11.InsertedSoFar | mattdamachine/Day11/part_01/src/main.rs:74-76 | after i insertions, every empty row before the i-th is doubled and the rest is unchanged |
| MattdamachineDay11.InsertedStep | mattdamachine/Day11/part_01/src/main.rs:75 | inserting at `row + i` places the copy directly after the i-th empty row |
| MattdamachineDay11.DoubledUpToNext | mattdamachine/Day11/part_01/src/main.rs:74-76 | between two empty rows nothing is doubled |
| MattdamachineDay11.Dots | mattdamachine/Day11/part_01/src/main.rs:75 | the inserted row has the grid's width and no galaxy |
| MattdamachineDay11.ClearAboveStops | mattdamachine/Day11/part_01/src/main.rs:85-90 | a `#` in any line makes the column not empty |
| MattdamachineDay11.EveryLineInserted | mattdamachine/Day11/part_01/src/main.rs:99-103 | the grid after the first i columns are inserted in every line |
| MattdamachineDay11.PartlyInsertedEnds | mattdamachine/Day11/part_01/src/main.rs:100-102 | the inner loop over lines goes from i inserted columns to i + 1 |
| MattdamachineDay11.ColumnsExpanded | mattdamachine/Day11/part_01/src/main.rs:99-103 | column expansion keeps the number of lines |
| LethalgemDay15Part1.Hash | lethalgem/day_15/part_1/src/main.rs:24-32 | the HASH of any string is a byte, below 256 |
| LethalgemDay15Part1.HashEmpty | lethalgem/day_15/part_1/src/main.rs:24-32 | the empty string hashes to 0, the fold's starting value |
| LethalgemDay15Part1.HashSnoc | lethalgem/day_15/part_1/src/main.rs:27-30 | one more character adds its code, multiplies by 17 and keeps the remainder mod 256 |
| LethalgemDay15Part1.CalculateHash | lethalgem/day_15/part_1/src/main.rs:24-32 | the loop's running value is the HASH of the characters read so far, and the result is below 256 |
| LethalgemDay15Part1.StepNew | lethalgem/day_15/part_1/src/main.rs:18-22 | a step records the hash of its text, which is below 256 |
| LethalgemDay15Part1.ExtractSteps | lethalgem/day_15/part_1/src/main.rs:70-72 | one step per comma-separated piece, in order, and at least one |
| LethalgemDay15Part1.ExtractStepsCoversInput | lethalgem/day_15/part_1/src/main.rs:70-72 | the pieces joined by commas give back the input, so no character is lost |
| LethalgemDay15Part1.SumSteps | lethalgem/day_15/part_1/src/main.rs:66-68 | the sum is at least the first step's hash |
| LethalgemDay15Part1.HashStep | lethalgem/day_15/part_1/src/main.rs:27-30 | a known hash of a prefix extends by one character with the multiply-by-17 rule |
| LethalgemDay15Part1.ExampleHash | lethalgem/day_15/part_1/src/main.rs:84-105 | each of the eleven pieces of the puzzle example hashes to its published value |
| LethalgemDay15Part1.ExampleSum | lethalgem/day_15/part_1/src/main.rs:117-123 | the hashes of the example's steps sum to 1320 |
| LethalgemDay15Part1.HashOfH | lethalgem/day_15/part_1/src/main.rs:84-105 | "H" hashes to 200 |
| LethalgemDay15Part1.HashOfHA | lethalgem/day_15/part_1/src/main.rs:84-105 | "HA" hashes to 153 |
| LethalgemDay15Part1.HashOfHAS | lethalgem/day_15/part_1/src/main.rs:84-105 | "HAS" hashes to 172 |
| LethalgemDay15Part1.HashOfHASH | lethalgem/day_15/part_1/src/main.rs:84-105 | "HASH" hashes to 52 |
| LethalgemDay15Part1.HashOfRnSet1 | lethalgem/day_15/part_1/src/main.rs:84-105 | "rn=1" hashes to 30 |
| LethalgemDay15Part2.Label | lethalgem/day_15/part_2/src/main.rs:31-41 | the label is the longest prefix without '=' or '-', and the character after it is an operation |
| LethalgemDay15Part2.LabelUnique | lethalgem/day_15/part_2/src/main.rs:31-41 | any prefix with those properties is the label, so the label is determined by them |
| LethalgemDay15Part2.GetLabel | lethalgem/day_15/part_2/src/main.rs:31-41 | the character loop returns the label |
| LethalgemDay15Part2.FocalLength | lethalgem/day_15/part_2/src/main.rs:43-54 | a focal length is present exactly when the step ends in a digit, and it is a single digit |
| LethalgemDay15Part2.StepNew | lethalgem/day_15/part_2/src/main.rs:21-29 | the step's box is the HASH of its label, below 256 |
| LethalgemDay15Part2.StepNewReadsFormat | lethalgem/day_15/part_2/src/main.rs:21-29 | parsing a step written as label followed by '=' digit or '-' gives back that label, box and focal length |
| LethalgemDay15Part2.ExtractSteps | lethalgem/day_15/part_2/src/main.rs:166-171 | one step per comma-separated piece, in order |
| LethalgemDay15Part2.Position | lethalgem/day_15/part_2/src/main.rs:140-143 | the index found is the first lens with that label, or the length when there is none |
| LethalgemDay15Part2.ReplacedFacts | lethalgem/day_15/part_2/src/main.rs:135-153 | a lens with the same label is replaced where it stands, otherwise the new lens goes last; all other lenses stay in place and labels stay unique |
| LethalgemDay15Part2.RemovedFacts | lethalgem/day_15/part_2/src/main.rs:155-164 | the first lens with the label is taken out and the others keep their order; with unique labels none with that label remains |
| LethalgemDay15Part2.RemovedShape | lethalgem/day_15/part_2/src/main.rs:155-164 | the box shrinks by one exactly when the label was present and is unchanged otherwise |
| LethalgemDay15Part2.RemovedUnique | lethalgem/day_15/part_2/src/main.rs:155-164 | removing keeps labels unique and leaves no lens with the removed label |
| LethalgemDay15Part2.Boxes.constructor | lethalgem/day_15/part_2/src/main.rs:118 | the map of boxes starts empty |
| LethalgemDay15Part2.Boxes.Insert | lethalgem/day_15/part_2/src/main.rs:125-127 | a new box holding the step is inserted and the other boxes are unchanged |
| LethalgemDay15Part2.Boxes.ReplaceOrInsertLens | lethalgem/day_15/part_2/src/main.rs:135-153 | only the step's box changes, and it becomes the replaced-or-appended list |
| LethalgemDay15Part2.Boxes.RemoveLens | lethalgem/day_15/part_2/src/main.rs:155-164 | only the step's box changes, and it loses its lens with that label |
| LethalgemDay15Part2.SortLenses | lethalgem/day_15/part_2/src/main.rs:117-133 | the boxes after the loop are the arrangement obtained by applying every step in order |
| LethalgemDay15Part2.ApplyFrame | lethalgem/day_15/part_2/src/main.rs:117-133 | a step touches only its own box, a removal never creates a box, an insertion always leaves its box present |
| LethalgemDay15Part2.ApplyKeeps | lethalgem/day_15/part_2/src/main.rs:117-133 | each step keeps every box's labels unique and every lens in the box its label hashes to |
| LethalgemDay15Part2.ArrangementKept | lethalgem/day_15/part_2/src/main.rs:117-133 | after any sequence of steps labels are unique per box and each lens sits in the box of its label's hash |
| LethalgemDay15Part2.ArrangementBoxesAreHashes | lethalgem/day_15/part_2/src/main.rs:117-133 | only boxes numbered below 256 ever appear |
| LethalgemDay15Part2.AddBox | lethalgem/day_15/part_2/src/main.rs:108-112 | the inner loop adds (box+1)*(slot+1)*focal length for each lens of the box |
| LethalgemDay15Part2.CalcFocusingPower | lethalgem/day_15/part_2/src/main.rs:105-115 | visiting each box once, in the map's iteration order, gives the total focusing power over that order |
| LethalgemDay15Part2.PowerOverRemove | lethalgem/day_15/part_2/src/main.rs:105-115 | taking one box out of the visiting order removes exactly its power from the total |
| LethalgemDay15Part2.PowerOrderIndependent | lethalgem/day_15/part_2/src/main.rs:105-115 | two visiting orders with the same boxes give the same total |
| LethalgemDay15Part2.FocusingPowerWellDefined | lethalgem/day_15/part_2/src/main.rs:105-115 | the focusing power does not depend on the HashMap's iteration order |
| LethalgemDay15Part2.ExampleStepsAreExample | lethalgem/day_15/part_2/src/main.rs:212-222 | the example's eleven steps parse to the expected labels, boxes and focal lengths |
| LethalgemDay15Part2.ApplyAppends | lethalgem/day_15/part_2/src/main.rs:145-150 | a new label is appended at the end of its box |
| LethalgemDay15Part2.ApplyReplacesAt | lethalgem/day_15/part_2/src/main.rs:140-144 | an existing label is replaced at its own index |
| LethalgemDay15Part2.ApplyRemovesAt | lethalgem/day_15/part_2/src/main.rs:155-164 | a removal closes the gap at the lens's index |
| LethalgemDay15Part2.ExampleArrangement | lethalgem/day_15/part_2/src/main.rs:224-270 | the example ends with box 0 holding rn and cm, box 1 empty and box 3 holding ot, ab, pc |
| LethalgemDay15Part2.ExamplePower | lethalgem/day_15/part_2/src/main.rs:272-280 | the example's focusing power is 145 in every iteration order |
| MohammadDay15.Hash | mohammad/day15/src/main.rs:23-27 | the hash is below 256 |
| MohammadDay15.HashFromPrefix | mohammad/day15/src/main.rs:23-27 | folding from the hash of a prefix gives the hash of the whole string |
| MohammadDay15.HashAgrees | mohammad/day15/src/main.rs:23-27 | this HASH equals the other solver's HASH on every string |
| MohammadDay15.SumOfHashesAgrees | mohammad/day15/src/main.rs:15-18 | the outer fold equals the sum of the steps' hashes |
| MohammadDay15.Part1Agrees | mohammad/day15/src/main.rs:7-21 | part 1 gives the same answer as the other solver on every line |
| MohammadDay15.Position | mohammad/day15/src/main.rs:50 | the index found is the first lens with that label, or the length when there is none |
| MohammadDay15.Retain | mohammad/day15/src/main.rs:46 | no lens with the label remains and the box does not grow |
| MohammadDay15.RetainKeepsOrder | mohammad/day15/src/main.rs:46 | retain works piece by piece, so the kept lenses keep their order |
| MohammadDay15.RetainAbsent | mohammad/day15/src/main.rs:46 | a box without the label is unchanged |
| MohammadDay15.RetainKeepsOthers | mohammad/day15/src/main.rs:46 | every lens with another label is kept |
| MohammadDay15.RetainIsRemoveFirst | mohammad/day15/src/main.rs:44-46 | with unique labels, retain is the same as removing the first lens with the label |
| MohammadDay15.UpsertFacts | mohammad/day15/src/main.rs:50-54 | an existing label is replaced in place, a new one is pushed last, other lenses stay, labels stay unique |
| MohammadDay15.RetainUnique | mohammad/day15/src/main.rs:46 | retain keeps labels unique |
| MohammadDay15.ParseOp | mohammad/day15/src/main.rs:41-49 | a parsed label contains neither '-' nor '=' |
| MohammadDay15.Perform | mohammad/day15/src/main.rs:40-56 | one step keeps the table at 256 boxes |
| MohammadDay15.Table | mohammad/day15/src/main.rs:32-56 | the table built from the steps has 256 boxes |
| MohammadDay15.PerformKeeps | mohammad/day15/src/main.rs:40-56 | each step keeps labels unique per box and every lens in the box of its label's hash |
| MohammadDay15.TableKept | mohammad/day15/src/main.rs:32-56 | the final table has unique labels per box and every lens in the box of its label's hash |
| MohammadDay15.PushAddsItsPower | mohammad/day15/src/main.rs:58-65 | pushing a lens adds (box+1)*(new slot)*focal length to the box's power |
| MohammadDay15.TablePowerUpdate | mohammad/day15/src/main.rs:58-65 | replacing one box changes the table's power by exactly the difference of that box's power |
| MohammadDay15.Step | mohammad/day15/src/main.rs:40-56 | a step succeeds exactly when it parses, and then updates the array of boxes as the step prescribes; a failed parse leaves it unchanged |
| MohammadDay15.Part2 | mohammad/day15/src/main.rs:29-67 | the answer is the focusing power of the table built from all steps, or none when a step fails to parse |
| MohammadDay15.TableStaysFailed | mohammad/day15/src/main.rs:49 | once a step fails to parse, the whole run fails |
| LethalgemDay15Part1.ExampleHash0 | lethalgem/day_15/part_1/src/main.rs:107-115 | the first example step `rn=1` hashes to 30 |
| LethalgemDay15Part1.ExampleHash1 | lethalgem/day_15/part_1/src/main.rs:107-115 | the step `cm-` hashes to 253 |
| LethalgemDay15Part1.ExampleHash2 | lethalgem/day_15/part_1/src/main.rs:107-115 | the step `qp=3` hashes to 97 |
| LethalgemDay15Part1.ExampleHash3 | lethalgem/day_15/part_1/src/main.rs:107-115 | the step `cm=2` hashes to 47 |
| LethalgemDay15Part1.ExampleHash4 | lethalgem/day_15/part_1/src/main.rs:107-115 | the step `qp-` hashes to 14 |
| LethalgemDay15Part1.ExampleHash5 | lethalgem/day_15/part_1/src/main.rs:107-115 | the step `pc=4` hashes to 180 |
| LethalgemDay15Part1.ExampleHash6 | lethalgem/day_15/part_1/src/main.rs:107-115 | the step `ot=9` hashes to 9 |
| LethalgemDay15Part1.ExampleHash7 | lethalgem/day_15/part_1/src/main.rs:107-115 | the step `ab=5` hashes to 197 |
| LethalgemDay15Part1.ExampleHash8 | lethalgem/day_15/part_1/src/main.rs:107-115 | the step `pc-` hashes to 48 |
| LethalgemDay15Part1.ExampleHash9 | lethalgem/day_15/part_1/src/main.rs:107-115 | the step `pc=6` hashes to 214 |
| LethalgemDay15Part1.ExampleHash10 | lethalgem/day_15/part_1/src/main.rs:107-115 | the last example step `ot=7` hashes to 231 |
| LethalgemDay15Part1.Hash1 | lethalgem/day_15/part_1/src/main.rs:24-32 | the hash of one character is its code times 17, modulo 256 |
| LethalgemDay15Part1.Hash2 | lethalgem/day_15/part_1/src/main.rs:24-32 | the hash of two characters adds the second code to the first character's hash, times 17, modulo 256 |
| LethalgemDay15Part1.HashOfRn | lethalgem/day_15/part_1/src/main.rs:84-105 | the label `rn` hashes to 0, the box of the example's first lens |
| LethalgemDay15Part1.HashOfRnSet | lethalgem/day_15/part_1/src/main.rs:84-105 | `rn=` hashes to 13, the step towards the test's `rn=1` value 30 |
| LethalgemDay15Part2.ArrangementSnoc | lethalgem/day_15/part_2/src/main.rs:117-133 | the boxes after k + 1 steps are the boxes after k steps with step k applied |
| LethalgemDay15Part2.BoxPowerOfTwo | lethalgem/day_15/part_2/src/main.rs:105-115 | a box holding two lenses contributes the first lens's power at slot 1 plus the second's at slot 2 |
| LethalgemDay15Part2.BoxPowerOfThree | lethalgem/day_15/part_2/src/main.rs:105-115 | a box holding three lenses contributes their powers at slots 1, 2 and 3 |
| LethalgemDay15Part2.PowerOverThree | lethalgem/day_15/part_2/src/main.rs:105-115 | the focusing power over three boxes is the sum of their totals |
| LethalgemDay15Part2.ExampleAfter3 | lethalgem/day_15/part_2/src/main.rs:224-270 | after the example's first three steps box 0 holds `rn` and box 1 holds `qp` |
| LethalgemDay15Part2.ExampleAfter4 | lethalgem/day_15/part_2/src/main.rs:224-270 | after four steps box 0 holds `rn` then `cm`, box 1 holds `qp` |
| LethalgemDay15Part2.ExampleAfter5 | lethalgem/day_15/part_2/src/main.rs:224-270 | `qp-` empties box 1 |
| LethalgemDay15Part2.ExampleAfter6 | lethalgem/day_15/part_2/src/main.rs:224-270 | `pc=4` puts `pc` into box 3 |
| LethalgemDay15Part2.ExampleAfter7 | lethalgem/day_15/part_2/src/main.rs:224-270 | `ot=9` appends `ot` to box 3 |
| LethalgemDay15Part2.ExampleAfter8 | lethalgem/day_15/part_2/src/main.rs:224-270 | `ab=5` appends `ab` to box 3 |
| LethalgemDay15Part2.ExampleAfter9 | lethalgem/day_15/part_2/src/main.rs:224-270 | `pc-` removes `pc` from box 3, keeping `ot` before `ab` |
| LethalgemDay15Part2.ExampleAfter10 | lethalgem/day_15/part_2/src/main.rs:224-270 | `pc=6` appends a new `pc` at the back of box 3 |
| MohammadDay15.HashFrom | mohammad/day15/src/main.rs:23-27 | continuing the hash from any value below 256 stays below 256 |
| LethalgemDay16Part1.FindWallBounds | lethalgem/day_16/part_1/src/main.rs:210-221 | the bounds are the last column of the first line and the last line's index; an empty input or empty first line underflows, and the missing-line error can never be returned |
| LethalgemDay16Part1.AllEncountersExactly | lethalgem/day_16/part_1/src/main.rs:223-248 | a cell is an encounter exactly when it holds one of the four mirror or splitter characters, and its kind matches the character |
| LethalgemDay16Part1.BeforeAt | lethalgem/day_16/part_1/src/main.rs:223-248 | after reading up to a position, the map holds exactly the mirrors and splitters of the cells read so far, each under its own position with its own type |
| LethalgemDay16Part1.LocateAllEncounters | lethalgem/day_16/part_1/src/main.rs:223-248 | the nested loops build exactly the map of all encounters of the input's lines |
| LethalgemDay16Part1.MovedOneCell | lethalgem/day_16/part_1/src/main.rs:161-208 | a move keeps the direction and either steps exactly one cell inside the walls or stops the beam in place at the wall |
| LethalgemDay16Part1.MirrorTurns | lethalgem/day_16/part_1/src/main.rs:118-153 | each mirror undoes its own turn, and every mirror turns the beam |
| LethalgemDay16Part1.CheckedChanges | lethalgem/day_16/part_1/src/main.rs:111-159 | a bouncing beam's state is left as it is exactly when it stands on a splitter |
| LethalgemDay16Part1.CheckedInjective | lethalgem/day_16/part_1/src/main.rs:111-159 | away from splitters, two bouncing beams that end in the same bouncing state started in the same state |
| LethalgemDay16Part1.CheckedNotStart | lethalgem/day_16/part_1/src/main.rs:111-159 | no step away from a splitter leads back to the start state |
| LethalgemDay16Part1.Beam.constructor | lethalgem/day_16/part_1/src/main.rs:36-42 | a new beam is at the given location and direction and still bouncing |
| LethalgemDay16Part1.Beam.Clone | lethalgem/day_16/part_1/src/main.rs:28 | the clone has the same fields |
| LethalgemDay16Part1.Beam.UpdateCurrentLocation | lethalgem/day_16/part_1/src/main.rs:44-46 | only the location changes |
| LethalgemDay16Part1.Beam.UpdateDirection | lethalgem/day_16/part_1/src/main.rs:48-50 | only the direction changes |
| LethalgemDay16Part1.Beam.StopBouncing | lethalgem/day_16/part_1/src/main.rs:52-54 | only the stopped flag changes, to true |
| LethalgemDay16Part1.UpdateBeamToNewLocation | lethalgem/day_16/part_1/src/main.rs:162-176 | a target outside the walls stops the beam; one inside becomes its location |
| LethalgemDay16Part1.MoveBeam | lethalgem/day_16/part_1/src/main.rs:161-208 | the beam's new state is one cell on in its direction, or stopped at the wall |
| LethalgemDay16Part1.CheckBeamLocation | lethalgem/day_16/part_1/src/main.rs:111-159 | one beam comes back, turned by a mirror and moved, moved on an empty cell, or untouched on a splitter |
| LethalgemDay16Part1.WalkWithin | lethalgem/day_16/part_1/src/main.rs:82-109 | the beam never leaves the walls |
| LethalgemDay16Part1.WalkDistinct | lethalgem/day_16/part_1/src/main.rs:82-109 | while it bounces away from splitters the beam never repeats a state |
| LethalgemDay16Part1.StuckForever | lethalgem/day_16/part_1/src/main.rs:154-155 | once a round leaves the beam as it is, it stays so in every later round |
| LethalgemDay16Part1.InStates | lethalgem/day_16/part_1/src/main.rs:82-109 | every bouncing in-bounds state is one of finitely many |
| LethalgemDay16Part1.VisitedGrows | lethalgem/day_16/part_1/src/main.rs:90-106 | each round adds one new state, still among the finitely many, which bounds the number of rounds |
| LethalgemDay16Part1.PathGrows | lethalgem/day_16/part_1/src/main.rs:94-98 | each round adds the beam's location to the path |
| LethalgemDay16Part1.DistinctCard | lethalgem/day_16/part_1/src/main.rs:95-97 | a list without repeats has as many elements as its set |
| LethalgemDay16Part1.AddToPath | lethalgem/day_16/part_1/src/main.rs:94-98 | a location is pushed only when absent, so the path stays free of repeats and gains exactly that location |
| LethalgemDay16Part1.BouncingStep | lethalgem/day_16/part_1/src/main.rs:90-106 | a bouncing beam away from a splitter is still counted as bouncing one round later |
| LethalgemDay16Part1.Round | lethalgem/day_16/part_1/src/main.rs:91-102 | one round replaces the beam by its checked successor and records its location, or reports a beam stuck on a splitter |
| LethalgemDay16Part1.TrackBeam | lethalgem/day_16/part_1/src/main.rs:82-109 | when the beam leaves the grid the result is the number of distinct cells it crossed; when it reaches a splitter it stays there for ever, so the source never returns |
| LethalgemDay16Part1.RowWalk | lethalgem/day_16/part_1/src/main.rs:312-329 | on an empty stretch of a one-row grid the beam moves right one cell per round |
| LethalgemDay16Part1.RowPrefixCard | lethalgem/day_16/part_1/src/main.rs:312-329 | the first cells of a row up to `last` number `last + 1` |
| LethalgemDay16Part1.RowCount | lethalgem/day_16/part_1/src/main.rs:312-329 | on a one-row grid the count is the cells up to the first mirror, or the whole row |
| LethalgemDay16Part1.RowEnd | lethalgem/day_16/part_1/src/main.rs:312-329 | the beam stops in place at the first mirror or at the end of the row |
| LethalgemDay16Part1.RowRounds | lethalgem/day_16/part_1/src/main.rs:312-329 | the number of rounds the beam bounces on a one-row grid |
| LethalgemDay16Part1.RowPath | lethalgem/day_16/part_1/src/main.rs:312-329 | the path on a one-row grid is the prefix of the row up to where it stops |
| LethalgemDay16Part1.TrackBeamExamples | lethalgem/day_16/part_1/src/main.rs:312-329 | the three one-row tests give 10, 5 and 8 cells |
| MohammadDay16.Next | mohammad/day16/src/main.rs:29-37 | a move keeps the direction and stays in the same row or column |
| MohammadDay16.NextOneCell | mohammad/day16/src/main.rs:29-37 | a move changes the beam, moving back the other way undoes it, and it leaves a 1 by 1 grid |
| MohammadDay16.MirrorTurns | mohammad/day16/src/main.rs:56-73 | each mirror undoes its own turn, '/' turns opposite to '\\', and neither keeps or reverses the direction |
| MohammadDay16.Successors | mohammad/day16/src/main.rs:54-107 | a beam on the grid has one or two successors |
| MohammadDay16.SplitterSides | mohammad/day16/src/main.rs:74-105 | a splitter hit on its flat side starts the two beams across it on the same cell; hit edge-on the beam passes through |
| MohammadDay16.InStates | mohammad/day16/src/main.rs:24-27 | every in-bounds beam is one of finitely many |
| MohammadDay16.Pop | mohammad/day16/src/main.rs:46 | popping the stack keeps the bookkeeping invariant |
| MohammadDay16.Settle | mohammad/day16/src/main.rs:47-50 | a beam off the grid or already visited leaves nothing pending beside the stack |
| MohammadDay16.Visit | mohammad/day16/src/main.rs:51-107 | visiting a beam keeps the invariant, its successors being stacked or followed |
| MohammadDay16.Finish | mohammad/day16/src/main.rs:46-110 | with the stack empty, the visited beams are exactly those light reaches from the start |
| MohammadDay16.CellsAdd | mohammad/day16/src/main.rs:51-53 | visiting a beam energizes its cell |
| MohammadDay16.Follow | mohammad/day16/src/main.rs:50-108 | following a popped beam keeps the invariant and the energized set equal to the visited beams' cells |
| MohammadDay16.Energized | mohammad/day16/src/main.rs:40-111 | the visited beams are exactly those light reaches from the start, and the count is the number of their cells |
| MohammadDay16.SubsetCard | mohammad/day16/src/main.rs:110 | a subset is no larger |
| MohammadDay16.BlockCard | mohammad/day16/src/main.rs:42 | the grid has dim times dim cells |
| MohammadDay16.BlockSplit | mohammad/day16/src/main.rs:42 | the grid is its rows but the last, plus the last row |
| MohammadDay16.RowCard | mohammad/day16/src/main.rs:42 | a row has dim cells |
| MohammadDay16.EnergizedBound | mohammad/day16/src/main.rs:40-111 | at most dim*dim cells are energized, and none when the start is off the grid |
| MohammadDay16.Advance | mohammad/day16/src/main.rs:54-107 | one pass of the inner loop carries on with the single successor, or breaks where there are two |
| MohammadDay16.InnerLoop | mohammad/day16/src/main.rs:50-108 | a beam still followed is on the grid |
| MohammadDay16.LoopReached | mohammad/day16/src/main.rs:46-108 | light from the top left corner of the trap grid reaches the splitter's loop |
| MohammadDay16.CycleHangs | mohammad/day16/src/main.rs:50-108 | on the trap grid the inner loop as written never leaves the loop of mirrors, however long it runs |
| BoatRace.CountWins | lethalgem/day_6/part_1/src/main.rs:35-42 | the count of winning hold times in a window is at most the window's width |
| BoatRace.CountIsCardinality | lethalgem/day_6/part_1/src/main.rs:32-45 | the counter equals the size of the set of winning hold times |
| BoatRace.CountSplit | lethalgem/day_6/part_1/src/main.rs:35-42 | counts over adjacent windows add up |
| BoatRace.CountAll | lethalgem/day_6/part_1/src/main.rs:35-42 | a window of winners counts its width |
| BoatRace.CountNone | lethalgem/day_6/part_1/src/main.rs:35-42 | a window without winners counts 0 |
| BoatRace.WinsSymmetric | lethalgem/day_6/part_1/src/main.rs:36-39 | holding h and holding T - h travel the same distance, so one wins exactly when the other does |
| BoatRace.CountReflect | lethalgem/day_6/part_1/src/main.rs:35-42 | the count is unchanged when the window is mirrored about T |
| BoatRace.TravelledDifference | lethalgem/day_6/part_1/src/main.rs:36-38 | the gain from holding h rather than a is (h - a)(T - a - h) |
| BoatRace.LosesBelow | lethalgem/day_6/part_1/src/main.rs:39 | a hold shorter than the first winning one loses |
| BoatRace.WinsInside | lethalgem/day_6/part_1/src/main.rs:39 | every hold between the first winning one and its mirror wins |
| BoatRace.WinningWindow | lethalgem/day_6/part_1/src/main.rs:32-45 | the winners are exactly a..=T-a, so the count is T + 1 - 2a |
| LethalgemDay6Part1.CalculateWaysToWin | lethalgem/day_6/part_1/src/main.rs:32-45 | the loop counts the hold times in 0..=T that beat the record |
| LethalgemDay6Part1.NewRace | lethalgem/day_6/part_1/src/main.rs:24-30 | a race stores its time, its record and its ways to win |
| LethalgemDay6Part1.MarginOfErrorZero | lethalgem/day_6/part_1/src/main.rs:80-82 | the product is 0 exactly when some race has no way to win, and is never negative |
| LethalgemDay6Part1.Numbers | lethalgem/day_6/part_1/src/main.rs:88-91 | the tokens that parse as `i32` are kept in order, the others dropped |
| LethalgemDay6Part1.ExtractRaces | lethalgem/day_6/part_1/src/main.rs:84-111 | NoTimeLine and NoDistanceLine for missing lines, UnequalTimesAndDistances for unequal counts, otherwise the k-th race pairs the k-th time and distance |
| LethalgemDay6Part1.PairRaces | lethalgem/day_6/part_1/src/main.rs:102-105 | the loop pairs times and distances position by position |
| LethalgemDay6Part1.ExampleRaces | lethalgem/day_6/part_1/src/main.rs:122-130 | the example races have 4, 8 and 9 ways, and margin 288 |
| LethalgemDay6Part1.ExampleTimes | lethalgem/day_6/part_1/src/main.rs:88-91 | "Time: 7 15 30" gives the times 7, 15 and 30 |
| LethalgemDay6Part1.ExampleDistances | lethalgem/day_6/part_1/src/main.rs:95-98 | "Distance: 9 40 200" gives 9, 40 and 200 |
| LethalgemDay6Part2.CalculateWaysToWin | lethalgem/day_6/part_2/src/main.rs:28-41 | the loop counts the hold times in 0..=T that beat the record |
| LethalgemDay6Part2.NewRace | lethalgem/day_6/part_2/src/main.rs:22-26 | a race stores its ways to win |
| LethalgemDay6Part2.ConcatenatedDigits | lethalgem/day_6/part_2/src/main.rs:77-81 | the joined text is all digits, and empty exactly when no token parses |
| LethalgemDay6Part2.ConcatenatedSnoc | lethalgem/day_6/part_2/src/main.rs:77-81 | each token is appended when it parses and skipped otherwise |
| LethalgemDay6Part2.ConcatenatedValue | lethalgem/day_6/part_2/src/main.rs:77-81 | the joined number is the first token's value shifted left by the digits that follow, plus theirs |
| LethalgemDay6Part2.JoinNumbers | lethalgem/day_6/part_2/src/main.rs:76-81 | the loop concatenates the tokens that parse as `u64` |
| LethalgemDay6Part2.RaceOf | lethalgem/day_6/part_2/src/main.rs:93-94 | fails exactly when the joined time or distance does not parse; ways are at most T + 1 |
| LethalgemDay6Part2.ExtractRace | lethalgem/day_6/part_2/src/main.rs:73-95 | NoTimeLine and NoDistanceLine for missing lines, otherwise the race of the two joined numbers |
| LethalgemDay6Part2.NoNumbersFails | lethalgem/day_6/part_2/src/main.rs:76-94 | a time line without numbers fails to parse |
| LethalgemDay6Part2.ExampleTime | lethalgem/day_6/part_2/src/main.rs:76-81 | the example's time line joins to 71530 |
| LethalgemDay6Part2.ExampleDistance | lethalgem/day_6/part_2/src/main.rs:84-89 | the example's distance line joins to 940200 |
| LethalgemDay6Part2.ExampleRace | lethalgem/day_6/part_2/src/main.rs:106-114 | the example race has 71503 ways to win |
| LethalgemDay6Part2.ExampleWays | lethalgem/day_6/part_2/src/main.rs:28-41 | the count for time 71530 and record 940200 is 71503 |
| MattdamachineDay06.CalculateWaysToWin | mattdamachine/Day06/part_01/src/main.rs:68-80 | the loop counts the hold times in 1..time that beat the record; 0 when time <= 1, at most time - 1 |
| MattdamachineDay06.AgreesWithFullRange | mattdamachine/Day06/part_01/src/main.rs:71-77 | with a non-negative record the count equals lethalgem's count over 0..=time |
| MattdamachineDay06.WindowCount | mattdamachine/Day06/part_01/src/main.rs:68-80 | with winners a..=time-a the count is time + 1 - 2a |
| MattdamachineDay06.ExampleRaces | mattdamachine/Day06/part_01/src/main.rs:68-80 | the example races have 4, 8 and 9 ways |
| LethalgemDay6Part1.LabelThenThree | lethalgem/day_6/part_1/src/main.rs:88-91 | a line of a label and three numbers yields exactly the three numbers, since the label fails to parse and is dropped |
| LethalgemDay6Part1.OneDigit | lethalgem/day_6/part_1/src/main.rs:88-91 | a single digit parses to its value |
| LethalgemDay6Part1.ThreeDigits | lethalgem/day_6/part_1/src/main.rs:88-91 | three digits parse to their decimal value |
| LethalgemDay6Part2.JoinThree | lethalgem/day_6/part_2/src/main.rs:76-81 | a label followed by three numbers joins to the three numbers' digits, in order |
| Extrapolation.Diffs | mattdamachine/Day09/part_01/src/main.rs:66-77 | the differences are one shorter than the sequence, each the step between neighbours |
| Extrapolation.DiffsUnique | lethalgem/day_9/part_2/src/main.rs:91-106 | only one sequence has that description |
| Extrapolation.Table | mattdamachine/Day09/part_01/src/main.rs:29-34 | the difference table starts with the sequence, ends in an all-zero row, and has at most one row per reading plus one |
| Extrapolation.TableStep | mattdamachine/Day09/part_01/src/main.rs:29-34 | each row above the last is non-zero and the next row is its differences |
| Extrapolation.NextFailsOnEmptyBottom | mattdamachine/Day09/part_01/src/main.rs:38-54 | extrapolation fails exactly when the table bottoms out in an empty row |
| Extrapolation.NextUnfold | mattdamachine/Day09/part_01/src/main.rs:38-54 | the next value is the last reading plus the next value of the differences |
| Extrapolation.EveryRowExtrapolates | mattdamachine/Day09/part_01/src/main.rs:38-54 | when the sequence extrapolates, every row of its table does |
| Extrapolation.NextAlongTable | mattdamachine/Day09/part_01/src/main.rs:38-54 | the bottom row extrapolates to 0 and each row's next value is its last value plus the next value of the row below |
| Extrapolation.DepthIsTableHeight | mattdamachine/Day09/part_01/src/main.rs:29-34 | the table has one row per round of differencing plus one |
| Extrapolation.DiffsSnoc | mattdamachine/Day09/part_01/src/main.rs:66-77 | appending a reading appends its step to the differences |
| Extrapolation.NextKeepsBottomRowZero | mattdamachine/Day09/part_01/src/main.rs:38-54 | x is the next value exactly when appending x keeps the table's bottom row all zero |
| Extrapolation.DiffsNegate | lethalgem/day_9/part_2/src/main.rs:91-106 | differencing commutes with negation |
| Extrapolation.DiffsReverse | lethalgem/day_9/part_2/src/main.rs:91-106 | the differences of the reversed sequence are the negated reversed differences |
| Extrapolation.AllZeroNegate | lethalgem/day_9/part_2/src/main.rs:99-101 | negation keeps a row all zero |
| Extrapolation.AllZeroReverse | lethalgem/day_9/part_2/src/main.rs:99-101 | reversal keeps a row all zero |
| Extrapolation.NextNegate | mattdamachine/Day09/part_01/src/main.rs:38-54 | extrapolating the negated sequence gives the negated value |
| Extrapolation.PreviousIsNextReversed | lethalgem/day_9/part_2/src/main.rs:54-88 | extrapolating backwards is extrapolating the reversed sequence forwards |
| Extrapolation.NextStep | mattdamachine/Day09/part_01/src/main.rs:38-54 | a non-zero row extrapolates exactly when its differences do, to its last value plus theirs |
| Extrapolation.PreviousStep | lethalgem/day_9/part_2/src/main.rs:75-85 | a non-zero row extrapolates backwards to its first value minus that of its differences |
| Extrapolation.ArithmeticDiffs | lethalgem/day_9/part_2/src/main.rs:91-106 | an arithmetic sequence has constant differences |
| Extrapolation.ConstantExtrapolates | lethalgem/day_9/part_2/src/main.rs:54-88 | a constant sequence of two or more readings extrapolates to its value both ways |
| Extrapolation.ArithmeticExtrapolates | lethalgem/day_9/part_2/src/main.rs:54-88 | an arithmetic sequence of three or more readings continues with the next term both ways |
| Extrapolation.TwoReadingsFail | lethalgem/day_9/part_2/src/main.rs:64-69 | two different readings run out of differences before reaching zeros |
| Extrapolation.Readings | lethalgem/day_9/part_2/src/main.rs:43-46 | a line parses exactly when every token is an `i32`, holding their values in order |
| LethalgemDay9Part2.FindNextSequence | lethalgem/day_9/part_2/src/main.rs:91-106 | the loop returns the differences and whether they are all zero |
| LethalgemDay9Part2.PendingStep | lethalgem/day_9/part_2/src/main.rs:75-85 | one more first value folds into the backward prediction |
| LethalgemDay9Part2.ReverseSteps | lethalgem/day_9/part_2/src/main.rs:75 | the list of first values is reversed |
| LethalgemDay9Part2.PredictFirstReading | lethalgem/day_9/part_2/src/main.rs:54-88 | the loops compute the backward prediction, in at most one round per reading |
| LethalgemDay9Part2.PredictFirstEmpty | lethalgem/day_9/part_2/src/main.rs:56-58 | an empty sequence gives NoLastValueInSequence |
| LethalgemDay9Part2.PredictFirstSingle | lethalgem/day_9/part_2/src/main.rs:64-69 | a single reading gives NoLastValueInSequence with an empty sequence |
| LethalgemDay9Part2.PredictFirstIsPrevious | lethalgem/day_9/part_2/src/main.rs:54-88 | for two or more readings the prediction succeeds exactly when the reference backward extrapolation does, and agrees with it |
| LethalgemDay9Part2.PredictFirstArithmetic | lethalgem/day_9/part_2/src/main.rs:54-88 | an arithmetic sequence of three or more readings predicts its term before the first |
| LethalgemDay9Part2.SumFails | lethalgem/day_9/part_2/src/main.rs:39-52 | the sum fails exactly when some line fails, with the first failing line's error |
| LethalgemDay9Part2.ExtrapolateAllValues | lethalgem/day_9/part_2/src/main.rs:39-52 | the loop sums the backward predictions of every line, or the first error |
| LethalgemDay9Part2.PredictLine | lethalgem/day_9/part_2/src/main.rs:43-48 | one line is parsed, then predicted |
| LethalgemDay9Part2.FindNextSequenceExamples | lethalgem/day_9/part_2/src/main.rs:116-131 | "0 3 6 9 12 15" has differences all 3, whose differences are all zero |
| LethalgemDay9Part2.PredictFirstExamples | lethalgem/day_9/part_2/src/main.rs:133-146 | the example lines predict -3, 0 and 5, summing to 2 |
| MattdamachineDay09.DifferencesAreZero | mattdamachine/Day09/part_01/src/main.rs:62-64 | true exactly when every value is 0 |
| MattdamachineDay09.CreateDifferencesVector | mattdamachine/Day09/part_01/src/main.rs:66-77 | the loop computes the differences |
| MattdamachineDay09.HistoryValues.constructor | mattdamachine/Day09/part_01/src/main.rs:87-89 | a history starts with the one row it was read from |
| MattdamachineDay09.HistoryValues.PushDifferences | mattdamachine/Day09/part_01/src/main.rs:29-34 | the while loop appends rows until the difference table of the last row is complete |
| MattdamachineDay09.HistoryValues.ExtendRows | mattdamachine/Day09/part_01/src/main.rs:38-54 | from the bottom up each row gains its next value, and the first row's is returned |
| MattdamachineDay09.ExtendedRows | mattdamachine/Day09/part_01/src/main.rs:38-54 | after extension every row but the last ends with its own next value |
| MattdamachineDay09.Extensions | mattdamachine/Day09/part_01/src/main.rs:38-54 | one next value per row of the table |
| MattdamachineDay09.Histories | mattdamachine/Day09/part_01/src/main.rs:79-95 | one history per line, holding its readings; none (the `unwrap` panic) exactly when some token is not an `i32` |
| MattdamachineDay09.SumAllFails | mattdamachine/Day09/part_01/src/main.rs:27-55 | the sum fails exactly when some history fails |
| MattdamachineDay09.SumFailsOnEmptyBottom | mattdamachine/Day09/part_01/src/main.rs:29-50 | a history fails exactly when its table bottoms out in an empty row (the index panic) |
| MattdamachineDay09.ExtrapolateHistory | mattdamachine/Day09/part_01/src/main.rs:27-54 | one history extrapolates to the reference next value |
| MattdamachineDay09.Run | mattdamachine/Day09/part_01/src/main.rs:17-60 | the answer is the sum of the next values of every history, or none |
| MattdamachineDay09.SumHistories | mattdamachine/Day09/part_01/src/main.rs:27-55 | the loop sums the next values of every history |
| MattdamachineDay09.NextExamples | mattdamachine/Day09/part_01/src/main.rs:38-54 | the example histories extrapolate to 18, 28 and 68, summing to 114 |
| Extrapolation.KeepsZeroRow | mattdamachine/Day09/part_01/src/main.rs:38-54 | on an all-zero row, x is the extrapolation exactly when appending x keeps the bottom row of the table all zero |
| Extrapolation.KeepsBottomRowAbove | mattdamachine/Day09/part_01/src/main.rs:38-54 | the same characterisation one row up: x extends the row exactly when x minus its last reading extends the differences |
| Extrapolation.Reverse | lethalgem/day_9/part_2/src/main.rs:54-88 | a row read backwards, the view in which predicting the first reading is predicting the next |
| Extrapolation.Negate | lethalgem/day_9/part_2/src/main.rs:91-106 | a row with every reading negated |
| Extrapolation.Arithmetic | lethalgem/day_9/part_2/src/main.rs:54-88 | the arithmetic sequence a, a + d, … of length n |
| Extrapolation.Depth | mattdamachine/Day09/part_01/src/main.rs:29-34 | the number of difference rows taken before an all-zero row is at most the row's length |
| LethalgemDay9Part2.LineResults | lethalgem/day_9/part_2/src/main.rs:43-48 | one prediction result per input line, in order |
| LethalgemDay9Part2.UnwindSnoc | lethalgem/day_9/part_2/src/main.rs:75-85 | unwinding one more first reading subtracts the running value from it |
| LethalgemDay9Part2.DescendStep | lethalgem/day_9/part_2/src/main.rs:58-73 | a non-zero row records its first reading and continues with its differences |
| LethalgemDay9Part2.DescendLast | lethalgem/day_9/part_2/src/main.rs:58-85 | at an all-zero row the recorded first readings are unwound |
| LethalgemDay9Part2.SumStops | lethalgem/day_9/part_2/src/main.rs:39-52 | the first failing line makes the sum fail with that line's error |
| LethalgemDay9Part2.SumAdds | lethalgem/day_9/part_2/src/main.rs:39-52 | a successful line adds its prediction to the running sum |
| LethalgemDay9Part2.SumKeepsError | lethalgem/day_9/part_2/src/main.rs:39-52 | once a prefix fails, the whole sum fails with the same error |
| LethalgemDay9Part2.ExampleSum | lethalgem/day_9/part_2/src/main.rs:148-153 | the example predictions -3, 0 and 5 sum to 2 |
| LethalgemDay9Part2.PreviousOfFirstExample | lethalgem/day_9/part_2/src/main.rs:133-146 | the reading before 0 3 6 9 12 15 is -3 |
| LethalgemDay9Part2.PreviousOfSecondExample | lethalgem/day_9/part_2/src/main.rs:133-146 | the reading before 1 3 6 10 15 21 is 0 |
| LethalgemDay9Part2.PreviousOfThirdExample | lethalgem/day_9/part_2/src/main.rs:133-146 | the reading before 10 13 16 21 30 45 is 5 |
| MattdamachineDay09.HistoryValues.ExtendFromBottom | mattdamachine/Day09/part_01/src/main.rs:38-54 | the bottom-up loop appends each row's extension to the row above and returns the first row's new reading |
| MattdamachineDay09.ExtensionsExtend | mattdamachine/Day09/part_01/src/main.rs:38-54 | the per-row extensions form a valid extension of the difference table |
| MattdamachineDay09.Extrapolations | mattdamachine/Day09/part_01/src/main.rs:27-55 | one extrapolation per history, in order |
| MattdamachineDay09.SumAllKeepsNone | mattdamachine/Day09/part_01/src/main.rs:27-55 | a history that fails to extrapolate makes the whole sum fail |
| MattdamachineDay09.ExtrapolationsOfThree | mattdamachine/Day09/part_01/src/main.rs:27-55 | three histories extrapolate one by one |
| MattdamachineDay09.FirstExample | mattdamachine/Day09/part_01/src/main.rs:38-54 | the history 0 3 6 9 12 15 extends to 18 |
| MattdamachineDay09.SecondExample | mattdamachine/Day09/part_01/src/main.rs:38-54 | the history 1 3 6 10 15 21 extends to 28 |
| MattdamachineDay09.ThirdExample | mattdamachine/Day09/part_01/src/main.rs:38-54 | the history 10 13 16 21 30 45 extends to 68 |
| MattdamachineDay09.ExampleSum | mattdamachine/Day09/part_01/src/main.rs:27-55 | the three example extensions 18, 28 and 68 sum to 114 |
| LethalgemDay1Part1.ExtractNumberFromLine | lethalgem/Day_1/part_1/src/main.rs:45-56 | the loop keeps the line's digits, and the value is the first and last of them read as a two-digit number, or `NoFirstNum` |
| LethalgemDay1Part1.FirstAndLast | lethalgem/Day_1/part_1/src/main.rs:45-56 | with i the first and j the last digit position, the value is 10 times digit i plus digit j |
| LethalgemDay1Part1.NoDigitsFails | lethalgem/Day_1/part_1/src/main.rs:50-51 | a line fails exactly when it has no digit, and then with `NoFirstNum`; `NoLastNum` never happens |
| LethalgemDay1Part1.ValueRange | lethalgem/Day_1/part_1/src/main.rs:52-55 | a line's value lies in 0..99, so the `i32` parse never fails |
| LethalgemDay1Part1.SingleDigit | lethalgem/Day_1/part_1/src/main.rs:50-52 | a line with one digit d has the value 11 times d |
| LethalgemDay1Part1.ExtractAllNumbers | lethalgem/Day_1/part_1/src/main.rs:36-43 | the loop collects the values of the input's lines, or the first failing line's error |
| LethalgemDay1Part1.AllNumbersPerLine | lethalgem/Day_1/part_1/src/main.rs:36-43 | the lines succeed exactly when each line does, and value k is line k's value |
| LethalgemDay1Part1.AllNumbersFirstError | lethalgem/Day_1/part_1/src/main.rs:38-41 | the error is that of the first failing line |
| LethalgemDay1Part1.ExampleFirstLine | lethalgem/Day_1/part_1/src/main.rs:68-77 | "1abc2" gives 12 |
| LethalgemDay1Part1.ExampleSecondLine | lethalgem/Day_1/part_1/src/main.rs:68-77 | "pqr3stu8vwx" gives 38 |
| LethalgemDay1Part1.ExampleThirdLine | lethalgem/Day_1/part_1/src/main.rs:68-77 | "a1b2c3d4e5f" gives 15 |
| LethalgemDay1Part1.ExampleFourthLine | lethalgem/Day_1/part_1/src/main.rs:68-77 | "treb7uchet" gives 77 |
| LethalgemDay1Part1.ExampleDocument | lethalgem/Day_1/part_1/src/main.rs:79-85 | the example document gives [12, 38, 15, 77], whose sum is 142 |
| LethalgemDay1Part1.ExampleSum | lethalgem/Day_1/part_1/src/main.rs:79-85 | the four calibration values of the example document, 12, 38, 15 and 77, add up to 142 |
| LethalgemDay2Part1.NewWithValues | lethalgem/day_2/part_1/src/main.rs:30-45 | a game is flagged possible exactly when every set stays within 12 red, 13 green and 14 blue |
| LethalgemDay2Part1.Digits | lethalgem/day_2/part_1/src/main.rs:171-180 | the kept characters are all ASCII digits and no more than the line has |
| LethalgemDay2Part1.DigitsAppend | lethalgem/day_2/part_1/src/main.rs:174-180 | filtering digits distributes over concatenation |
| LethalgemDay2Part1.DigitsOfDigits | lethalgem/day_2/part_1/src/main.rs:174-180 | a string of digits is kept whole |
| LethalgemDay2Part1.DigitsOfNonDigits | lethalgem/day_2/part_1/src/main.rs:174-180 | a string without digits leaves nothing |
| LethalgemDay2Part1.NumberFromLine | lethalgem/day_2/part_1/src/main.rs:171-186 | a parsed number fits in `i32` and is never negative; the only error is a failed parse |
| LethalgemDay2Part1.NumberAmongText | lethalgem/day_2/part_1/src/main.rs:171-186 | one digit run surrounded by non-digits parses to its decimal value |
| LethalgemDay2Part1.NoDigitsNoNumber | lethalgem/day_2/part_1/src/main.rs:181-185 | a piece without digits fails to parse |
| LethalgemDay2Part1.ExtractNumberFromLine | lethalgem/day_2/part_1/src/main.rs:171-186 | the loop computes the digit-filtering parse |
| LethalgemDay2Part1.ParseDigitsOf | lethalgem/day_2/part_1/src/main.rs:181-182 | the digit loop computes the decimal value of the digits |
| LethalgemDay2Part1.SetOf | lethalgem/day_2/part_1/src/main.rs:153-169 | a parsed set has no negative counts; the only error is a failed parse |
| LethalgemDay2Part1.UnmentionedColours | lethalgem/day_2/part_1/src/main.rs:155-166 | a colour no piece mentions keeps the count 0 |
| LethalgemDay2Part1.LaterMentionWins | lethalgem/day_2/part_1/src/main.rs:158-161 | a later piece naming red overwrites the red count with its number |
| LethalgemDay2Part1.SetOfPrefixFails | lethalgem/day_2/part_1/src/main.rs:157 | the first piece that fails to parse decides the error |
| LethalgemDay2Part1.ExtractSet | lethalgem/day_2/part_1/src/main.rs:153-169 | the loop over comma-separated pieces computes the set specification |
| LethalgemDay2Part1.SetsOf | lethalgem/day_2/part_1/src/main.rs:144-151 | one set per semicolon-separated piece |
| LethalgemDay2Part1.SetsOfByPiece | lethalgem/day_2/part_1/src/main.rs:144-151 | the j-th set is the set parsed from the j-th piece |
| LethalgemDay2Part1.SetsOfPrefixFails | lethalgem/day_2/part_1/src/main.rs:148 | the first failing set decides the error |
| LethalgemDay2Part1.ExtractSets | lethalgem/day_2/part_1/src/main.rs:144-151 | the loop computes the list of sets |
| LethalgemDay2Part1.GameParts | lethalgem/day_2/part_1/src/main.rs:130-142 | a line fails with NoColonFound exactly when it has no colon; the id fits in `i32` |
| LethalgemDay2Part1.ExtractGame | lethalgem/day_2/part_1/src/main.rs:130-138 | the method computes the game of a line |
| LethalgemDay2Part1.GamesOf | lethalgem/day_2/part_1/src/main.rs:119-128 | one game per line |
| LethalgemDay2Part1.GamesOfPrefixFails | lethalgem/day_2/part_1/src/main.rs:124 | the first failing line decides the error |
| LethalgemDay2Part1.ExtractGames | lethalgem/day_2/part_1/src/main.rs:119-128 | the loop computes the games of the input |
| LethalgemDay2Part1.GamesOfFlagged | lethalgem/day_2/part_1/src/main.rs:130-138 | every parsed game carries the possibility flag its sets determine |
| LethalgemDay2Part1.SumIsPossibleIds | lethalgem/day_2/part_1/src/main.rs:106-117 | the sum over flagged games is the sum of the ids of the possible games |
| LethalgemDay2Part1.ExampleSum | lethalgem/day_2/part_1/src/main.rs:291-297 | the five example games sum to 8 |
| LethalgemDay2Part2.MinimumSetCovers | lethalgem/day_2/part_2/src/main.rs:24-50 | the minimum set covers every set of the game and is never negative |
| LethalgemDay2Part2.MinimumSetIsLeast | lethalgem/day_2/part_2/src/main.rs:24-50 | any non-negative bag covering every set covers the minimum set |
| LethalgemDay2Part2.MinimumSetAttained | lethalgem/day_2/part_2/src/main.rs:28-39 | each minimum count is 0 or the count of some set |
| LethalgemDay2Part2.NewWithValues | lethalgem/day_2/part_2/src/main.rs:24-50 | the loop computes the minimum set of the game's sets |
| LethalgemDay2Part2.PowerOfSets | lethalgem/day_2/part_2/src/main.rs:118-120 | a game's power is never negative, and is 0 when no set has red |
| LethalgemDay2Part2.OverallPowerAppend | lethalgem/day_2/part_2/src/main.rs:111-116 | the overall power is additive over the list of games |
| LethalgemDay2Part2.GameFromLine | lethalgem/day_2/part_2/src/main.rs:133-141 | a parsed game carries the minimum set of its sets; it fails exactly when part one's parse fails |
| LethalgemDay2Part2.ExtractGame | lethalgem/day_2/part_2/src/main.rs:133-141 | the method computes the game of a line |
| LethalgemDay2Part2.GamesOf | lethalgem/day_2/part_2/src/main.rs:122-131 | one game per line |
| LethalgemDay2Part2.GamesOfPrefixFails | lethalgem/day_2/part_2/src/main.rs:127 | the first failing line decides the error |
| LethalgemDay2Part2.ExtractGames | lethalgem/day_2/part_2/src/main.rs:122-131 | the loop computes the games of the input |
| LethalgemDay2Part2.ExampleGameThree | lethalgem/day_2/part_2/src/main.rs:225-240 | game 3 of the example has minimum set 20 red, 13 green, 6 blue |
| LethalgemDay2Part2.ExampleGameOne | lethalgem/day_2/part_2/src/main.rs:294-300 | game 1 of the example has minimum set (4, 2, 6) and power 48 |
| LethalgemDay2Part2.ExampleOverall | lethalgem/day_2/part_2/src/main.rs:302-308 | the example's overall power is 2286 |
| LethalgemDay3Part1.RunsAreMaximal | lethalgem/day_3/part_1/src/main.rs:167-204 | each number of the reference scan is a maximal run of digits of its line |
| LethalgemDay3Part1.RunsAreOrdered | lethalgem/day_3/part_1/src/main.rs:167-204 | the runs come left to right, separated by at least one non-digit |
| LethalgemDay3Part1.RunsCoverDigits | lethalgem/day_3/part_1/src/main.rs:167-204 | every digit of the line lies inside some run |
| LethalgemDay3Part1.DigitsValueIsDecimal | lethalgem/day_3/part_1/src/main.rs:206-218 | a run's value is the decimal value of its digits |
| LethalgemDay3Part1.ConstructSchematicNumber | lethalgem/day_3/part_1/src/main.rs:206-218 | pushes the parsed number with its line and span, and fails exactly when the digits do not fit in `i32` |
| LethalgemDay3Part1.TooLarge | lethalgem/day_3/part_1/src/main.rs:206-218 | a run of 2^31 or more makes the whole line fail to parse |
| LethalgemDay3Part1.ScanFindsRuns | lethalgem/day_3/part_1/src/main.rs:167-204 | the character loop's fold gives exactly the reference runs of the line, or its parse error |
| LethalgemDay3Part1.ScanForNumbersInLine | lethalgem/day_3/part_1/src/main.rs:167-204 | the loop computes the numbers of a line (including one that ends the line) |
| LethalgemDay3Part1.SymbolsExact | lethalgem/day_3/part_1/src/main.rs:151-165 | a position is reported exactly when its character is neither a digit nor '.', in increasing order |
| LethalgemDay3Part1.ScanForSymbolsInLine | lethalgem/day_3/part_1/src/main.rs:151-165 | the loop computes the symbols of a line |
| LethalgemDay3Part1.SchematicFails | lethalgem/day_3/part_1/src/main.rs:136-149 | the schematic fails exactly when some line's numbers fail to parse |
| LethalgemDay3Part1.SchematicNumbersAreRuns | lethalgem/day_3/part_1/src/main.rs:136-149 | every collected number is a digit run of the line it names |
| LethalgemDay3Part1.SchematicSymbolsAccepted | lethalgem/day_3/part_1/src/main.rs:136-149 | every collected symbol points at a symbol character of its line |
| LethalgemDay3Part1.ScanSchematic | lethalgem/day_3/part_1/src/main.rs:136-149 | the loop over lines computes the numbers and symbols of the schematic |
| LethalgemDay3Part1.AdjacentMeansTouching | lethalgem/day_3/part_1/src/main.rs:107-134 | the saturating `within` test is the 3-row box one column wider than the number on each side |
| LethalgemDay3Part1.IsAdjacentToSymbol | lethalgem/day_3/part_1/src/main.rs:107-134 | true exactly when some symbol is adjacent to the number |
| LethalgemDay3Part1.PartNumbersMembers | lethalgem/day_3/part_1/src/main.rs:92-105 | the part numbers are exactly the numbers adjacent to a symbol |
| LethalgemDay3Part1.PartNumbersAppend | lethalgem/day_3/part_1/src/main.rs:92-105 | the filter distributes over concatenation, so order is kept |
| LethalgemDay3Part1.DeterminePartNumbers | lethalgem/day_3/part_1/src/main.rs:92-105 | the loop keeps exactly the numbers adjacent to a symbol |
| LethalgemDay3Part1.SumValuesAppend | lethalgem/day_3/part_1/src/main.rs:88-90 | the sum of values is additive |
| LethalgemDay3Part1.ExampleRing | lethalgem/day_3/part_1/src/main.rs:107-134 | the cells around 467 count as adjacent, cells two away do not |
| LethalgemDay3Part1.ExampleNumbersInLine | lethalgem/day_3/part_1/src/main.rs:243-255 | "467.*114.1" yields 467, 114 and 1 with their spans |
| LethalgemDay3Part1.ExampleSymbolsInLine | lethalgem/day_3/part_1/src/main.rs:264-275 | "467.3..*.@" yields the symbols at 7 and 9 |
| LethalgemDay3Part1.ExamplePartNumbersSum | lethalgem/day_3/part_1/src/main.rs:390-397 | the example's part numbers sum to 4361 |
| LethalgemDay3Part2.ScanForSymbolsInLine | lethalgem/day_3/part_2/src/main.rs:142-156 | the loop computes the positions of '*' in a line |
| LethalgemDay3Part2.GearsOfLine | lethalgem/day_3/part_2/src/main.rs:142-156 | a position is reported exactly when it holds '*', in increasing order |
| LethalgemDay3Part2.ScanSchematic | lethalgem/day_3/part_2/src/main.rs:127-140 | the loop over lines computes the numbers and gears of the schematic |
| LethalgemDay3Part2.AdjacentIndicesExact | lethalgem/day_3/part_2/src/main.rs:87-119 | the found numbers are exactly those whose start or end column is within one of the gear, in order |
| LethalgemDay3Part2.AdjacentValuesAtIndices | lethalgem/day_3/part_2/src/main.rs:87-119 | the found values are the values of those numbers |
| LethalgemDay3Part2.FindGearRatio | lethalgem/day_3/part_2/src/main.rs:87-125 | the loop computes the gear ratio specification |
| LethalgemDay3Part2.GearRatioOfTwo | lethalgem/day_3/part_2/src/main.rs:121-125 | exactly two adjacent numbers give their product |
| LethalgemDay3Part2.NoRatioForOne | lethalgem/day_3/part_2/src/main.rs:121-125 | a single adjacent number gives no ratio |
| LethalgemDay3Part2.GearRatioNeedsTwo | lethalgem/day_3/part_2/src/main.rs:121-125 | a ratio exists only when exactly two numbers are adjacent, and is their product |
| LethalgemDay3Part2.DetermineGearRatio | lethalgem/day_3/part_2/src/main.rs:72-85 | the loop sums the ratios of all gears that have one |
| LethalgemDay3Part2.GearTotalAppend | lethalgem/day_3/part_2/src/main.rs:72-85 | the total is additive over the list of gears |
| LethalgemDay3Part2.NonGearsAddNothing | lethalgem/day_3/part_2/src/main.rs:72-85 | stars without a ratio add nothing |
| LethalgemDay3Part2.TouchesSomeDigit | lethalgem/day_3/part_2/src/main.rs:100-115 | touching means some digit of the number is within one row and column of the gear |
| LethalgemDay3Part2.NarrowNumbersAgree | lethalgem/day_3/part_2/src/main.rs:100-115 | for numbers of at most four digits the start-or-end test is the same as touching some digit |
| LethalgemDay3Part2.WideNumberMissed | lethalgem/day_3/part_2/src/main.rs:100-115 | a five-digit number can touch a gear with its middle digit and still not be counted |
| LethalgemDay3Part2.ExampleGearRatio | lethalgem/day_3/part_2/src/main.rs:293-312 | the gear between 467 and 4 has ratio 467 * 4 |
| LethalgemDay3Part2.ExampleGearTotal | lethalgem/day_3/part_2/src/main.rs:314-320 | the example's gear ratios sum to 467835 |
| LethalgemDay3Part1.NextDigit | lethalgem/day_3/part_1/src/main.rs:167-204 | the next digit at or after a position, or the end of the line |
| LethalgemDay3Part1.NextDigitSkips | lethalgem/day_3/part_1/src/main.rs:167-204 | every character skipped on the way to the next digit is not a digit |
| LethalgemDay3Part1.RunEnd | lethalgem/day_3/part_1/src/main.rs:167-204 | the end of a run of digits: the line's end or the first non-digit |
| LethalgemDay3Part1.RunEndDigits | lethalgem/day_3/part_1/src/main.rs:167-204 | every character of the run is a digit |
| LethalgemDay3Part1.SkipNonDigit | lethalgem/day_3/part_1/src/main.rs:196-199 | a non-digit outside a number adds no number |
| LethalgemDay3Part1.RunAt | lethalgem/day_3/part_1/src/main.rs:167-204 | a maximal run of digits yields one number with its value, line and span, then the runs after it |
| LethalgemDay3Part1.RunsStartAfter | lethalgem/day_3/part_1/src/main.rs:167-204 | the numbers found after a position all start after it |
| LethalgemDay3Part1.ScanTracksRuns | lethalgem/day_3/part_1/src/main.rs:167-204 | after any prefix of the line, the scan's state holds exactly the runs completed so far and the digits of the run in progress |
| LethalgemDay3Part1.ScanPrefixFails | lethalgem/day_3/part_1/src/main.rs:167-204 | once the scan of a line fails, reading more of it keeps the same error |
| LethalgemDay3Part1.SchematicOfPrefixFails | lethalgem/day_3/part_1/src/main.rs:136-149 | once a line fails, the schematic fails with that line's error |
| LethalgemDay3Part1.ExampleLineHead | lethalgem/day_3/part_1/src/main.rs:244-256 | `467.*114.1` starts with the number 467 spanning columns 0 to 2 |
| LethalgemDay3Part1.ExampleLineTail | lethalgem/day_3/part_1/src/main.rs:244-256 | the rest of `467.*114.1` holds 114 at columns 5 to 7 and 1 at column 9 |
| LethalgemDay3Part1.ExampleTopParts | lethalgem/day_3/part_1/src/main.rs:391-397 | of the example's first five numbers, all but 114 touch a symbol |
| LethalgemDay3Part1.ExampleBottomParts | lethalgem/day_3/part_1/src/main.rs:391-397 | of the example's last five numbers, all but 58 touch a symbol |
| LethalgemDay3Part2.TwoIndices | lethalgem/day_3/part_2/src/main.rs:87-119 | when exactly two numbers touch a gear, the adjacent indices are those two, in order |
| LethalgemDay3Part2.OneIndex | lethalgem/day_3/part_2/src/main.rs:87-119 | when exactly one number touches a gear, the adjacent indices are that one |
| LethalgemDay3Part2.ExampleGearsInLine | lethalgem/day_3/part_2/src/main.rs:255-261 | in `467.3..*.@` only the `*` at column 7 is a gear candidate |
| LethalgemDay3Part2.ExampleFirstGear | lethalgem/day_3/part_2/src/main.rs:315-320 | the example's first `*` has the ratio 467 × 35 |
| LethalgemDay3Part2.ExampleLoneStar | lethalgem/day_3/part_2/src/main.rs:315-320 | the example's `*` next to 617 alone has no ratio |
| LethalgemDay3Part2.ExampleLastGear | lethalgem/day_3/part_2/src/main.rs:315-320 | the example's last `*` has the ratio 755 × 598 |
| LethalgemDay4Part1.PointsByMatches | lethalgem/day_4/part_1/src/main.rs:42-59 | a card scores 0 with no match and 2^(m-1) with m matches; it scores 0 exactly when nothing matches |
| LethalgemDay4Part1.NoWinningNoMatches | lethalgem/day_4/part_1/src/main.rs:43-44 | with no winning numbers nothing matches |
| LethalgemDay4Part1.MatchesSnoc | lethalgem/day_4/part_1/src/main.rs:47-52 | one more scratched number adds one match exactly when it is a winning number |
| LethalgemDay4Part1.ExtraMatchDoubles | lethalgem/day_4/part_1/src/main.rs:54-58 | one more match doubles a non-zero score |
| LethalgemDay4Part1.MatchesAppend | lethalgem/day_4/part_1/src/main.rs:47-52 | matches add up over a split of the scratched numbers |
| LethalgemDay4Part1.MatchesSwap | lethalgem/day_4/part_1/src/main.rs:47-52 | the order of the scratched numbers does not change the matches |
| LethalgemDay4Part1.Card.constructor | lethalgem/day_4/part_1/src/main.rs:24-30 | a new card has no numbers and 0 points |
| LethalgemDay4Part1.Card.SetWinningNumbers | lethalgem/day_4/part_1/src/main.rs:32-35 | replaces the winning numbers, keeps the scratched ones and recomputes the points |
| LethalgemDay4Part1.Card.SetScratchedNumbers | lethalgem/day_4/part_1/src/main.rs:37-40 | replaces the scratched numbers, keeps the winning ones and recomputes the points |
| LethalgemDay4Part1.NumbersFacts | lethalgem/day_4/part_1/src/main.rs:116-125 | the list fails exactly when some token is not an `i32`, and otherwise holds each token's value in order |
| LethalgemDay4Part1.NumbersPrefixFails | lethalgem/day_4/part_1/src/main.rs:121 | the first failing token decides the error |
| LethalgemDay4Part1.ExtractNumbers | lethalgem/day_4/part_1/src/main.rs:116-125 | the loop parses the whitespace-separated tokens |
| LethalgemDay4Part1.CardNumbersErrors | lethalgem/day_4/part_1/src/main.rs:95-108 | NoColonFound exactly when there is no colon, NoPipeFound exactly when no pipe follows the colon |
| LethalgemDay4Part1.ExtractCard | lethalgem/day_4/part_1/src/main.rs:95-114 | the card holds the numbers either side of the pipe, or the line's error |
| LethalgemDay4Part1.CardNumbersAfterColon | lethalgem/day_4/part_1/src/main.rs:96-100 | only the text after the first colon matters |
| LethalgemDay4Part1.AllCardNumbersPrefixFails | lethalgem/day_4/part_1/src/main.rs:89 | the first failing line decides the error |
| LethalgemDay4Part1.ExtractCards | lethalgem/day_4/part_1/src/main.rs:86-93 | the loop builds one valid card per line, or the first line's error |
| LethalgemDay4Part1.SumCardsIsTotal | lethalgem/day_4/part_1/src/main.rs:82-84 | the sum of the cards' points is the total of the points of their numbers |
| LethalgemDay4Part1.PointsByPosition | lethalgem/day_4/part_1/src/main.rs:42-59 | the points depend only on the count of matching positions |
| LethalgemDay4Part1.ExampleEightPoints | lethalgem/day_4/part_1/src/main.rs:130-136 | card 1 of the example has 4 matches and 8 points |
| LethalgemDay4Part1.ExampleOnePoint | lethalgem/day_4/part_1/src/main.rs:138-144 | card 4 of the example has 1 match and 1 point |
| LethalgemDay4Part1.Solve | lethalgem/day_4/part_1/src/main.rs:68-74 | the answer is the total points of the parsed cards, or the first parse error |
| LethalgemDay4Part2.NewCard | lethalgem/day_4/part_2/src/main.rs:25-32 | a new card has no numbers, wins no cards and is held once |
| LethalgemDay4Part2.NextCardsWonIsMatches | lethalgem/day_4/part_2/src/main.rs:47-60 | the cards won are the matches of part one |
| LethalgemDay4Part2.SetScratchedNumbers | lethalgem/day_4/part_2/src/main.rs:38-41 | replaces the scratched numbers and recomputes the cards won |
| LethalgemDay4Part2.AddCopyWon | lethalgem/day_4/part_2/src/main.rs:43-45 | adds one copy and changes nothing else |
| LethalgemDay4Part2.UpdateCopiesWonForNextCards | lethalgem/day_4/part_2/src/main.rs:99-116 | the loop gives one more copy to each of the next cards won that exist |
| LethalgemDay4Part2.BumpedFacts | lethalgem/day_4/part_2/src/main.rs:99-116 | exactly the cards after the current one, up to the number won, gain a copy; the numbers are unchanged |
| LethalgemDay4Part2.BumpedTotal | lethalgem/day_4/part_2/src/main.rs:99-116 | the total grows by the number of next cards that exist |
| LethalgemDay4Part2.BumpTimesFacts | lethalgem/day_4/part_2/src/main.rs:86-93 | repeating the update once per copy adds that many copies to each card won |
| LethalgemDay4Part2.CalculateCopiesWon | lethalgem/day_4/part_2/src/main.rs:83-97 | the loop returns the total copies after processing every card in order |
| LethalgemDay4Part2.ProcessedSettles | lethalgem/day_4/part_2/src/main.rs:86-93 | a card's copies are final once its turn has come |
| LethalgemDay4Part2.FinalCopies | lethalgem/day_4/part_2/src/main.rs:83-97 | each card ends with the copies of the reference recurrence: one plus the copies of every earlier card that wins it |
| LethalgemDay4Part2.CopiesWonIsTotal | lethalgem/day_4/part_2/src/main.rs:83-97 | the answer is the total of the reference recurrence |
| LethalgemDay4Part2.TotalAtLeastStart | lethalgem/day_4/part_2/src/main.rs:83-97 | the total is at least the number of cards |
| LethalgemDay4Part2.Solve | lethalgem/day_4/part_2/src/main.rs:69-75 | the answer is the total of the reference recurrence |
| LethalgemDay4Part2.ExampleUpdate | lethalgem/day_4/part_2/src/main.rs:173-209 | updating for a card with 4 and then one with 2 matches gives copies 1, 2 and 3 |
| LethalgemDay4Part2.ExampleSimple | lethalgem/day_4/part_2/src/main.rs:211-230 | four cards winning 2, 1, 0, 0 end with 8 cards |
| LethalgemDay4Part2.ExampleTotal | lethalgem/day_4/part_2/src/main.rs:277-283 | the example's cards end with 30 cards |
| LethalgemDay4Part2.ExtractCard | lethalgem/day_4/part_2/src/main.rs:127-146 | a parsed card holds one copy, the numbers of part one's parse and its matches as cards won |
| LethalgemDay4Part2.ExtractCardsByLine | lethalgem/day_4/part_2/src/main.rs:118-125 | the j-th card is the card of the j-th line |
| LethalgemDay4Part1.Numbers | lethalgem/day_4/part_1/src/main.rs:116-125 | one number per token, or `ParseIntFailed` |
| LethalgemDay4Part1.ExtractSets | lethalgem/day_4/part_1/src/main.rs:102-113 | the text after the colon, split at the pipe, read onto a fresh valid card, or the first error |
| LethalgemDay4Part1.FillCard | lethalgem/day_4/part_1/src/main.rs:102-113 | a fresh valid card holding both parsed lists, or the error of the first that fails |
| LethalgemDay4Part1.AllCardNumbers | lethalgem/day_4/part_1/src/main.rs:86-93 | one card per line when every line parses |
| LethalgemDay4Part1.AllCardNumbersNext | lethalgem/day_4/part_1/src/main.rs:88-91 | one more line appends its card, or fails with its error |
| LethalgemDay4Part1.HoldsSnoc | lethalgem/day_4/part_1/src/main.rs:88-91 | pushing a valid card keeps the cards in step with the parsed numbers |
| LethalgemDay4Part1.MatchesByPosition | lethalgem/day_4/part_1/src/main.rs:47-52 | counting matches over a prefix is counting the scratched numbers found in the winning list, position by position |
| LethalgemDay4Part1.ExampleSecondCard | lethalgem/day_4/part_1/src/main.rs:157-197 | the example's second card has two matches and scores 2 |
| LethalgemDay4Part1.ExampleThirdCard | lethalgem/day_4/part_1/src/main.rs:157-197 | the example's third card has two matches |
| LethalgemDay4Part1.ExampleFifthCard | lethalgem/day_4/part_1/src/main.rs:157-197 | the example's fifth card has no match |
| LethalgemDay4Part1.ExampleSixthCard | lethalgem/day_4/part_1/src/main.rs:157-197 | the example's sixth card has no match |
| LethalgemDay4Part2.SetWinningNumbers | lethalgem/day_4/part_2/src/main.rs:34-36 | sets the winning numbers and changes no other field |
| LethalgemDay4Part2.Process | lethalgem/day_4/part_2/src/main.rs:86-93 | processing one card keeps the number of cards |
| LethalgemDay4Part2.Processed | lethalgem/day_4/part_2/src/main.rs:86-93 | processing the first k cards keeps the number of cards |
| LethalgemDay4Part2.ProcessKeepsEarlier | lethalgem/day_4/part_2/src/main.rs:99-116 | processing card i never changes card i or any card before it |
| LethalgemDay4Part2.ProcessedBefore | lethalgem/day_4/part_2/src/main.rs:86-93 | a card not yet processed has gained exactly the copies won from the cards processed before it, and nothing else changed |
| LethalgemDay4Part2.TotalMatches | lethalgem/day_4/part_2/src/main.rs:83-97 | when every card's copies equal the reference count, their total equals the reference total |
| LethalgemDay4Part2.ExtractCards | lethalgem/day_4/part_2/src/main.rs:118-125 | one card per line when every line parses |
| LethalgemDay5Part1.ParseSeedsList | lethalgem/day_5/part_1/src/main.rs:117-122 | succeeds exactly when every token after "seeds:" parses as a `u64` (digits, an optional `+`, a value below 2^64), and then lists their values in order |
| LethalgemDay5Part1.TraverseAlmanacForLocationList | lethalgem/day_5/part_1/src/main.rs:77-84 | the map's keys are exactly the seeds and each seed maps to its traversal |
| LethalgemDay5Part1.FindLowestLocation | lethalgem/day_5/part_1/src/main.rs:73-75 | None exactly for an empty map, otherwise a value of the map no larger than any other |
| LethalgemDay5Part1.LowestOfSeeds | lethalgem/day_5/part_1/src/main.rs:73-84 | None exactly when there are no seeds, otherwise the smallest traversal of some seed |
| LethalgemDay5Part1.LowestExample | lethalgem/day_5/part_1/src/main.rs:260-267 | the example's locations give Some(35) |
| LethalgemDay5Part2.BoundsOf | lethalgem/day_5/part_2/src/main.rs:205-215 | source and destination ranges start at s and d and both hold n numbers |
| LethalgemDay5Part2.MapValueUncovered | lethalgem/day_5/part_2/src/main.rs:97-110 | a value no bound covers passes through a map unchanged |
| LethalgemDay5Part2.MapValueFirst | lethalgem/day_5/part_2/src/main.rs:97-110 | the first bound covering a value maps it to its destination start plus the offset |
| LethalgemDay5Part2.FirstWithin | lethalgem/day_5/part_2/src/main.rs:97-110 | when some bound covers a value, a first such bound exists |
| LethalgemDay5Part2.TraverseAlmanacForLocation | lethalgem/day_5/part_2/src/main.rs:94-113 | the nested loop computes the traversal through every map in order (also lethalgem/day_5/part_1/src/main.rs:86-105) |
| LethalgemDay5Part2.MapValueAgrees | lethalgem/day_5/part_2/src/main.rs:94-113 | one map step agrees with mohammad's `get_from_map` on the same rules |
| LethalgemDay5Part2.FindLowestLocation | lethalgem/day_5/part_2/src/main.rs:77-92 | 0 when no range holds a seed, otherwise the smallest traversal over every seed of every range |
| LethalgemDay5Part2.ParseAllUnsigned | lethalgem/day_5/part_2/src/main.rs:126-129 | succeeds exactly when every token parses as a `u64` (digits, an optional `+`, a value below 2^64), and holds their values in order |
| LethalgemDay5Part2.ParseSeedsList | lethalgem/day_5/part_2/src/main.rs:125-159 | a parse failure, then an odd count (UnevenSeedList), are errors; otherwise pair k is the range start..=start+len-1 |
| LethalgemDay5Part2.PairUp | lethalgem/day_5/part_2/src/main.rs:139-156 | the loop turns each (start, len) pair into one range, in order |
| LethalgemDay5Part2.SeedsExample | lethalgem/day_5/part_2/src/main.rs:237-245 | "79 14 55 13" gives the ranges 79..=92 and 55..=67 |
| LethalgemDay5Part2.LineBounds | lethalgem/day_5/part_2/src/main.rs:192-222 | a line's bounds come from exactly three tokens that parse as `i64`, d, s and n |
| LethalgemDay5Part2.LineBoundsCases | lethalgem/day_5/part_2/src/main.rs:198-222 | with numeric tokens: three succeed, more give ParsedTooManyNumbers, fewer give MissingMapInfo |
| LethalgemDay5Part2.ReadBounds | lethalgem/day_5/part_2/src/main.rs:193-222 | the token loop computes the bounds of one line |
| LethalgemDay5Part2.CreateMapBounds | lethalgem/day_5/part_2/src/main.rs:191-224 | succeeds exactly when every line does, holding each line's bounds; otherwise the first failing line's error (also lethalgem/day_5/part_1/src/main.rs:153-186) |
| LethalgemDay5Part2.SectionsCoverData | lethalgem/day_5/part_2/src/main.rs:162-189 | the sections hold exactly the data lines, in order |
| LethalgemDay5Part2.MapListSections | lethalgem/day_5/part_2/src/main.rs:162-189 | a successful map list has one map per heading plus one, the i-th being the bounds of the i-th section |
| LethalgemDay5Part2.MapListFirstError | lethalgem/day_5/part_2/src/main.rs:162-189 | the map list fails exactly when some data line fails, with the first failing line's error; its maps concatenated are the bounds of all data lines |
| LethalgemDay5Part2.CreateMapList | lethalgem/day_5/part_2/src/main.rs:162-189 | the loop computes the map list, one map per heading plus one (also lethalgem/day_5/part_1/src/main.rs:124-151) |
| LethalgemDay5Part2.MapBoundsExample | lethalgem/day_5/part_1/src/main.rs:209-215 | "50 98 2" and "52 50 48" give the first map of the example |
| LethalgemDay5Part2.TraverseExample79 | lethalgem/day_5/part_2/src/main.rs:276-300 | seed 79 reaches location 82 |
| LethalgemDay5Part2.TraverseExample14 | lethalgem/day_5/part_2/src/main.rs:276-300 | seed 14 reaches location 43 |
| LethalgemDay5Part2.TraverseExample55 | lethalgem/day_5/part_2/src/main.rs:276-300 | seed 55 reaches location 86 |
| LethalgemDay5Part2.TraverseExample13 | lethalgem/day_5/part_2/src/main.rs:276-300 | seed 13 reaches location 35 |
| LethalgemDay5Part2.TraverseExample82 | lethalgem/day_5/part_2/src/main.rs:276-300 | seed 82 reaches location 46 |
| LethalgemDay5Part1.ValuesNonEmpty | lethalgem/day_5/part_1/src/main.rs:73-75 | a map with a key has a value, so the lowest location exists |
| LethalgemDay5Part2.ToRules | lethalgem/day_5/part_2/src/main.rs:94-113 | each map's bounds read as a source and destination rule with the same bounds |
| LethalgemDay5Part2.CountClosing | lethalgem/day_5/part_2/src/main.rs:162-189 | the headers that close a map are at most all the lines |
| LethalgemDay5Part2.Sections | lethalgem/day_5/part_2/src/main.rs:162-189 | the data lines grouped by map: one group per closing header plus the last, and only data lines in each |
| LethalgemDay5Part2.DataLines | lethalgem/day_5/part_2/src/main.rs:162-189 | the data lines of the input, in order |
| LethalgemDay5Part2.SectionsStable | lethalgem/day_5/part_2/src/main.rs:162-189 | a group closed by a header never changes as more lines are read |
| LethalgemDay5Part2.LineResultsStop | lethalgem/day_5/part_2/src/main.rs:192-222 | once a line of a map fails, that map fails with the same error whatever follows |
| LethalgemDay5Part2.StepClose | lethalgem/day_5/part_2/src/main.rs:169-178 | a closing header finishes the open map and starts an empty one |
| LethalgemDay5Part2.StepKeep | lethalgem/day_5/part_2/src/main.rs:179-180 | any other line joins the open map, unless it is skipped |
| LethalgemDay5Part2.MapListWhole | lethalgem/day_5/part_2/src/main.rs:162-189 | the result is the closed maps followed by the last open one, failing at the first error |
| LethalgemDay5Part2.EarlyStop | lethalgem/day_5/part_2/src/main.rs:162-189 | once a closed map holds an error, that error is the result |
| LethalgemDay7Part2.CardNew | lethalgem/day_7/part_2/src/main.rs:118-135 | a card is made exactly from 2-9, T, J, Q, K, A; any other character gives `CouldNotConstructCard` with that character |
| LethalgemDay7Part2.LabelRoundTrip | lethalgem/day_7/part_2/src/main.rs:118-135 | the label of every card is read back as that card |
| LethalgemDay7Part2.CardNewRoundTrip | lethalgem/day_7/part_2/src/main.rs:118-135 | a character that makes a card is that card's label |
| LethalgemDay7Part2.Strength | lethalgem/day_7/part_2/src/main.rs:137-153 | a card's strength lies in 0..13 and is 0 exactly for the jack |
| LethalgemDay7Part2.StrengthOrder | lethalgem/day_7/part_2/src/main.rs:137-153 | strength increases from Two to Ace apart from the jack, is injective, and puts the jack below every other card |
| LethalgemDay7Part2.TypeStrength | lethalgem/day_7/part_2/src/main.rs:167-179 | a hand type's strength lies in 1..7 |
| LethalgemDay7Part2.TypeStrengthInjective | lethalgem/day_7/part_2/src/main.rs:167-179 | different hand types have different strengths |
| LethalgemDay7Part2.CountCards | lethalgem/day_7/part_2/src/main.rs:38-48 | the loop builds the map from each card to its number of occurrences |
| LethalgemDay7Part2.TotalOccurrences | lethalgem/day_7/part_2/src/main.rs:38-48 | the counts add up to the number of cards |
| LethalgemDay7Part2.CountOfCountsIsSetSize | lethalgem/day_7/part_2/src/main.rs:71-76 | `find_count_of_counts(n, m)` is the number of kinds with exactly n copies |
| LethalgemDay7Part2.CountOfCountsExample | lethalgem/day_7/part_2/src/main.rs:260-271 | {J: 2, 2: 1} has one pair, and adding {Q: 2} makes two |
| LethalgemDay7Part2.HighestIn | lethalgem/day_7/part_2/src/main.rs:87-90 | the chosen kind has a count no other kind exceeds, or there is no kind at all |
| LethalgemDay7Part2.HasHighest | lethalgem/day_7/part_2/src/main.rs:87-90 | once the jack's entry is in the map, `max_by_key` always finds a highest kind, so `FailedToFindHighestCardCount` cannot happen |
| LethalgemDay7Part2.ConvertWithEntries | lethalgem/day_7/part_2/src/main.rs:78-97 | the jack's count is moved onto the highest kind; the jack ends at 0 unless it was the highest, every other count is kept |
| LethalgemDay7Part2.ConvertWithTotal | lethalgem/day_7/part_2/src/main.rs:78-97 | moving the jokers keeps the total number of cards |
| LethalgemDay7Part2.ConvertJokersForCount | lethalgem/day_7/part_2/src/main.rs:78-97 | the new map adds the joker count to some highest kind, keeps the total, and holds the old kinds plus the jack |
| LethalgemDay7Part2.CountOfCountsIndependentOfHighest | lethalgem/day_7/part_2/src/main.rs:87-97 | whichever highest kind `max_by_key` picks in the map's order, every count-of-counts is the same |
| LethalgemDay7Part2.ClassifyIndependentOfHighest | lethalgem/day_7/part_2/src/main.rs:37-69 | whichever highest kind is picked, the hand gets the same type |
| LethalgemDay7Part2.FindType | lethalgem/day_7/part_2/src/main.rs:37-69 | the type is the classification of the joker-converted counts |
| LethalgemDay7Part2.HandNew | lethalgem/day_7/part_2/src/main.rs:29-35 | a hand keeps its cards and bid and gets the type of its cards |
| LethalgemDay7Part2.Ranked | lethalgem/day_7/part_2/src/main.rs:230-240 | the hands sorted by descending (type strength, card strengths), a permutation of the input |
| LethalgemDay7Part2.RankHands | lethalgem/day_7/part_2/src/main.rs:230-240 | the array is sorted in place into that order |
| LethalgemDay7Part2.CalcTotalWinnings | lethalgem/day_7/part_2/src/main.rs:242-248 | the loop sums (len - i) times the bid over the ranked hands |
| LethalgemDay7Part2.TypeOfVia | lethalgem/day_7/part_2/src/main.rs:37-69 | a hand's type follows from the sets of kinds holding 5, 4, 3 and 2 cards after conversion |
| LethalgemDay7Part2.FiveJokersExample | lethalgem/day_7/part_2/src/main.rs:331-335 | 2JJJJ is five of a kind |
| LethalgemDay7Part2.FourJokersExample | lethalgem/day_7/part_2/src/main.rs:343-347 | 22JJ3 is four of a kind |
| LethalgemDay7Part2.FullHouseJokerExample | lethalgem/day_7/part_2/src/main.rs:355-357 | 2233J is a full house |
| LethalgemDay7Part2.OnePairJokerExample | lethalgem/day_7/part_2/src/main.rs:370-372 | 2J345 is one pair |
| LethalgemDay7Part2.Position | lethalgem/day_7/part_2/src/main.rs:137-153 | each card's place among the thirteen labels, from 0 to 12 |
| LethalgemDay7Part2.CardAt | lethalgem/day_7/part_2/src/main.rs:137-153 | the card at each of the thirteen places, the inverse of `Position` |
| LethalgemDay7Part2.AllCardsDistinct | lethalgem/day_7/part_2/src/main.rs:118-135 | the thirteen cards are distinct |
| LethalgemDay7Part2.AllCardsInOrder | lethalgem/day_7/part_2/src/main.rs:118-135 | the card list runs from Two to Ace |
| LethalgemDay7Part2.AllCardsComplete | lethalgem/day_7/part_2/src/main.rs:118-135 | every card is in the list |
| LethalgemDay7Part2.AllCardsCover | lethalgem/day_7/part_2/src/main.rs:38-48 | every key of a count map is a listed card |
| LethalgemDay7Part2.OccurrencesSnoc | lethalgem/day_7/part_2/src/main.rs:38-48 | counting one more card adds one to its entry |
| LethalgemDay7Part2.OccurrencesIs | lethalgem/day_7/part_2/src/main.rs:38-48 | a map with the hand's cards as keys and their multiplicities as values is the count map |
| LethalgemDay7Part2.SumOverUpdate | lethalgem/day_7/part_2/src/main.rs:78-97 | changing one listed entry changes the total by the difference |
| LethalgemDay7Part2.SumOverUnaffected | lethalgem/day_7/part_2/src/main.rs:78-97 | changing an unlisted entry leaves the total |
| LethalgemDay7Part2.SumOverEmpty | lethalgem/day_7/part_2/src/main.rs:38-48 | the empty count map totals 0 |
| LethalgemDay7Part2.TotalUpdate | lethalgem/day_7/part_2/src/main.rs:78-97 | updating one entry changes the total count by the difference |
| LethalgemDay7Part2.NumWithIsSetSize | lethalgem/day_7/part_2/src/main.rs:71-76 | counting the listed cards with a given count is the size of the set of such cards |
| LethalgemDay7Part2.NumWithCovering | lethalgem/day_7/part_2/src/main.rs:71-76 | when the list covers the map, that count is over all entries |
| LethalgemDay7Part2.NumWithUpdate | lethalgem/day_7/part_2/src/main.rs:71-97 | updating a listed entry moves it between counts |
| LethalgemDay7Part2.NumWithUnaffected | lethalgem/day_7/part_2/src/main.rs:71-97 | updating an unlisted entry changes no count |
| LethalgemDay7Part2.CountOfCountsUpdate | lethalgem/day_7/part_2/src/main.rs:71-97 | `find_count_of_counts` after one update: one less for the old count, one more for the new |
| LethalgemDay7Part2.CountOfCountsIs | lethalgem/day_7/part_2/src/main.rs:71-76 | when exactly the cards of a set hold a count, `find_count_of_counts` is that set's size |
| LethalgemDay7Part2.FirstHighest | lethalgem/day_7/part_2/src/main.rs:87-90 | some card holding the highest count once the jokers are set aside |
| LethalgemDay7Part2.ConvertWithIs | lethalgem/day_7/part_2/src/main.rs:78-97 | moving the jokers onto the highest card keeps the total and the keys, and is the conversion with that card |
| LethalgemDay7Part2.FiveJokersCounts | lethalgem/day_7/part_2/src/main.rs:331-335 | `2JJJJ` counts one Two and four Jacks |
| LethalgemDay7Part2.FourJokersCounts | lethalgem/day_7/part_2/src/main.rs:343-347 | `22JJ3` counts two Twos, two Jacks and one Three |
| LethalgemDay7Part2.FullHouseJokerCounts | lethalgem/day_7/part_2/src/main.rs:355-357 | `2233J` counts two Twos, two Threes and one Jack |
| LethalgemDay7Part2.OnePairJokerCounts | lethalgem/day_7/part_2/src/main.rs:370-372 | `2J345` counts one of each card |
| MattdamachineDay05.ConvertUnmatched | mattdamachine/Day05/part_1/src/main.rs:103-111 | a value no list's window holds passes through a map unchanged |
| MattdamachineDay05.ConvertFirstMatch | mattdamachine/Day05/part_1/src/main.rs:103-111 | the first list whose window source_start..=source_start+range holds the value shifts it, then the loop breaks |
| MattdamachineDay05.FindLocationValue | mattdamachine/Day05/part_1/src/main.rs:100-114 | the nested loop computes the walk through every map as written |
| MattdamachineDay05.OffByOneWindow | mattdamachine/Day05/part_1/src/main.rs:105 | as written, "50 98 2" also converts 100 (to 52), which the intended window leaves alone |
| MattdamachineDay05.IntendedConvertAgrees | mattdamachine/Day05/part_1/src/main.rs:103-111 | with the window shortened to range numbers, one map step equals mohammad's `get_from_map` |
| MattdamachineDay05.ListOfLine | mattdamachine/Day05/part_1/src/main.rs:83-88 | a data line gives a list from its first three numbers, when it has at least three |
| MattdamachineDay05.ParseNumbers | mattdamachine/Day05/part_1/src/main.rs:83-87 | succeeds exactly when every token parses as a `u64` (digits, an optional `+`, a value below 2^64), holding their values in order |
| MattdamachineDay05.PopulateAlmanac | mattdamachine/Day05/part_1/src/main.rs:70-98 | the loop groups the data lines into maps between headings, dropping empty maps, or fails on the first bad data line |
| MattdamachineDay05.Sections | mattdamachine/Day05/part_1/src/main.rs:74-95 | the lines between headings are data lines, every section but the last non-empty |
| MattdamachineDay05.AlmanacSections | mattdamachine/Day05/part_1/src/main.rs:76-78 | the kept sections are non-empty and hold only data lines |
| MattdamachineDay05.FlattenSnoc | mattdamachine/Day05/part_1/src/main.rs:89 | appending a map appends its lists |
| MattdamachineDay05.SectionHeaderStep | mattdamachine/Day05/part_1/src/main.rs:75-80 | a header line closes the current map, when it holds lists, and starts a new one |
| MattdamachineDay05.SectionDataStep | mattdamachine/Day05/part_1/src/main.rs:81-89 | a data line that parses adds its list to the current map |
| MattdamachineDay05.SectionEmptyStep | mattdamachine/Day05/part_1/src/main.rs:74-91 | an empty line changes nothing |
| MattdamachineDay05.HeaderStep | mattdamachine/Day05/part_1/src/main.rs:75-80 | after a header every data line so far has parsed, the lists are kept in order and no pushed map is empty |
| MattdamachineDay05.DataStep | mattdamachine/Day05/part_1/src/main.rs:81-89 | the same invariant after a data line that parses |
| MattdamachineDay05.EmptyStep | mattdamachine/Day05/part_1/src/main.rs:74-91 | the same invariant after an empty line |
| MattdamachineDay05.DataLinesParseStep | mattdamachine/Day05/part_1/src/main.rs:83-87 | every data line of a longer prefix parses when the new line does |
| MattdamachineDay05.DataListsStep | mattdamachine/Day05/part_1/src/main.rs:81-89 | the lists read from a prefix grow by the new line's list exactly when it is a data line that parses |
| MattdamachineDay07.From | mattdamachine/Day07/part_01/src/main.rs:59-76 | a character has a card value exactly when it is one of the thirteen labels; any other reaches `unreachable!` |
| MattdamachineDay07.FromEnum | mattdamachine/Day07/part_01/src/main.rs:77-93 | a card value is numbered between 2 and 14 |
| MattdamachineDay07.LabelsValued | mattdamachine/Day07/part_01/src/main.rs:59-93 | the labels 2..9, T, J, Q, K, A are numbered 2..14 in order |
| MattdamachineDay07.NewHand | mattdamachine/Day07/part_01/src/main.rs:33-39 | a new hand keeps its cards and bid and starts with type 0 |
| MattdamachineDay07.Scan | mattdamachine/Day07/part_01/src/main.rs:137-168 | the scan of the counts yields a type number of at most 7, or 0 when no count decides |
| MattdamachineDay07.FindHandType | mattdamachine/Day07/part_01/src/main.rs:123-176 | the hand's type becomes the first deciding count's type in the map's iteration order, or 1 (high card) when none decides; cards and bid are kept |
| MattdamachineDay07.ScanUniform | mattdamachine/Day07/part_01/src/main.rs:137-168 | when every count decides the same type or nothing, the scan finds that type exactly when some count decides it |
| MattdamachineDay07.WalkMeetsShape | mattdamachine/Day07/part_01/src/main.rs:124-137 | whatever the iteration order, the walk visits one entry per distinct card, and its counts are exactly the hand's counts |
| MattdamachineDay07.ScanIndependentOfOrder | mattdamachine/Day07/part_01/src/main.rs:137-168 | on a five-card hand the scan's result does not depend on the map's iteration order: it is the type of the hand's sorted counts |
| MattdamachineDay07.ScanOnShape | mattdamachine/Day07/part_01/src/main.rs:137-168 | scanning counts that are exactly a classified shape gives that shape's type number |
| MattdamachineDay07.NewHandType | mattdamachine/Day07/part_01/src/main.rs:123-176 | a fresh five-card hand is typed 1 + the discriminant mohammad/day07 part 1 gives it, so both solvers rank hands alike |
| MattdamachineDay07.TypeHands | mattdamachine/Day07/part_01/src/main.rs:192-194 | every hand gets its type, in place of order |
| MattdamachineDay07.SumRanked | mattdamachine/Day07/part_01/src/main.rs:211-214 | the loop sums (i + 1) times the bid over the sorted hands |
| MattdamachineDay07.Run | mattdamachine/Day07/part_01/src/main.rs:184-219 | the answer is the total winnings of the typed hands sorted by (type, card values) |
| Counting.TallyFacts | mohammad/day07/part_1/src/main.rs:20-24 | the counting map has distinct keys and positive counts, records each value's number of occurrences, and its counts add up to the hand's size |
| Counting.BumpFacts | mohammad/day07/part_1/src/main.rs:23 | one `entry(..).and_modify(..).or_insert(1)` adds one to the counted value's count and leaves every other count alone |
| Counting.SortedCountsFacts | mohammad/day07/part_1/src/main.rs:26-27 | the counts sorted ascending are positive and keep their total |
| Counting.ShapeFacts | mohammad/day07/part_1/src/main.rs:26-27 | a hand's sorted counts are ascending, positive, add up to its size, and are a permutation of the map's values |
| Sorting.SortBy | mohammad/day07/part_1/src/main.rs:74 | the result is sorted by the key and is a permutation of the input |
| Sorting.Insert | mohammad/day07/part_1/src/main.rs:74 | inserting into a sorted sequence keeps it sorted and adds exactly that element |
| Sorting.SortedUnique | mohammad/day07/part_1/src/main.rs:74 | when keys are distinct, two sorted permutations of the same elements are equal, so any sort gives the same order |
| Sorting.LexTotal | mohammad/day07/part_1/src/main.rs:74 | the lexicographic comparison of value vectors is total |
| Sorting.LexTransitive | mohammad/day07/part_1/src/main.rs:74 | the lexicographic comparison of value vectors is transitive |
| Sorting.LexAntisymmetric | mohammad/day07/part_1/src/main.rs:74 | vectors that compare both ways are equal |
| Counting.Counts | mohammad/day07/part_1/src/main.rs:26 | one count per card entry, in order |
| Counting.SumOfCounts | mohammad/day07/part_1/src/main.rs:20-26 | the collected counts add up to the tally's total |
| Counting.SumInsert | mohammad/day07/part_1/src/main.rs:27 | inserting a count into a sorted list adds it to the sum |
| Counting.SumSorted | mohammad/day07/part_1/src/main.rs:27 | sorting the counts keeps their sum |
| Counting.SumAtLeastLength | mohammad/day07/part_1/src/main.rs:29-38 | positive counts sum to at least their number, which bounds the shapes a five-card hand can have |
| Sorting.BeforeTotal | mohammad/day07/part_1/src/main.rs:74 | any two elements are ordered one way or the other by their key |
| Sorting.BeforeTransitive | mohammad/day07/part_1/src/main.rs:74 | the key order is transitive |
| Sorting.PrependSorted | mohammad/day07/part_1/src/main.rs:74 | an element ordered before every element of a sorted list can head it |
| Sorting.InsertedAfterHead | mohammad/day07/part_1/src/main.rs:74 | inserting after the head of a sorted list keeps it sorted and adds exactly the new element |
| Sorting.SameHead | mohammad/day07/part_1/src/main.rs:74 | two sorted orderings of the same elements with distinct keys start with the same element |
| MattdamachineDay07.Typed | mattdamachine/Day07/part_01/src/main.rs:192-194 | each hand with its type found, one per hand |
| MohammadDay01.WordsDiffer | mohammad/day01/src/main.rs:26-36 | no two of the nine number words share their first two letters |
| MohammadDay01.OneWordAt | mohammad/day01/src/main.rs:26-36 | at most one number word occurs at any position of a line |
| MohammadDay01.LastArgMinIsMin | mohammad/day01/src/main.rs:37-42 | the `<=` scan ends on a smallest index, the last of the tied ones |
| MohammadDay01.MaxChoiceIsMax | mohammad/day01/src/main.rs:74-79 | the `>=` scan ends on a largest index below the line's length, the last of the tied ones |
| MohammadDay01.SmallestPosition | mohammad/day01/src/main.rs:37-42 | the loop finds the last position of the smallest word index |
| MohammadDay01.LargestPosition | mohammad/day01/src/main.rs:74-79 | the loop finds the last position of the largest word index |
| MohammadDay01.ReplaceFirst | mohammad/day01/src/main.rs:25-60 | the method computes the specification of `replace_first` |
| MohammadDay01.ReplaceLast | mohammad/day01/src/main.rs:62-97 | the method computes the specification of `replace_last` |
| MohammadDay01.ReplacedFirstEmpty | mohammad/day01/src/main.rs:44-59 | `replace_first` gives the empty string exactly when no number word occurs |
| MohammadDay01.ReplacedFirstEarliest | mohammad/day01/src/main.rs:25-56 | the word found earliest has every occurrence replaced by its digit |
| MohammadDay01.ReplacedLastLatest | mohammad/day01/src/main.rs:62-93 | the word found latest, when not at position 0, has every occurrence replaced by its digit |
| MohammadDay01.ReplacedLastTies | mohammad/day01/src/main.rs:62-93 | when every word found is at position 0 (or none is), index 8 ("nine") is the one replaced |
| MohammadDay01.ReplacedLastUnchanged | mohammad/day01/src/main.rs:62-93 | with no number word, `replace_last` leaves a non-empty line as it is |
| MohammadDay01.EmptyLine | mohammad/day01/src/main.rs:44-59 | an empty line gives two empty strings |
| MohammadDay01.CalibrationFirstAndLast | mohammad/day01/src/main.rs:13-19 | the value is 10 times the first digit plus the last digit |
| MohammadDay01.AgreesWithLethalgem | mohammad/day01/src/main.rs:13-19 | a line has a part-one value exactly when lethalgem's `extract_number_from_line` succeeds, and the values agree |
| MohammadDay01.Part2WithoutWords | mohammad/day01/src/main.rs:104-115 | a line without number words has its part-one value in part two |
| MohammadDay01.TotalDefined | mohammad/day01/src/main.rs:12-20 | the total exists exactly when every line has a value (otherwise `unwrap` panics) |
| MohammadDay01.TotalStops | mohammad/day01/src/main.rs:12-20 | a line without a value leaves no total |
| MohammadDay01.Part1 | mohammad/day01/src/main.rs:7-23 | the loop computes the total of the lines' values, or none when some line panics |
| MohammadDay01.Part2Line | mohammad/day01/src/main.rs:105-114 | one line's value is that of `replace_first` + `replace_last` |
| MohammadDay01.Part2 | mohammad/day01/src/main.rs:99-119 | the loop computes the total of the lines' part-two values, or none |
| MohammadDay01.Part2ValuesQualify | mohammad/day01/src/main.rs:104-115 | the per-line values are exactly the part-two values of the lines |
| MohammadDay01.Numeral | mohammad/day01/src/main.rs:44-59 | the replacement for the i-th spelled digit is the single digit i + 1 |
| MohammadDay01.UnwrapOr | mohammad/day01/src/main.rs:27-35 | a found position, or the default when the word is absent |
| MohammadDay01.FirstIndices | mohammad/day01/src/main.rs:26-36 | one first position per spelled digit, nine in all |
| MohammadDay01.LastIndices | mohammad/day01/src/main.rs:63-73 | one last position per spelled digit, nine in all |
| MohammadDay01.TotalAdd | mohammad/day01/src/main.rs:12-20 | a line with a value adds it to the running total |
| MohammadDay05.RuleOfLine | mohammad/day05/src/main.rs:139-141 | the entry for "d s n" has source and destination intervals of n numbers each, starting at s and d |
| MohammadDay05.GetFromMap | mohammad/day05/src/main.rs:14-23 | the value comes back unchanged, or shifted by an entry whose source interval holds it |
| MohammadDay05.GetFromMapFirst | mohammad/day05/src/main.rs:14-23 | `get_from_map`: an uncovered value is returned unchanged; otherwise the first entry in key order whose source holds it shifts it |
| MohammadDay05.GetFromMapDisjoint | mohammad/day05/src/main.rs:14-23 | with non-overlapping sources, any entry holding the value decides it |
| MohammadDay05.RuleStepCases | mohammad/day05/src/main.rs:51-74 | the four branches of the rule loop: inside, overlapping the start, overlapping the end, or straddling the source interval |
| MohammadDay05.RuleStepFacts | mohammad/day05/src/main.rs:51-74 | one rule emits at most one non-empty piece, exactly when the intervals overlap, and pushes at most two pieces of the popped interval |
| MohammadDay05.RuleStepSound | mohammad/day05/src/main.rs:51-74 | every emitted number is the image of a number of the popped interval under that rule |
| MohammadDay05.RuleStepComplete | mohammad/day05/src/main.rs:51-74 | every number of the popped interval inside the rule's source has its image emitted |
| MohammadDay05.RuleStepRemainder | mohammad/day05/src/main.rs:57-73 | a number of the popped interval outside an overlapping rule's source is pushed back |
| MohammadDay05.RulesStepPushed | mohammad/day05/src/main.rs:50-75 | the pieces pushed for one popped interval are strictly shorter sub-intervals of it |
| MohammadDay05.PushedLighter | mohammad/day05/src/main.rs:48-80 | the worklist's weight drops at each pop, so the loop ends |
| MohammadDay05.EmittedSound | mohammad/day05/src/main.rs:50-79 | with non-overlapping sources, every emitted number is `get_from_map` of some number of the popped interval |
| MohammadDay05.EmittedComplete | mohammad/day05/src/main.rs:50-79 | every number of the popped interval has its `get_from_map` image emitted or is pushed back |
| MohammadDay05.ResolveCovers | mohammad/day05/src/main.rs:39-83 | with non-overlapping sources, the output covers exactly the `get_from_map` images of the worklist's numbers |
| MohammadDay05.ResolveNonEmpty | mohammad/day05/src/main.rs:39-83 | the output intervals are all non-empty |
| MohammadDay05.Contained | mohammad/day05/src/main.rs:51-56 | an interval inside one entry's source comes out as one interval of the same length |
| MohammadDay05.SinglePoint | mohammad/day05/src/main.rs:39-83 | a one-number interval comes out as the one-number interval of `get_from_map` |
| MohammadDay05.ResolveUntouched | mohammad/day05/src/main.rs:77-79 | intervals no entry touches come out with their total length |
| MohammadDay05.SingleRuleConservesLength | mohammad/day05/src/main.rs:39-83 | an interval touched by one entry only keeps its total length |
| MohammadDay05.NoRules | mohammad/day05/src/main.rs:77-79 | an empty stage returns the interval itself |
| MohammadDay05.ResolveCoversInterval | mohammad/day05/src/main.rs:39-83 | the range engine agrees with the pointwise map on every number of the interval |
| MohammadDay05.ProcessPopped | mohammad/day05/src/main.rs:49-79 | the per-pop loop over the entries computes what the specification emits and pushes |
| MohammadDay05.ApplyRule | mohammad/day05/src/main.rs:51-74 | one rule's branches compute the specified split, and report whether it overlapped |
| MohammadDay05.GetRangeFromMap | mohammad/day05/src/main.rs:39-83 | the worklist loop computes the specification; with non-overlapping sources it covers exactly the pointwise images of the interval |
| MohammadDay05.StageImageCovers | mohammad/day05/src/main.rs:26-36 | with non-overlapping sources, the stage's output covers exactly the pointwise images of the input intervals |
| MohammadDay05.GetRangesFromMap | mohammad/day05/src/main.rs:26-36 | the loop concatenates the outputs for every input interval, which cover exactly the pointwise images |
| MohammadDay05.PipelineCovers | mohammad/day05/src/main.rs:162-168 | after all stages the intervals cover exactly the images of the seed numbers under the composed pointwise maps |
| MohammadDay05.LowestLocationIsMinimum | mohammad/day05/src/main.rs:149-157 | part one's answer is at most `u64::MAX`, at most every seed's location, and equal to one of them unless there are no seeds |
| MohammadDay05.PartOne | mohammad/day05/src/main.rs:149-159 | the loop computes part one's minimum |
| MohammadDay05.SeedRange | mohammad/day05/src/main.rs:165 | the pair (start, len) becomes the interval start..=start+len, one longer than len |
| MohammadDay05.MinStartIsMinimum | mohammad/day05/src/main.rs:169-171 | the running minimum is at most every start and equal to one of them or the initial value |
| MohammadDay05.LowestStartIsMinimum | mohammad/day05/src/main.rs:162-174 | part two's answer is at most every location of every seed range and equal to one of them unless there are no ranges |
| MohammadDay05.PartTwo | mohammad/day05/src/main.rs:162-174 | the loop computes part two's minimum |
| MohammadDay05.WalkStages | mohammad/day05/src/main.rs:166-168 | the stage loop computes the pipeline of one seed range |
| MohammadDay05.LowerToStarts | mohammad/day05/src/main.rs:169-171 | the loop lowers the minimum to the smallest start |
| MohammadDay05.FirstCovering | mohammad/day05/src/main.rs:14-23 | when some rule's source range holds a value, there is a first such rule and no earlier rule holds it |
| MohammadDay05.RulesStepEmittedFrom | mohammad/day05/src/main.rs:50-75 | every value the rule loop emits for an interval was emitted by one of its rules |
| MohammadDay05.RulesStepEmittedInto | mohammad/day05/src/main.rs:50-75 | everything any rule emits for an interval is emitted by the rule loop |
| MohammadDay05.RulesStepPushedInto | mohammad/day05/src/main.rs:50-75 | everything any rule pushes back is pushed back by the rule loop |
| MohammadDay05.PushedInside | mohammad/day05/src/main.rs:57-73 | the pieces pushed back lie inside the interval that was popped |
| MohammadDay05.RulesStepSingle | mohammad/day05/src/main.rs:50-75 | when only one rule overlaps the interval, the rule loop does what that rule does |
| MohammadDay05.RulesStepNone | mohammad/day05/src/main.rs:50-79 | when no rule overlaps the interval, the rule loop emits and pushes nothing |
| MohammadDay05.RuleStepLength | mohammad/day05/src/main.rs:51-74 | an overlapping rule splits the interval into emitted and pushed pieces of the same total length |
| MohammadDay05.SingleRuleStep | mohammad/day05/src/main.rs:39-83 | with one overlapping rule, the emitted and pushed pieces are that rule's, and no pushed piece overlaps any rule again |
| MohammadDay05.ResolveUnfold | mohammad/day05/src/main.rs:48-80 | one pop of the stack emits the popped interval's pieces and pushes lighter ones, so the loop ends |
| MohammadDay05.StageImageNonEmpty | mohammad/day05/src/main.rs:26-36 | mapping non-empty intervals through a stage gives non-empty intervals |
| MohammadDay05.StageImageSound | mohammad/day05/src/main.rs:26-36 | every value of a stage's output intervals is the image of a value of its input intervals |
| MohammadDay05.StageImageComplete | mohammad/day05/src/main.rs:26-36 | the image of every input value lies in the stage's output intervals |
| MohammadDay05.Pipeline | mohammad/day05/src/main.rs:166-168 | passing non-empty intervals through the stages keeps them non-empty |
| MohammadDay05.PipelineSnoc | mohammad/day05/src/main.rs:166-168 | one more stage maps the previous stages' intervals |
| MohammadDay05.PointPipelineSnoc | mohammad/day05/src/main.rs:153-155 | one more stage maps a single seed's previous value through `get_from_map` |
| MohammadDay05.LowestStartBelowLast | mohammad/day05/src/main.rs:162-174 | the lowest start of a seed range's location intervals is at most the location of every seed in the range |
| MohammadDay05.LowestStartAttained | mohammad/day05/src/main.rs:162-174 | that lowest start is the starting bound or the location of some seed in the range |
| MohammadDay07Part1.GetType | mohammad/day07/part_1/src/main.rs:19-39 | the type is the slice match applied to the hand's occurrence counts sorted ascending |
| MohammadDay07Part1.RankInjective | mohammad/day07/part_1/src/main.rs:8-17 | the discriminants 0..6 are distinct, so the derived order on types is total |
| MohammadDay07Part1.ArmsCoverFive | mohammad/day07/part_1/src/main.rs:29-38 | every ascending vector of positive counts adding up to 5 matches one of the seven arms |
| MohammadDay07Part1.ArmsAddUpToFive | mohammad/day07/part_1/src/main.rs:29-38 | every arm's counts add up to 5 |
| MohammadDay07Part1.FiveCardsClassified | mohammad/day07/part_1/src/main.rs:19-39 | a hand reaches an arm exactly when it has five cards; otherwise `unreachable!` is hit |
| MohammadDay07Part1.CardValue | mohammad/day07/part_1/src/main.rs:51-61 | a label has a value exactly when it is a digit or one of T, J, Q, K, A |
| MohammadDay07Part1.CardValueInjective | mohammad/day07/part_1/src/main.rs:51-61 | two labels with the same value are the same label |
| MohammadDay07Part1.LabelsAscending | mohammad/day07/part_1/src/main.rs:51-61 | the labels 2..9, T, J, Q, K, A are valued 2..14 in order |
| MohammadDay07Part1.HandValues | mohammad/day07/part_1/src/main.rs:49-62 | the values of the hand card by card, or none when some label has no value |
| MohammadDay07Part1.Ranked | mohammad/day07/part_1/src/main.rs:73-74 | the plays sorted by (type, values) ascending, a permutation of the input |
| MohammadDay07Part1.WinningsOrderIndependent | mohammad/day07/part_1/src/main.rs:73-82 | with distinct keys, the winnings do not depend on the order the lines were read in |
| MohammadDay07Part1.PlaysPrefixFails | mohammad/day07/part_1/src/main.rs:46-71 | once a line fails to parse, the whole input fails |
| MohammadDay07Part1.ReadPlay | mohammad/day07/part_1/src/main.rs:47-70 | one line becomes the play (values, type, bid) it describes, or none |
| MohammadDay07Part1.Solution | mohammad/day07/part_1/src/main.rs:41-83 | an answer exists exactly when every line parses, and it is the sum of rank times bid over the sorted plays |
| MohammadDay07Part2.CardValue | mohammad/day07/part_2/src/main.rs:56-66 | J is valued 1, every other label as in part one |
| MohammadDay07Part2.JokerLowest | mohammad/day07/part_2/src/main.rs:58 | the joker is below every other label |
| MohammadDay07Part2.NonJoker | mohammad/day07/part_2/src/main.rs:26-30 | the filter keeps no entry for the joker value 1 |
| MohammadDay07Part2.GetType | mohammad/day07/part_2/src/main.rs:19-44 | the type is the joker-aware match applied to the sorted counts of the non-joker values |
| MohammadDay07Part2.NonJokerFacts | mohammad/day07/part_2/src/main.rs:26-30 | the kept counts are positive, add up to at most the hand's size, and are all the counts when there is no joker |
| MohammadDay07Part2.JokerShapeFacts | mohammad/day07/part_2/src/main.rs:26-31 | the sorted non-joker counts are ascending, positive and add up to at most the hand's size |
| MohammadDay07Part2.ArmsCoverUpToFive | mohammad/day07/part_2/src/main.rs:34-43 | every ascending vector of positive counts adding up to at most 5 matches an arm |
| MohammadDay07Part2.ArmsAgreeOnFive | mohammad/day07/part_2/src/main.rs:34-43 | on counts adding up to 5 the joker-aware match picks part one's type |
| MohammadDay07Part2.AtMostFiveCardsClassified | mohammad/day07/part_2/src/main.rs:19-44 | every hand of at most five cards gets a type |
| MohammadDay07Part2.AgreesWithoutJokers | mohammad/day07/part_2/src/main.rs:19-44 | without jokers, the type of a five-card hand is part one's |
| MohammadDay07Part2.HandValues | mohammad/day07/part_2/src/main.rs:54-67 | the values of the hand with J as 1, or none when some label has no value |
| MohammadDay07Part2.PlaysPrefixFails | mohammad/day07/part_2/src/main.rs:51-76 | once a line fails to parse, the whole input fails |
| MohammadDay07Part2.ReadPlay | mohammad/day07/part_2/src/main.rs:52-75 | one line becomes the play it describes, or none |
| MohammadDay07Part2.Solution | mohammad/day07/part_2/src/main.rs:46-88 | an answer exists exactly when every line parses, and it is the winnings of the sorted plays |
| MohammadDay07Part1.Rank | mohammad/day07/part_1/src/main.rs:8-17 | the discriminant of each hand type, 0 for a high card up to 6 for five of a kind |
| MohammadDay12.NotDotsAppend | mohammad/day12/src/main.rs:8-16 | the cells that are not '.' add up over a concatenation |
| MohammadDay12.PieceLengthsAppend | mohammad/day12/src/main.rs:13 | the lengths of the non-empty pieces add up over a concatenation |
| MohammadDay12.GroupsCoverNotDots | mohammad/day12/src/main.rs:8-16 | the group sizes of a candidate sum to its cells that are not '.' |
| MohammadDay12.NoDotGroup | mohammad/day12/src/main.rs:12-13 | a candidate without '.' is one group covering it |
| MohammadDay12.OnePiece | mohammad/day12/src/main.rs:13 | one piece contributes its length, or nothing when empty |
| MohammadDay12.DotGroups | mohammad/day12/src/main.rs:12-13 | the groups before the first '.' and after it cover the cells that are not '.' |
| MohammadDay12.GroupsAfterDot | mohammad/day12/src/main.rs:12-13 | a '.' ends a group: the groups are the head's group followed by those of the rest |
| MohammadDay12.NotDotsAfterDot | mohammad/day12/src/main.rs:12-13 | a head without '.' counts wholly as not '.' |
| MohammadDay12.SumAppend | mohammad/day12/src/main.rs:29 | the sum of the amounts adds up over a concatenation |
| MohammadDay12.ValidDamagedCount | mohammad/day12/src/main.rs:8-16 | a valid candidate of '.' and '#' has exactly as many '#' as the amounts add up to |
| MohammadDay12.OnlyTwo | mohammad/day12/src/main.rs:45-49 | a candidate of '.' and '#' splits into those two counts |
| MohammadDay12.UnknownsUpTo | mohammad/day12/src/main.rs:21-27 | the unknowns listed are exactly the '?' positions before n, in increasing order |
| MohammadDay12.Prepend | mohammad/day12/src/main.rs:34-37 | each selection gains the element in front |
| MohammadDay12.CombinationsCount | mohammad/day12/src/main.rs:34-37 | there are n choose k combinations |
| MohammadDay12.PrependSelection | mohammad/day12/src/main.rs:34-37 | putting a smaller element in front of a selection gives a selection one larger |
| MohammadDay12.SelectionWiden | mohammad/day12/src/main.rs:34-37 | a selection of a tail is a selection of the whole list |
| MohammadDay12.CombinationsShape | mohammad/day12/src/main.rs:34-37 | each combination picks k elements of the list in order |
| MohammadDay12.CombinationsDistinct | mohammad/day12/src/main.rs:34-37 | no combination is produced twice |
| MohammadDay12.Fill | mohammad/day12/src/main.rs:41-49 | a candidate has the record's length |
| MohammadDay12.MarkDamaged | mohammad/day12/src/main.rs:42-44 | marking damaged keeps the record's length |
| MohammadDay12.CountValid | mohammad/day12/src/main.rs:39-53 | at most one arrangement per combination |
| MohammadDay12.Candidate | mohammad/day12/src/main.rs:41-49 | the copy of the record with the combination's cells damaged and the other unknowns operational |
| MohammadDay12.Survey | mohammad/day12/src/main.rs:19-27 | the first loop lists the unknown positions and counts the damaged cells |
| MohammadDay12.CountCandidates | mohammad/day12/src/main.rs:39-53 | the loop counts the combinations whose candidate is valid |
| MohammadDay12.ComputeArrangements | mohammad/day12/src/main.rs:18-55 | the result is 0 when more cells are damaged than the amounts allow, else the number of valid candidates over all combinations |
| MohammadDay12.CandidateShape | mohammad/day12/src/main.rs:34-49 | a candidate has no unknowns, its damaged unknowns are exactly the combination, and its known cells are unchanged |
| MohammadDay12.ArrangementsBound | mohammad/day12/src/main.rs:29-37 | no arrangement when the amounts are fewer than the damaged cells, else at most (unknowns choose missing) |
| MohammadDay12.NoUnknownsListed | mohammad/day12/src/main.rs:21-27 | a record without '?' lists no unknowns |
| MohammadDay12.CountOne | mohammad/day12/src/main.rs:39-53 | the single empty combination counts 1 exactly when the record itself is valid |
| MohammadDay12.NoUnknowns | mohammad/day12/src/main.rs:18-55 | a record without unknowns has one arrangement if valid, none otherwise |
| MohammadDay12.ParseAmounts | mohammad/day12/src/main.rs:67-70 | the amounts parse exactly when every piece is a number, and then they are those numbers in order |
| MohammadDay12.ParseLine | mohammad/day12/src/main.rs:65-70 | a line parses exactly when it has two words and the second is a list of numbers; the record is the first word |
| MohammadDay12.LineArrangements | mohammad/day12/src/main.rs:64-72 | a line's count exists exactly when it parses, and is then the record's arrangements |
| MohammadDay12.LineResult | mohammad/day12/src/main.rs:64-72 | one line's count, or a panic on a bad line |
| MohammadDay12.Part1 | mohammad/day12/src/main.rs:57-77 | the answer is the sum of every line's arrangements, or a panic on the first bad line |
| MohammadDay12.TotalStep | mohammad/day12/src/main.rs:72-73 | one more line adds its arrangements to the total |
| MohammadDay12.NoTotalAfter | mohammad/day12/src/main.rs:64-70 | a bad line makes every longer run panic |
| MohammadDay12.NoTotalFrom | mohammad/day12/src/main.rs:64-70 | a bad line makes any run that reads it panic |
| MohammadDay13.Reach | mohammad/day13/src/main.rs:18 | the number of mirrored pairs stays on the line on both sides of the gap |
| MohammadDay13.SmudgesUpToMeans | mohammad/day13/src/main.rs:16-26 | a pair counted in the first n rows is exactly a differing mirrored pair of such a row |
| MohammadDay13.SmudgesMeans | mohammad/day13/src/main.rs:16-26 | a smudge is exactly a mirrored pair of cells across the column gap that differ |
| MohammadDay13.NoSmudgesMeansMirror | mohammad/day13/src/main.rs:27-33 | no smudge exactly when every row is mirrored across the gap, within the pattern |
| MohammadDay13.OneSmudgeMeans | mohammad/day13/src/main.rs:27-28 | exactly one smudge when exactly one mirrored pair differs |
| MohammadDay13.OnlyDifferingSmudges | mohammad/day13/src/main.rs:16-26 | when only one pair differs, it is the only smudge |
| MohammadDay13.RowSmudgesStep | mohammad/day13/src/main.rs:18-24 | comparing one more pair adds it exactly when it differs |
| MohammadDay13.CompareStep | mohammad/day13/src/main.rs:18-24 | the loop's comparisons so far grow by the pair just compared when it differs |
| MohammadDay13.ComparedSmudges | mohammad/day13/src/main.rs:16-26 | every pair found so far is a smudge of the whole pattern |
| MohammadDay13.RowDone | mohammad/day13/src/main.rs:16-25 | a finished row adds all its smudges |
| MohammadDay13.SmudgeFound | mohammad/day13/src/main.rs:19-23 | a differing pair adds one to the count |
| MohammadDay13.PairMatches | mohammad/day13/src/main.rs:19 | a matching pair adds nothing |
| MohammadDay13.SecondSmudge | mohammad/day13/src/main.rs:20-22 | returning Bad on a second differing pair is right: the pattern has at least two smudges |
| MohammadDay13.CompareRow | mohammad/day13/src/main.rs:17-25 | one row's inner loop either finds a second smudge or keeps the count equal to the smudges so far |
| MohammadDay13.CheckMirrorAtCol | mohammad/day13/src/main.rs:14-34 | the verdict is Valid for no smudge, AlmostValid for one, Bad for more |
| MohammadDay13.ColumnOf | mohammad/day13/src/main.rs:38-41 | column j of the pattern, top to bottom |
| MohammadDay13.Transpose | mohammad/day13/src/main.rs:36-48 | the transposed pattern, wide enough for every row gap |
| MohammadDay13.TransposeLine | mohammad/day13/src/main.rs:38-41 | line j of the transpose is column j of the pattern |
| MohammadDay13.CompareColumn | mohammad/day13/src/main.rs:39-47 | one column's inner loop either finds a second smudge or keeps the count equal to the smudges so far |
| MohammadDay13.CheckMirrorAtRow | mohammad/day13/src/main.rs:36-56 | the row check is the column check on the transposed pattern: Valid, AlmostValid or Bad by the number of smudges |
| MohammadDay13.RowSmudgesMeans | mohammad/day13/src/main.rs:36-48 | a smudge across a row gap is exactly a pair of cells in one column, mirrored across the gap, that differ |
| MohammadDay13.JoinedBlanks | mohammad/day13/src/main.rs:67-77 | the lines hold a blank line exactly when there is more than one pattern |
| MohammadDay13.BlankAt | mohammad/day13/src/main.rs:69-71 | a blank line sits at the same place from the end in both splittings |
| MohammadDay13.JoinedInjective | mohammad/day13/src/main.rs:65-77 | the lines determine the patterns: no two different groupings join to the same lines |
| MohammadDay13.GroupPatterns | mohammad/day13/src/main.rs:65-77 | the patterns, joined by blank lines, give back the input lines, and none holds a blank row |
| MohammadDay13.ColumnNotesStep | mohammad/day13/src/main.rs:80-86 | each vertical line with the verdict adds its column count |
| MohammadDay13.RowNotesStep | mohammad/day13/src/main.rs:87-93 | each horizontal line with the verdict adds 100 times its row count |
| MohammadDay13.SummarizeColumns | mohammad/day13/src/main.rs:80-86 | the vertical lines add i+1 to part 1 when valid and to part 2 when almost valid |
| MohammadDay13.SummarizeRows | mohammad/day13/src/main.rs:87-93 | the horizontal lines add 100(i+1) to part 1 when valid and to part 2 when almost valid |
| MohammadDay13.SummarizePattern | mohammad/day13/src/main.rs:79-93 | one pattern adds its notes for each part |
| MohammadDay13.Summarize | mohammad/day13/src/main.rs:79-97 | part 1 sums the notes of the lines without smudge, part 2 of the lines with exactly one, over all patterns |
| MohammadDay14.Swapped | mohammad/day14/src/main.rs:9-13 | the two cells are exchanged, every other cell is unchanged, and the line is a permutation of the old one |
| MohammadDay14.RoundsSplit | mohammad/day14/src/main.rs:15-45 | the round rocks of a prefix add up over a split |
| MohammadDay14.RoundsNext | mohammad/day14/src/main.rs:15-45 | one more cell adds one round rock exactly when it is 'O' |
| MohammadDay14.RoundsGrow | mohammad/day14/src/main.rs:15-45 | a round rock at k adds to the count before any earlier point |
| MohammadDay14.RoundsGrowTo | mohammad/day14/src/main.rs:15-45 | a round rock at k adds to the count before any later point |
| MohammadDay14.LineKept | mohammad/day14/src/main.rs:9-13 | a permutation of a line of 'O', '#' and '.' is such a line |
| MohammadDay14.NextRock | mohammad/day14/src/main.rs:56 | the first cube rock at or after k, or the end, with no cube rock between |
| MohammadDay14.PreviousRock | mohammad/day14/src/main.rs:23 | just after the last cube rock before k, or the start, with no cube rock between |
| MohammadDay14.GroundRunToEnd | mohammad/day14/src/main.rs:15-45 | settled towards the start, ground is followed only by ground up to the next cube rock |
| MohammadDay14.GroundRunToStart | mohammad/day14/src/main.rs:47-76 | settled towards the end, ground is preceded only by ground back to the previous cube rock |
| MohammadDay14.NotGroundAfterRounds | mohammad/day14/src/main.rs:15-45 | settled towards the start, a cell with round rocks after it before the next cube rock is not ground |
| MohammadDay14.NotGroundBeforeRounds | mohammad/day14/src/main.rs:47-76 | settled towards the end, a cell with round rocks before it after the previous cube rock is not ground |
| MohammadDay14.RoundsAtBoundary | mohammad/day14/src/main.rs:15-76 | at each cube rock two tilted lines hold as many round rocks before it |
| MohammadDay14.NoSplitAtStart | mohammad/day14/src/main.rs:15-45 | two lines rolled to the start that agree before k cannot hold a round rock and ground at k |
| MohammadDay14.RoundsBeforeSuffix | mohammad/day14/src/main.rs:47-76 | lines with as many round rocks that agree from j on have as many before j |
| MohammadDay14.RoundsAfterBoundary | mohammad/day14/src/main.rs:47-76 | just after each cube rock two tilted lines hold as many round rocks before it |
| MohammadDay14.NoSplitAtEnd | mohammad/day14/src/main.rs:47-76 | two lines rolled to the end that agree after k cannot hold a round rock and ground at k |
| MohammadDay14.RolledToStartUnique | mohammad/day14/src/main.rs:15-45 | rolling a line north or west has exactly one outcome |
| MohammadDay14.RolledToEndUnique | mohammad/day14/src/main.rs:47-76 | rolling a line south or east has exactly one outcome |
| MohammadDay14.SwapPrefix | mohammad/day14/src/main.rs:9-13 | a swap beyond a prefix leaves it unchanged, and one inside it permutes it |
| MohammadDay14.StartBegin | mohammad/day14/src/main.rs:16-17 | the tilt starts with nothing settled and the stop at the start |
| MohammadDay14.StartGround | mohammad/day14/src/main.rs:41-43 | ground keeps the tilt's progress |
| MohammadDay14.StartRock | mohammad/day14/src/main.rs:40 | a cube rock becomes the new stop, and everything before it is settled |
| MohammadDay14.StartRoundAtStart | mohammad/day14/src/main.rs:21-22 | a round rock in the first cell stays and is settled |
| MohammadDay14.SwapKept | mohammad/day14/src/main.rs:26-31 | swapping a round rock with ground, with no cube rock between, keeps the permutation and the counts before each cube rock |
| MohammadDay14.StartRoundMoves | mohammad/day14/src/main.rs:21-39 | the round rock moves past ground only to just after a rock or the start, and everything before it is settled |
| MohammadDay14.StopAboveMoves | mohammad/day14/src/main.rs:26-33 | after the move the stop is still the last cube rock before the scan |
| MohammadDay14.StartEnd | mohammad/day14/src/main.rs:19-44 | when the loop ends the line is rolled to its start |
| MohammadDay14.EndBegin | mohammad/day14/src/main.rs:48-50 | the tilt starts with nothing settled and the stop at the last cell |
| MohammadDay14.EndGround | mohammad/day14/src/main.rs:72-74 | ground keeps the tilt's progress |
| MohammadDay14.EndRock | mohammad/day14/src/main.rs:71 | a cube rock becomes the new stop |
| MohammadDay14.EndRoundMoves | mohammad/day14/src/main.rs:54-70 | the round rock moves past ground only to just before a rock or the end, and everything after it is settled |
| MohammadDay14.StopBelowMoves | mohammad/day14/src/main.rs:56-68 | after the move the stop is still the first cube rock after the scan |
| MohammadDay14.EndRoundSettles | mohammad/day14/src/main.rs:54-70 | the round rock's move keeps the permutation, the counts before each cube rock and the settled suffix |
| MohammadDay14.SwappedSelf | mohammad/day14/src/main.rs:9-13 | swapping a cell with itself changes nothing |
| MohammadDay14.EndEnd | mohammad/day14/src/main.rs:51-75 | when the loop ends the line is rolled to its end |
| MohammadDay14.Column | mohammad/day14/src/main.rs:20 | column c of the platform, north to south |
| MohammadDay14.Row | mohammad/day14/src/main.rs:83 | row r of the platform, west to east |
| MohammadDay14.Swap | mohammad/day14/src/main.rs:9-13 | the two cells are exchanged and every other cell keeps its content |
| MohammadDay14.ScanNorth | mohammad/day14/src/main.rs:23-37 | the scan up from idx finds the first cell after a round or cube rock, or the top, with only ground between |
| MohammadDay14.RollNorth | mohammad/day14/src/main.rs:21-39 | the round rock is swapped into place and the tilt's progress is kept |
| MohammadDay14.NorthStep | mohammad/day14/src/main.rs:20-43 | one pass of the loop keeps the tilt's progress |
| MohammadDay14.TiltNorth | mohammad/day14/src/main.rs:15-45 | column col is rolled north and no other column changes |
| MohammadDay14.ScanWest | mohammad/day14/src/main.rs:86-98 | the scan west from idx finds the first cell after a round or cube rock, or the west edge, with only ground between |
| MohammadDay14.RollWest | mohammad/day14/src/main.rs:84-100 | the round rock is swapped into place and the tilt's progress is kept |
| MohammadDay14.WestStep | mohammad/day14/src/main.rs:83-104 | one pass of the loop keeps the tilt's progress |
| MohammadDay14.TiltWest | mohammad/day14/src/main.rs:78-106 | row row is rolled west and no other row changes |
| MohammadDay14.ScanSouth | mohammad/day14/src/main.rs:56-68 | the scan down from idx finds the last ground before a round or cube rock, or the bottom |
| MohammadDay14.RollSouth | mohammad/day14/src/main.rs:54-70 | the round rock is swapped into place and the tilt's progress is kept |
| MohammadDay14.SouthStep | mohammad/day14/src/main.rs:52-74 | one pass of the loop keeps the tilt's progress |
| MohammadDay14.TiltSouth | mohammad/day14/src/main.rs:47-76 | column col is rolled south and no other column changes |
| MohammadDay14.ScanEast | mohammad/day14/src/main.rs:117-129 | the scan east from idx finds the last ground before a round or cube rock, or the east edge |
| MohammadDay14.RollEast | mohammad/day14/src/main.rs:115-131 | the round rock is swapped into place and the tilt's progress is kept |
| MohammadDay14.EastStep | mohammad/day14/src/main.rs:113-135 | one pass of the loop keeps the tilt's progress |
| MohammadDay14.TiltEast | mohammad/day14/src/main.rs:108-137 | row row is rolled east and no other row changes |
| MohammadDay14.Cells | mohammad/day14/src/main.rs:172-175 | the platform's rows, north to south |
| MohammadDay14.ColumnOf | mohammad/day14/src/main.rs:160 | column c of a grid of rows |
| MohammadDay14.ColumnOfCells | mohammad/day14/src/main.rs:160 | a column of the rows is the column of the platform |
| MohammadDay14.PlatformColumn | mohammad/day14/src/main.rs:15-45 | every column of a platform is a line of 'O', '#' and '.' |
| MohammadDay14.ColumnRoundsAddRow | mohammad/day14/src/main.rs:155-166 | a row adds its round rocks to the count over the columns |
| MohammadDay14.RowsColumnsExchange | mohammad/day14/src/main.rs:155-166 | counting round rocks row by row or column by column gives the same total |
| MohammadDay14.NoRowsNoRounds | mohammad/day14/src/main.rs:155-166 | no rows hold no round rocks |
| MohammadDay14.RowRoundsPrefix | mohammad/day14/src/main.rs:155-166 | the count over the first n rows ignores later rows |
| MohammadDay14.RowRoundsAgree | mohammad/day14/src/main.rs:144-152 | grids whose rows hold as many round rocks hold as many in all |
| MohammadDay14.ColumnRoundsAgree | mohammad/day14/src/main.rs:141-149 | grids whose columns hold as many round rocks hold as many in all |
| MohammadDay14.ColumnTiltKeeps | mohammad/day14/src/main.rs:141-149 | tilting every column north or south keeps the platform, its cube rocks and its number of round rocks |
| MohammadDay14.RowTiltKeeps | mohammad/day14/src/main.rs:144-152 | tilting every row west or east keeps the platform, its cube rocks and its number of round rocks |
| MohammadDay14.SameRockCellsTrans | mohammad/day14/src/main.rs:139-153 | cube rocks staying put is transitive |
| MohammadDay14.TiltAllNorth | mohammad/day14/src/main.rs:141-143 | every column is rolled north |
| MohammadDay14.TiltAllSouth | mohammad/day14/src/main.rs:147-149 | every column is rolled south |
| MohammadDay14.TiltAllWest | mohammad/day14/src/main.rs:144-146 | every row is rolled west |
| MohammadDay14.TiltAllEast | mohammad/day14/src/main.rs:150-152 | every row is rolled east |
| MohammadDay14.Cycle | mohammad/day14/src/main.rs:139-153 | one spin tilts north, west, south, east in turn, keeping the cube rocks and the number of round rocks |
| MohammadDay14.LoadUpToBounds | mohammad/day14/src/main.rs:158-163 | each round rock weighs between 1 and the column length |
| MohammadDay14.ColumnLoadBounds | mohammad/day14/src/main.rs:158-163 | a column's load lies between its round rocks and that times its length, and is 0 exactly when it has none |
| MohammadDay14.LoadOfBounds | mohammad/day14/src/main.rs:155-166 | the load of the first n columns lies between their round rocks and that times dim |
| MohammadDay14.BoundsAdd | mohammad/day14/src/main.rs:155-166 | such bounds add up |
| MohammadDay14.LoadBounds | mohammad/day14/src/main.rs:155-166 | the load lies between the number of round rocks and dim times it |
| MohammadDay14.CalculateLoad | mohammad/day14/src/main.rs:155-166 | the result is the sum over round rocks of dim minus their row |
| MohammadDay14.NorthLoad | mohammad/day14/src/main.rs:177-182 | part 1 tilts every column north and returns the load of the result |
| MohammadDay21.AdjacentIsDistanceOne | mohammad/day21/src/main.rs:10-30 | two plots are adjacent exactly when their Manhattan distance is 1 |
| MohammadDay21.Up | mohammad/day21/src/main.rs:13-15 | at most the plot above |
| MohammadDay21.Down | mohammad/day21/src/main.rs:17-19 | at most the plot below |
| MohammadDay21.Left | mohammad/day21/src/main.rs:21-23 | at most the plot to the left |
| MohammadDay21.Right | mohammad/day21/src/main.rs:25-27 | at most the plot to the right |
| MohammadDay21.Neighbors | mohammad/day21/src/main.rs:10-30 | every neighbour is an in-bounds cell that is not a rock |
| MohammadDay21.NeighborsAtMostFour | mohammad/day21/src/main.rs:10-30 | there are at most four neighbours |
| MohammadDay21.UnionAtMost | mohammad/day21/src/main.rs:10-30 | a union is no larger than its parts together |
| MohammadDay21.NeighborsExactly | mohammad/day21/src/main.rs:10-30 | a cell is a neighbour exactly when it is adjacent, on the grid and not a rock |
| MohammadDay21.Reach | mohammad/day21/src/main.rs:50-53 | the next front holds only open plots |
| MohammadDay21.Frontier | mohammad/day21/src/main.rs:48-55 | the front after k steps holds only open plots |
| MohammadDay21.ReachAdd | mohammad/day21/src/main.rs:51-53 | one more plot of the front adds exactly its neighbours |
| MohammadDay21.NextFront | mohammad/day21/src/main.rs:50-54 | the loop collects the union of the neighbours of the front |
| MohammadDay21.Reachable | mohammad/day21/src/main.rs:48-57 | the count is the number of plots in the front after 64 steps |
| MohammadDay21.AdjacentDistance | mohammad/day21/src/main.rs:10-30 | a step changes the distance from the start by exactly one |
| MohammadDay21.FrontierParity | mohammad/day21/src/main.rs:48-55 | every plot of the front after k steps is within k of the start and at a distance of the same parity as k |
| MohammadDay21.FirstFrontierParity | mohammad/day21/src/main.rs:48 | the first front lies at distance 1 |
| MohammadDay21.NextFrontierParity | mohammad/day21/src/main.rs:49-55 | the parity property passes from one front to the next |
| MohammadDay21.FirstParity | mohammad/day21/src/main.rs:48 | a neighbour of the start lies at distance 1 |
| MohammadDay21.ReachParity | mohammad/day21/src/main.rs:50-53 | a plot reached from the front keeps the parity property one step on |
| MohammadDay21.NextStep | mohammad/day21/src/main.rs:52 | a neighbour of a plot keeps the parity property one step on |
| MohammadDay21.ParityStep | mohammad/day21/src/main.rs:49-55 | a distance that changes by one keeps the bound and the parity one step on |
| MohammadDay21.WalledIn | mohammad/day21/src/main.rs:48-55 | a start with no open neighbour has an empty front at every step |
| MohammadDay21.StartIn | mohammad/day21/src/main.rs:37-44 | the start is (0, 0) or an 'S' cell of the first n rows |
| MohammadDay21.FirstS | mohammad/day21/src/main.rs:40 | the first 'S' of a line |
| MohammadDay21.FindStart | mohammad/day21/src/main.rs:37-44 | the loop over the lines finds the start |
| MohammadDay21.StartIsLast | mohammad/day21/src/main.rs:40-42 | no later row holds an 'S': the last line with one wins |
| MohammadDay21.Part1 | mohammad/day21/src/main.rs:32-58 | the answer is the number of plots in the front 64 steps from the start |
| Text.Collect | lethalgem/day_15/part_2/src/main.rs:166-171 | collecting results succeeds exactly when every element is Ok, giving the values in order; otherwise it gives the error of the first Err |
| Text.CollectSnoc | lethalgem/day_9/part_2/src/main.rs:44-46 | collecting one more result keeps an earlier error, else takes the new error, else appends the value |
| Text.Each | lethalgem/day_15/part_2/src/main.rs:169 | mapping applies the function to each element, in order |
| Text.EachAppend | lethalgem/day_15/part_2/src/main.rs:169 | mapping distributes over concatenation |
| Text.CollectAppend | lethalgem/day_5/part_2/src/main.rs:126-129 | collecting a concatenation fails with the first error of either part, else joins the values |
| Text.CollectEach | lethalgem/day_4/part_1/src/main.rs:117-121 | one collected result per group |
| Text.CollectGroups | lethalgem/day_4/part_1/src/main.rs:117-121 | collecting group by group fails exactly when collecting all elements at once fails, with the same error, and otherwise gives the same values |
| Text.DigitValue | lethalgem/day_15/part_2/src/main.rs:49 | a digit's value is below 10, and is 0 exactly for '0' |
| Text.DecimalValueSnoc | lethalgem/day_2/part_1/src/main.rs:175-183 | one more digit multiplies the value by 10 and adds the digit |
| Text.Pow10 | lethalgem/day_3/part_1/src/main.rs:178 | a power of ten is at least 1 |
| Text.DecimalValueAppend | lethalgem/day_6/part_2/src/main.rs:77-94 | the value of concatenated digits is the first part shifted by the second's length plus the second |
| Text.OneDigitValue | lethalgem/day_3/part_1/src/main.rs:178 | a one-digit string has that digit's value |
| Text.TwoDigitValue | lethalgem/day_3/part_1/src/main.rs:178 | a two-digit string is ten times the first digit plus the second |
| Text.ThreeDigitValue | lethalgem/day_3/part_1/src/main.rs:178 | a three-digit string is 100, 10 and 1 times its digits |
| Text.TwoDigits | mohammad/day01/src/main.rs:16-20 | two digits parse to ten times the first plus the second |
| Text.ParseDigits | lethalgem/day_2/part_1/src/main.rs:180 | digits parse exactly when the string is non-empty and all digits |
| Text.ParseUnsigned | mattdamachine/Day05/part_1/src/main.rs:125 | a non-empty digit string parses to its decimal value, and the empty string fails |
| Text.ParseSigned | lethalgem/day_4/part_1/src/main.rs:121 | a non-empty digit string parses to its decimal value, and the empty string fails |
| Text.ParseI32 | lethalgem/day_9/part_2/src/main.rs:45 | an i32 parse stays in range, and a digit string parses exactly when its value is below 2^31 |
| Text.ParseU64 | lethalgem/day_5/part_1/src/main.rs:120 | a u64 parse stays in range, and a digit string parses exactly when its value is below 2^64 |
| Text.TokenLength | lethalgem/day_4/part_1/src/main.rs:117 | the first token is the longest prefix without whitespace |
| Text.SplitWhitespace | lethalgem/day_4/part_1/src/main.rs:117 | the words are non-empty and contain no whitespace |
| Text.IndexOf | lethalgem/day_4/part_1/src/main.rs:96 | the index of the first occurrence of a character, or the length when it is absent |
| Text.Split | mattdamachine/Day08/part_01/src/main.rs:53 | splitting gives at least one piece, and no piece holds the separator |
| Text.SplitJoin | mattdamachine/Day08/part_01/src/main.rs:53 | the pieces joined by the separator give back the string |
| Text.SplitFirst | lethalgem/day_15/part_1/src/main.rs:70-72 | the text before the first separator is the first piece, and the rest splits on |
| Text.SplitPieces | mattdamachine/Day08/part_01/src/main.rs:53-57 | there are two pieces or more exactly when the separator occurs; the first is the text before it |
| Text.SplitTwo | mattdamachine/Day08/part_01/src/main.rs:53 | a string with one separator splits into the two sides |
| Text.SplitNone | mattdamachine/Day08/part_01/src/main.rs:53 | a string without the separator is one piece |
| Text.TrimPlain | mattdamachine/Day08/part_01/src/main.rs:55 | trimming a plain name changes nothing |
| Text.TrimSpaceBefore | mattdamachine/Day08/part_01/src/main.rs:59 | a leading space is trimmed away |
| Text.TrimSpaceAfter | mattdamachine/Day08/part_01/src/main.rs:55 | a trailing space is trimmed away |
| Text.IndexOfAny | mohammad/day15/src/main.rs:41 | the index of the first character of the set, or the length |
| Text.SplitAny | mohammad/day15/src/main.rs:41 | splitting on a set of characters gives at least one piece, and no piece holds one of them |
| Text.Lines | lethalgem/day_16/part_1/src/main.rs:211 | the empty input has no lines |
| Text.SetElement | lethalgem/day_5/part_1/src/main.rs:74 | a non-empty set has an element |
| Text.MinExists | lethalgem/day_5/part_1/src/main.rs:74 | a non-empty set of numbers has a least element |
| Text.MinOf | lethalgem/day_5/part_1/src/main.rs:74 | the minimum is in the set and no larger than any element |
| Text.FilterDigits | mohammad/day01/src/main.rs:16 | only digits are kept, and the string does not grow |
| Text.FilterDigitsEmpty | mohammad/day01/src/main.rs:16 | nothing is kept exactly when the string has no digit |
| Text.FilterDigitsFirst | mohammad/day01/src/main.rs:16-18 | the first digit kept is the first digit of the string |
| Text.FilterDigitsLast | mohammad/day01/src/main.rs:16-19 | the last digit kept is the last digit of the string |
| Text.FindFrom | mohammad/day01/src/main.rs:27-35 | the first occurrence from k, with none before it, or none at all |
| Text.Find | mohammad/day01/src/main.rs:27-35 | the first occurrence of the pattern, or none anywhere |
| Text.RFindFrom | mohammad/day01/src/main.rs:64-72 | the last occurrence at or before k, or none |
| Text.RFind | mohammad/day01/src/main.rs:64-72 | the last occurrence of the pattern, or none anywhere |
| Text.FindRFindAgree | mohammad/day01/src/main.rs:27-72 | find and rfind agree on whether the pattern occurs |
| Text.ReplaceAbsent | mohammad/day01/src/main.rs:46-54 | replacing an absent pattern changes nothing |
| Text.ReplaceFirstOccurrence | mohammad/day01/src/main.rs:46-54 | replacement copies the text before the first occurrence, writes the replacement, and goes on after it |
| Text.ReplaceSkip | mohammad/day01/src/main.rs:46-54 | a character where the pattern does not start is copied |
| Text.OccursShift | mohammad/day01/src/main.rs:27-35 | an occurrence in the tail is an occurrence one place later in the string |

## Left out

- Reading the input files, printing and timing: every `main`, `run`, `solution`, `load_input` and `read_file_into_buffer`, and the error for an unreadable file. The model takes the text, lines or grid already read.
- Fixed-width integers: i32, i64, u64 and usize values are unbounded `int` and `nat`, so overflow, wrap-around and underflow panics are not modelled. Examples are `key.0 - 1` and `value.0 + (key.1 - key.0)` in mohammad/day05/src/main.rs:59-72, the `u64::MAX` start of Part One and Part Two (kept as a constant), and `len - 1` on empty input. Parsing does respect the ranges: a token is read as `u64`, `i64`, `usize` or `i32` only when its value fits.
- MohammadDay07, MohammadDay15: `usize` is taken to be 64 bits wide, so bids and focal lengths are parsed as `u64`.
- Hash map and hash set iteration order: where a result could depend on it, the order is a parameter. `LethalgemDay15Part2.CalcFocusingPower` and `MattdamachineDay07.FindHandType` take it as an `order` sequence. `LethalgemDay7Part2.ConvertJokersForCount` may pick any of the tied highest cards. Lemmas show that the results do not depend on that choice.
- MohammadDay05.GetRangeFromMap: rules of length 0 are excluded by `WellFormed` (through `RuleOfLine`, which needs a length of at least 1). A line "d s 0" makes mohammad/day05/src/main.rs:140 insert the key (s, s - 1). With s = 0 that is a u64 underflow panic. Otherwise an interval (s, b) with b ≥ s - 1 takes the fourth branch at :65-72, which pushes (s, s - 1) and (s, b) back on the stack, so the loop at :48 never ends.
- MohammadDay05: the parsing of the almanac file at mohammad/day05/src/main.rs:87-145 is not modelled. That includes the `unwrap_or(0)` on bad numbers, lines of other than three numbers, and duplicate keys overwriting earlier ones in the `BTreeMap`. A stage is given as its rules in key order.
- MohammadDay05.GetRangesFromMap, MohammadDay05.PartTwo: intervals are required to be non-empty (start ≤ end). The source only ever builds such intervals, as (s, s + len).
- MattdamachineDay08.CalculateSteps: it requires non-empty instructions, because the source's `%` panics on an empty instruction string. It takes a ghost `bound`, a step at which the walk stops, in place of a termination argument. The source loops for ever when the walk never reaches `ZZZ` or a missing node; `RepeatNeverStops` shows such a walk.
- MohammadDay08.Lcm: it requires a non-empty list, since the source reads `nums[0]`. That the result is the least common multiple is not proved, only that it is a common multiple.
- LethalgemDay5Part1.ParseSeedsList, LethalgemDay5Part2.ParseSeedsList: the seed line must have at least 6 characters, because the source slices it at `[6..]` and panics on shorter lines.
- LethalgemDay5Part2.ToRules: map bounds must be non-negative. The source casts i64 values to u64, which is not modelled for negative numbers.
- LethalgemDay5Part2: the lowest location of the example, 46, and the count of 7 maps in the example file are not proved. The example file is not part of this model. The traversal of the example seeds (79, 14, 55, 13 and 82) is proved.
- LethalgemDay7Part2: the example total of 5905 at lethalgem/day_7/part_2/src/main.rs:425-432 is not proved, because evaluating the five literal hands is too costly. The joker classification examples and the type rules behind them are proved.
- MattdamachineDay07.FindHandType: the test's list of seven hands, typed 7 to 1, is not restated. The type of every hand shape is proved (`ScanOnShape`).
- LethalgemDay4Part1: the example sum of 13 is not proved. The points of the example's cards are proved card by card.
- LethalgemDay9Part2: the `Err` for an empty `first_steps` at lethalgem/day_9/part_2/src/main.rs:76-78 cannot happen and is not modelled as a separate case.
- MattdamachineDay09: the `unwrap` panics of `populate_history_vectors` and of an empty bottom row are modelled as `None`.
- MattdamachineDay06: `extract_time_and_distance` and the product in `run` are not modelled; only `calculate_ways_to_win` is.
- Text.IsWhitespace: `split_whitespace` is modelled for ASCII whitespace only, not for the other Unicode space characters.
- MattdamachineDay10, MohammadDay10.Connected: grids must be rectangular and non-empty. Ragged lines are not modelled.
- MattdamachineDay11.ExpandUniverse: every line must be at least as long as the first, and the image must not be empty. The source panics on an empty image, and short lines make its column scan index past their end.
- LethalgemDay11Part2: the usize arithmetic of the expansion is unbounded, like the other fixed-width integers.
- MohammadDay13.SummarizePattern, MohammadDay13.Summarize: patterns must be non-empty, with a non-empty first row and no row shorter than the first. The source computes `p[0].len() - 1` and indexes the rows by the first row's length, so other patterns panic.
- MohammadDay14, MohammadDay16, MohammadDay21: grids must be square, because the source uses `grid.len()` as the bound for both rows and columns.
- MohammadDay14.ScanNorth, MohammadDay14.RollNorth, MohammadDay14.NorthStep, MohammadDay14.TiltNorth, MohammadDay14.ScanWest, MohammadDay14.RollWest, MohammadDay14.WestStep, MohammadDay14.TiltWest, MohammadDay14.ScanSouth, MohammadDay14.RollSouth, MohammadDay14.SouthStep, MohammadDay14.TiltSouth, MohammadDay14.ScanEast, MohammadDay14.RollEast, MohammadDay14.EastStep, MohammadDay14.TiltEast, MohammadDay14.TiltAllNorth, MohammadDay14.TiltAllSouth, MohammadDay14.TiltAllWest, MohammadDay14.TiltAllEast, MohammadDay14.Cycle, MohammadDay14.NorthLoad: the platform may hold only 'O', '#' and '.' (`IsLine`, `Platform`). The source's `_ => {}` arms (mohammad/day14/src/main.rs:35-41, and the same arms for the other three directions) pass over any other character. A rolling rock is swapped into the cell just past the nearest rock or cube, or into the edge cell when that cell is '.'; otherwise it stays. So the column ".XO" tilts north to "OX.", while "X.O" is left as it is. Such a cell is not ground and not a wall, so the result is not a plain roll of the rocks.
- MohammadDay14.ScanNorth: requires a platform of 'O', '#' and '.' only; the line that names all these members says what the source does with other characters.
- MohammadDay14.RollNorth: requires a platform of 'O', '#' and '.' only; the line that names all these members says what the source does with other characters.
- MohammadDay14.NorthStep: requires a platform of 'O', '#' and '.' only; the line that names all these members says what the source does with other characters.
- MohammadDay14.TiltNorth: requires a platform of 'O', '#' and '.' only; the line that names all these members says what the source does with other characters.
- MohammadDay14.ScanWest: requires a platform of 'O', '#' and '.' only; the line that names all these members says what the source does with other characters.
- MohammadDay14.RollWest: requires a platform of 'O', '#' and '.' only; the line that names all these members says what the source does with other characters.
- MohammadDay14.WestStep: requires a platform of 'O', '#' and '.' only; the line that names all these members says what the source does with other characters.
- MohammadDay14.TiltWest: requires a platform of 'O', '#' and '.' only; the line that names all these members says what the source does with other characters.
- MohammadDay14.ScanSouth: requires a platform of 'O', '#' and '.' only; the line that names all these members says what the source does with other characters.
- MohammadDay14.RollSouth: requires a platform of 'O', '#' and '.' only; the line that names all these members says what the source does with other characters.
- MohammadDay14.SouthStep: requires a platform of 'O', '#' and '.' only; the line that names all these members says what the source does with other characters.
- MohammadDay14.TiltSouth: requires a platform of 'O', '#' and '.' only; the line that names all these members says what the source does with other characters.
- MohammadDay14.ScanEast: requires a platform of 'O', '#' and '.' only; the line that names all these members says what the source does with other characters.
- MohammadDay14.RollEast: requires a platform of 'O', '#' and '.' only; the line that names all these members says what the source does with other characters.
- MohammadDay14.EastStep: requires a platform of 'O', '#' and '.' only; the line that names all these members says what the source does with other characters.
- MohammadDay14.TiltEast: requires a platform of 'O', '#' and '.' only; the line that names all these members says what the source does with other characters.
- MohammadDay14.TiltAllNorth: requires a platform of 'O', '#' and '.' only; the line that names all these members says what the source does with other characters.
- MohammadDay14.TiltAllSouth: requires a platform of 'O', '#' and '.' only; the line that names all these members says what the source does with other characters.
- MohammadDay14.TiltAllWest: requires a platform of 'O', '#' and '.' only; the line that names all these members says what the source does with other characters.
- MohammadDay14.TiltAllEast: requires a platform of 'O', '#' and '.' only; the line that names all these members says what the source does with other characters.
- MohammadDay14.Cycle: requires a platform of 'O', '#' and '.' only; the line that names all these members says what the source does with other characters.
- MohammadDay14.NorthLoad: requires a platform of 'O', '#' and '.' only; the line that names all these members says what the source does with other characters.
- MohammadDay14: the part-two cycle detection at mohammad/day14/src/main.rs:186-210 is not modelled. It relies on `DefaultHasher` values and a loop of 10^9 cycles.
- MohammadDay16: `part2` is not modelled; it reads the file and calls `energized` from every edge. The coordinates are unbounded integers rather than i32. A character other than '.', '\\', '/', '-' and '|' leaves the beam where it is, so the source loops for ever on it, and so does `InnerLoop`.
- MohammadDay21.Part1: the grid must not be empty, because the source computes `dim - 1`.
- MohammadDay10: part two and the rest of `solution`, which walks the loop, are not modelled; only `connected` is.
- MohammadDay12: itertools `combinations` is modelled as the function `Combinations`, the selections of k positions in increasing order. The i64 counter is unbounded.
- LethalgemDay16Part1.TrackBeam: when the beam reaches a splitter, the source never returns. The model returns `None` there and proves that the beam stays where it is for ever. The model returns `Underflow` where a debug build panics on `count() - 1`, so `FailedToFindXBound` is never returned, which `FindWallBounds` proves. In a release build that subtraction wraps on empty input, and the source can then return the error.
- LethalgemDay16Part1: the fourth `track_beam` test, which crosses several rows and expects 14, is not proved. The three one-row tests are.
- LethalgemDay3Part2.GearAdjacent: it is modelled as written, testing only the first and last column of a number. `WideNumberMissed` shows what that misses.

## Findings

| source | as written | input that shows it | evidently intended | confidence | as-written member | corrected member |
|---|---|---|---|---|---|---|
| mattdamachine/Day05/part_1/src/main.rs:105 | a number matches a conversion list when it lies in `source_start..=source_start + range`, a window of range + 1 numbers | the list "50 98 2" and the number 100: it becomes 52 | the window is `source_start..source_start + range`, so 100 stays 100 | not executed | MattdamachineDay05.OffByOneWindow | MattdamachineDay05.IntendedConvertAgrees |
| mohammad/day16/src/main.rs:50-108 | the inner loop follows a beam without checking `visited`, so a beam sent by a splitter around a loop of mirrors circles for ever | the grid `..\.`, `./.\`, `.\-/`, `....` with the beam starting at the top left, moving right | the inner loop stops at a beam it has already followed, so `energized` returns | not executed | MohammadDay16.CycleHangs | MohammadDay16.Energized |
| lethalgem/day_3/part_2/src/main.rs:100-115 | a number counts as next to a gear only when its first or its last column is within one of the gear's column | a five-digit number in columns 0 to 4 of row 0, and a gear at row 1, column 2 | every digit of the number counts, so the gear touches it | not executed | LethalgemDay3Part2.WideNumberMissed | LethalgemDay3Part2.TouchesSomeDigit |
